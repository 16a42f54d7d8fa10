/** The two ends of a passthrough keep the contract that the transfer loop relies on,
    although they share their state. */
module PassthroughPipes {
  import opened Bytes
  import opened Errno
  import opened Pipeline
  import Passthrough

  /** The buffers a passthrough end holds. */
  function HeldSlots(slots: seq<Passthrough.Slot>): set<nat> {
    set i | 0 <= i < |slots| && slots[i].state != Passthrough.Dequeued
  }

  /** The input end, in a world of a passthrough and other devices. */
  function InputEnd<R>(): Ops<(Passthrough.Twin, R)> {
    Ops(
      (w: (Passthrough.Twin, R)) => if w.0.input.Some? then HeldSlots(w.0.input.value.slots) else {},
      (w: (Passthrough.Twin, R)) =>
        if w.0.Shaped() && w.0.input.Some? then
          var (t, frame) := Passthrough.DequeueInput(w.0.input.value);
          ((w.0.(input := Some(t)), w.1), if frame.Some? then Done(frame.value.index) else Failed(EAGAIN))
        else
          (w, Failed(EAGAIN)),
      (w: (Passthrough.Twin, R), i: nat) =>
        if w.0.Shaped() && w.0.input.Some? && i < |w.0.input.value.slots| then
          var (t, ok) := Passthrough.QueueInput(w.0.input.value, i);
          ((w.0.(input := Some(t)), w.1), if ok then Done(i) else Failed(EAGAIN))
        else
          (w, Failed(0)))
  }

  function OutputEnd<R>(flags: int): Ops<(Passthrough.Twin, R)> {
    Ops(
      (w: (Passthrough.Twin, R)) => HeldSlots(w.0.output.slots),
      (w: (Passthrough.Twin, R)) =>
        if w.0.Shaped() then
          var (t, frame) := Passthrough.DequeueOutput(w.0);
          ((t, w.1), if frame.Some? then Done(frame.value.index) else Failed(EAGAIN))
        else
          (w, Failed(EAGAIN)),
      (w: (Passthrough.Twin, R), i: nat) =>
        if w.0.Shaped() && i < |w.0.output.slots| then
          var (o, ok) := Passthrough.QueueOutput(w.0.output, w.0.input.Some?, i, flags);
          ((w.0.(output := o), w.1), if ok then Done(i) else Failed(EAGAIN))
        else
          (w, Failed(0)))
  }

  /** Another device of that world. */
  function Beside<R>(d: Ops<R>): Ops<(Passthrough.Twin, R)> {
    Ops(
      (w: (Passthrough.Twin, R)) => d.held(w.1),
      (w: (Passthrough.Twin, R)) => var (r, a) := d.dequeue(w.1); ((w.0, r), a),
      (w: (Passthrough.Twin, R), i: nat) => var (r, a) := d.queue(w.1, i); ((w.0, r), a))
  }

  lemma InputEndKeepsBooks<R(!new)>()
    ensures KeepsBooks<(Passthrough.Twin, R)>(InputEnd())
  {
    hide Passthrough.Output.Shaped;
    forall w: (Passthrough.Twin, R) ensures Releases(InputEnd(), w) {}
    forall w: (Passthrough.Twin, R), i: nat ensures Takes(InputEnd(), w, i) {}
  }

  lemma OutputEndKeepsBooks<R(!new)>(flags: int)
    ensures KeepsBooks<(Passthrough.Twin, R)>(OutputEnd(flags))
  {
    hide Passthrough.Output.Shaped, Passthrough.Output.Gated, Passthrough.Output.Closed;
    forall w: (Passthrough.Twin, R) ensures Releases(OutputEnd(flags), w) {
      if w.0.Shaped() { Passthrough.DequeueKeepsShape(w.0); }
    }
    forall w: (Passthrough.Twin, R), i: nat ensures Takes(OutputEnd(flags), w, i) {
      if w.0.Shaped() && i < |w.0.output.slots| {
        Passthrough.QueueKeepsShape(w.0.output, w.0.input.Some?, i, flags);
      }
    }
  }

  /** Showing a frame to the input end changes nothing of what it holds. */
  lemma EndsAreApart<R(!new)>(flags: int)
    ensures Apart<(Passthrough.Twin, R)>(OutputEnd(flags), InputEnd())
  {
    hide Passthrough.Output.Shaped, Passthrough.Output.Gated, Passthrough.Output.Closed;
    forall w: (Passthrough.Twin, R), i: nat
      ensures LeavesAlone(OutputEnd(flags), InputEnd(), w, i) && LeavesAlone(InputEnd(), OutputEnd(flags), w, i)
    {}
  }

  lemma BesideKeepsBooks<R(!new)>(d: Ops<R>)
    requires KeepsBooks(d)
    ensures KeepsBooks(Beside(d))
  {
    forall w: (Passthrough.Twin, R) ensures Releases(Beside(d), w) { assert Releases(d, w.1); }
    forall w: (Passthrough.Twin, R), i: nat ensures Takes(Beside(d), w, i) { assert Takes(d, w.1, i); }
  }

  lemma BesideIsApart<R(!new)>(d: Ops<R>, flags: int)
    ensures Apart(Beside(d), InputEnd()) && Apart(Beside(d), OutputEnd(flags))
  {
    forall w: (Passthrough.Twin, R), i: nat
      ensures LeavesAlone(Beside(d), InputEnd(), w, i) && LeavesAlone(InputEnd(), Beside(d), w, i)
    {}
    forall w: (Passthrough.Twin, R), i: nat
      ensures LeavesAlone(Beside(d), OutputEnd(flags), w, i) && LeavesAlone(OutputEnd(flags), Beside(d), w, i)
    {}
  }

  /** A device that takes back what it just gave, when nobody touched it since. */
  ghost predicate TakesBackOwn<R(!new)>(d: Ops<R>) {
    forall r: R :: TakesBackAt(d, r)
  }

  predicate TakesBackAt<R>(d: Ops<R>, r: R) {
    var (t, a) := d.dequeue(r);
    a.Done? ==> d.queue(t, a.index).1.Done?
  }

  lemma InputEndTakesBack<R(!new)>(d: Ops<R>)
    requires TakesBackOwn(d)
    ensures forall w :: TakesBack(InputEnd(), Beside(d), w) && TakesBack(Beside(d), InputEnd(), w)
  {
    hide Passthrough.Output.Shaped;
    forall w ensures TakesBack(InputEnd(), Beside(d), w) && TakesBack(Beside(d), InputEnd(), w) {
      assert TakesBackAt(d, w.1);
    }
  }

  lemma OutputEndTakesBack<R(!new)>(d: Ops<R>, flags: int)
    requires TakesBackOwn(d)
    ensures forall w :: TakesBack(OutputEnd(flags), Beside(d), w) && TakesBack(Beside(d), OutputEnd(flags), w)
  {
    hide Passthrough.Output.Shaped, Passthrough.Output.Gated, Passthrough.Output.Closed;
    forall w ensures TakesBack(OutputEnd(flags), Beside(d), w) && TakesBack(Beside(d), OutputEnd(flags), w) {
      assert TakesBackAt(d, w.1);
      if w.0.Shaped() {
        Passthrough.DequeueKeepsShape(w.0);
        var (t, frame) := Passthrough.DequeueOutput(w.0);
        if frame.Some? {
          Passthrough.QueueKeepsShape(t.output, t.input.Some?, frame.value.index, flags);
        }
      }
    }
  }

  /** A camera, a passthrough and a display are two pipes for which the loop keeps
      every buffer: all that it requires of the four ends holds. */
  lemma PassthroughFits<R(!new)>(camera: Ops<R>, display: Ops<R>, flags: int)
    requires KeepsBooks(camera) && TakesBackOwn(camera)
    requires KeepsBooks(display) && TakesBackOwn(display)
    requires Apart(camera, display)
    ensures Suited(Beside(camera), OutputEnd(flags)) && Suited(InputEnd(), Beside(display))
    ensures Apart(Beside(camera), InputEnd()) && Apart(Beside(camera), Beside(display))
    ensures Apart(OutputEnd<R>(flags), InputEnd<R>()) && Apart(OutputEnd(flags), Beside(display))
  {
    InputEndKeepsBooks<R>();
    OutputEndKeepsBooks<R>(flags);
    EndsAreApart<R>(flags);
    BesideKeepsBooks(camera);
    BesideKeepsBooks(display);
    BesideIsApart(camera, flags);
    BesideIsApart(display, flags);
    InputEndTakesBack(display);
    OutputEndTakesBack(camera, flags);
    BesideEachOther(camera, display);
  }

  lemma BesideEachOther<R(!new)>(d: Ops<R>, e: Ops<R>)
    requires Apart(d, e)
    ensures Apart(Beside(d), Beside(e))
  {
    forall w: (Passthrough.Twin, R), i: nat
      ensures LeavesAlone(Beside(d), Beside(e), w, i) && LeavesAlone(Beside(e), Beside(d), w, i)
    {
      assert LeavesAlone(d, e, w.1, i) && LeavesAlone(e, d, w.1, i);
    }
  }
}
