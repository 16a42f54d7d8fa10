/** The passthrough device.  Its output end takes frames from a client and gives
    them back in order; its input end, the twin, offers them to another client.
    A gate lets either every frame through (no dry run) or one frame a shoot. */
module Passthrough {
  import opened Arithmetic
  import opened Bytes

  datatype BufferState = Dequeued | Queued | Ready

  /** What a buffer is used for, and the flags of the frame it carries. */
  datatype Slot = Slot(state: BufferState, flags: int)

  /** Bits of the state words. */
  datatype Modes = Modes(shoot: bool, shooting: bool, tee: bool, dryrun: bool)
  {
    function Or(m: Modes): Modes {
      Modes(shoot || m.shoot, shooting || m.shooting, tee || m.tee, dryrun || m.dryrun)
    }
  }

  const NO_MODES := Modes(false, false, false, false)

  /** The controls that other processes write. */
  datatype Controls = Controls(state: Modes, periodic: nat)

  const WORD: nat := 0x1_0000_0000

  /** A frame that changes hands: the buffer it is in and its flags. */
  datatype Frame = Frame(index: nat, flags: int)

  // ----- The two ends as values -----

  /** The input end: its buffers and the one to give next. */
  datatype Input = Input(slots: seq<Slot>, cur: nat)
  {
    predicate Shaped() {
      cur < |slots|
    }
  }

  function DequeueInput(t: Input): (Input, Option<Frame>)
    requires t.Shaped()
  {
    var slot := t.slots[t.cur];
    if slot.state != Ready then
      (t, None)
    else
      (Input(t.slots[t.cur := slot.(state := Dequeued)], After(t.cur, |t.slots|)),
       Some(Frame(t.cur, slot.flags)))
  }

  function QueueInput(t: Input, index: nat): (Input, bool)
    requires t.Shaped() && index < |t.slots|
  {
    if t.slots[index].state != Dequeued then
      (t, false)
    else
      (t.(slots := t.slots[index := t.slots[index].(state := Queued)]), true)
  }

  predicate Distinct(s: seq<nat>) {
    forall j, k | 0 <= j < k < |s| :: s[j] != s[k]
  }

  /** The output end: its buffers, the ready ones in order, and the gate. */
  datatype Output = Output(
    slots: seq<Slot>, fifo: seq<nat>, modes: Modes, periodic: nat, controls: Option<Controls>)
  {
    predicate Shaped() {
      && (forall k | 0 <= k < |fifo| :: fifo[k] < |slots|)
      && (forall i | 0 <= i < |slots| :: slots[i].state == Ready <==> i in fifo)
      && Distinct(fifo)
    }

    /** Take over what the controls ask for. */
    function Controlled(): Output {
      if controls.Some? && controls.value.state != NO_MODES then
        this.(modes := modes.Or(controls.value.state), controls := Some(controls.value.(state := NO_MODES)))
      else
        this
    }

    /** One more call: every `periodic`-th asks for a shoot. */
    function Counted(): Output {
      if controls.Some? && controls.value.periodic > 0 then
        var count := (periodic + 1) % WORD;
        if count == controls.value.periodic then this.(periodic := 0, modes := modes.(shoot := true))
        else this.(periodic := count)
      else
        this
    }

    /** A shoot opens the gate. */
    function Shot(): Output {
      this.(modes := modes.(dryrun := false, shoot := false, shooting := true))
    }

    /** What a call of queue does before it looks at the buffer. */
    function Gated(twin: bool): Output {
      var o := Controlled().Counted();
      if twin && o.modes.shoot then o.Shot() else o
    }

    /** A frame is leaving: the gate closes after a shoot. */
    function Closed(): Output {
      if modes.shooting then this.(modes := modes.(dryrun := true, shooting := false)) else this
    }
  }

  function QueueOutput(o: Output, twin: bool, index: nat, flags: int): (Output, bool)
    requires index < |o.slots|
  {
    var g := o.Gated(twin);
    if g.slots[index].state != Dequeued then
      (g, false)
    else
      (g.(slots := g.slots[index := Slot(Ready, flags)], fifo := g.fifo + [index]), true)
  }

  /** The device: an output end, and its twin when it has one. */
  datatype Twin = Twin(output: Output, input: Option<Input>)
  {
    predicate Shaped() {
      output.Shaped() && (input.Some? ==> input.value.Shaped())
    }
  }

  /** The frame at the head is shown to the input end. */
  function MadeReady(t: Input, flags: int): Input
    requires t.Shaped()
  {
    t.(slots := t.slots[t.cur := Slot(Ready, flags)])
  }

  function DequeueOutput(t: Twin): (Twin, Option<Frame>)
    requires t.Shaped()
  {
    if t.output.fifo == [] then
      (t, None)
    else
      var index := t.output.fifo[0];
      var slot := t.output.slots[index];
      var o := t.output.Closed();
      var left := o.(fifo := o.fifo[1..], slots := o.slots[index := slot.(state := Dequeued)]);
      if t.input.None? || t.output.modes.dryrun then
        (Twin(left, t.input), Some(Frame(index, slot.flags)))
      else if t.input.value.slots[t.input.value.cur].state != Queued then
        (Twin(o, t.input), None)
      else
        (Twin(left, Some(MadeReady(t.input.value, slot.flags))), Some(Frame(index, slot.flags)))
  }

  /** Queueing a buffer that is not in the fifo leaves the fifo exact. */
  lemma QueueKeepsShape(o: Output, twin: bool, index: nat, flags: int)
    requires o.Shaped() && index < |o.slots|
    ensures QueueOutput(o, twin, index, flags).0.Shaped()
    ensures Distinct(o.fifo) && (o.slots[index].state == Dequeued ==> index !in o.fifo)
    ensures o.Gated(twin).slots == o.slots && o.Gated(twin).fifo == o.fifo
  {
    var t := QueueOutput(o, twin, index, flags).0;
    assert t.fifo == o.fifo || (t.fifo == o.fifo + [index] && index !in o.fifo);
  }

  lemma DequeueKeepsShape(t: Twin)
    requires t.Shaped()
    ensures DequeueOutput(t).0.Shaped()
    ensures t.output.Closed().slots == t.output.slots && t.output.Closed().fifo == t.output.fifo
    ensures t.output.fifo != [] ==> t.output.fifo[0] < |t.output.slots| && t.output.slots[t.output.fifo[0]].state == Ready
  {
    if t.output.fifo != [] {
      assert t.output.fifo == [t.output.fifo[0]] + t.output.fifo[1..];
    }
  }

  // ----- The two ends as objects -----

  class FrameBuffer {
    const id: nat
    var state: BufferState
    var flags: int
    var next: FrameBuffer?

    constructor (id: nat)
      ensures this.id == id && state == Dequeued && flags == 0 && next == null
    {
      this.id := id;
      state := Dequeued;
      flags := 0;
      next := null;
    }
  }

  ghost predicate Numbered(buffers: seq<FrameBuffer>) {
    forall i | 0 <= i < |buffers| :: buffers[i].id == i
  }

  ghost function Slots(buffers: seq<FrameBuffer>): (s: seq<Slot>)
    reads buffers
    ensures |s| == |buffers|
  {
    seq(|buffers|, i requires 0 <= i < |buffers| reads buffers => Slot(buffers[i].state, buffers[i].flags))
  }

  lemma OnlyOneChanged(buffers: seq<FrameBuffer>, index: nat, before: seq<Slot>)
    requires index < |buffers| == |before|
    requires forall i | 0 <= i < |buffers| :: i != index ==> Slot(buffers[i].state, buffers[i].flags) == before[i]
    ensures Slots(buffers) == before[index := Slot(buffers[index].state, buffers[index].flags)]
  {}

  /** Link the buffers in a ring. */
  method LinkRing(buffers: seq<FrameBuffer>)
    requires Numbered(buffers)
    modifies buffers
    ensures forall i | 0 <= i < |buffers| :: buffers[i].next == buffers[After(i, |buffers|)]
    ensures Slots(buffers) == old(Slots(buffers))
  {
    var n := |buffers|;
    for i := 0 to n
      invariant forall j | 0 <= j < i :: buffers[j].next == buffers[After(j, n)]
      invariant Slots(buffers) == old(Slots(buffers))
    {
      NextInRing(i, n);
      buffers[i].next := buffers[(i + 1) % n];
      assert forall j | 0 <= j < n :: Slots(buffers)[j] == old(Slots(buffers))[j];
    }
  }

  class InputEnd {
    const buffers: seq<FrameBuffer>
    var curbuffer: FrameBuffer

    ghost predicate Valid()
      reads this, buffers
    {
      && Numbered(buffers)
      && curbuffer.id < |buffers| && buffers[curbuffer.id] == curbuffer
      && forall i | 0 <= i < |buffers| :: buffers[i].next == buffers[After(i, |buffers|)]
    }

    ghost function Abstract(): (t: Input)
      requires Valid()
      reads this, buffers
      ensures t.Shaped()
    {
      Input(Slots(buffers), curbuffer.id)
    }

    /** Create and start. */
    constructor (buffers: seq<FrameBuffer>)
      requires Numbered(buffers) && buffers != []
      modifies buffers
      ensures Valid() && this.buffers == buffers
      ensures Abstract().cur == 0 && forall i | 0 <= i < |buffers| :: Abstract().slots[i].state == Queued
    {
      this.buffers := buffers;
      curbuffer := buffers[0];
      new;
      for i := 0 to |buffers|
        invariant curbuffer == buffers[0]
        invariant forall j | 0 <= j < i :: buffers[j].state == Queued
      {
        buffers[i].state := Queued;
      }
      LinkRing(buffers);
      assert forall i | 0 <= i < |buffers| :: Slots(buffers)[i].state == Queued;
    }

    method Dequeue() returns (frame: Option<Frame>)
      requires Valid()
      modifies this, buffers
      ensures Valid() && (Abstract(), frame) == DequeueInput(old(Abstract()))
    {
      var buffer := curbuffer;
      if buffer.state != Ready {
        return None;
      }
      curbuffer := buffer.next;
      buffer.state := Dequeued;
      frame := Some(Frame(buffer.id, buffer.flags));
      assert Slots(buffers) == DequeueInput(old(Abstract())).0.slots;
    }

    /** The other end has a frame for the buffer that is next. */
    method Show(flags: int) returns (ok: bool)
      requires Valid()
      modifies buffers
      ensures Valid() && ok == (old(Abstract().slots[Abstract().cur].state) == Queued)
      ensures Abstract() == if ok then MadeReady(old(Abstract()), flags) else old(Abstract())
    {
      var dupbuffer := curbuffer;
      if dupbuffer.state != Queued {
        return false;
      }
      dupbuffer.flags := flags;
      dupbuffer.state := Ready;
      ok := true;
      OnlyOneChanged(buffers, dupbuffer.id, old(Slots(buffers)));
    }

    method Queue(index: nat) returns (ok: bool)
      requires Valid() && index < |buffers|
      modifies this, buffers
      ensures Valid() && (Abstract(), ok) == QueueInput(old(Abstract()), index)
    {
      var buffer := buffers[index];
      if buffer.state != Dequeued {
        return false;
      }
      buffer.state := Queued;
      ok := true;
      assert Slots(buffers) == QueueInput(old(Abstract()), index).0.slots;
    }
  }

  class OutputEnd {
    const buffers: seq<FrameBuffer>
    const dup: InputEnd?
    var curbuffer: FrameBuffer?
    var modes: Modes
    var periodic: nat
    var controls: Option<Controls>
    ghost var fifo: seq<nat>

    /** The list from `curbuffer` through `next` is the fifo. */
    ghost predicate Linked()
      reads `fifo, `curbuffer, buffers
    {
      && (forall k | 0 <= k < |fifo| :: fifo[k] < |buffers|)
      && curbuffer == (if fifo == [] then null else buffers[fifo[0]])
      && (forall j, k | 0 <= j < |fifo| && k == j + 1 && k < |fifo| :: buffers[fifo[j]].next == buffers[fifo[k]])
      && (fifo != [] ==> buffers[fifo[|fifo| - 1]].next == null)
    }

    ghost function TwinBuffers(): seq<FrameBuffer> {
      if dup == null then [] else dup.buffers
    }

    ghost predicate Valid()
      reads this, buffers, dup, TwinBuffers()
    {
      && Numbered(buffers)
      && Linked()
      && Self().Shaped()
      && (dup != null ==> dup.Valid() && forall j | 0 <= j < |dup.buffers| :: dup.buffers[j] !in buffers)
    }

    ghost function Self(): Output
      reads this, buffers
    {
      Output(Slots(buffers), fifo, modes, periodic, controls)
    }

    ghost function Abstract(): (t: Twin)
      requires Valid()
      reads this, buffers, dup, TwinBuffers()
      ensures t.Shaped()
    {
      Twin(Self(), if dup == null then None else Some(dup.Abstract()))
    }

    /** Create and start. */
    constructor (buffers: seq<FrameBuffer>, dup: InputEnd?, modes: Modes, controls: Option<Controls>)
      requires Numbered(buffers)
      requires dup != null ==> dup.Valid() && forall j | 0 <= j < |dup.buffers| :: dup.buffers[j] !in buffers
      modifies buffers
      ensures Valid() && this.buffers == buffers && this.dup == dup
      ensures Self() == Output(Slots(buffers), [], modes, 0, controls)
      ensures forall s <- Slots(buffers) :: s.state == Dequeued
    {
      this.buffers, this.dup := buffers, dup;
      this.modes, this.controls := modes, controls;
      curbuffer, periodic, fifo := null, 0, [];
      new;
      for i := 0 to |buffers|
        invariant curbuffer == null && periodic == 0 && fifo == [] && this.modes == modes && this.controls == controls
        invariant forall j | 0 <= j < i :: buffers[j].state == Dequeued
        invariant dup != null ==> dup.Valid()
      {
        buffers[i].state := Dequeued;
      }
      assert forall j | 0 <= j < |buffers| :: Slots(buffers)[j].state == Dequeued;
    }

    /** The gate's part of a call of queue. */
    method PassGate()
      modifies this`modes, this`periodic, this`controls
      ensures Self() == old(Self()).Gated(dup != null)
    {
      if controls.Some? && controls.value.state != NO_MODES {
        modes := modes.Or(controls.value.state);
        controls := Some(controls.value.(state := NO_MODES));
      }
      if controls.Some? && controls.value.periodic > 0 {
        periodic := (periodic + 1) % WORD;
        if periodic == controls.value.periodic {
          periodic := 0;
          modes := modes.(shoot := true);
        }
      }
      if dup != null && modes.shoot {
        modes := modes.(dryrun := false);
        modes := modes.(shoot := false);
        modes := modes.(shooting := true);
      }
    }

    lemma HeadOfList()
      requires Linked() && Self().Shaped()
      ensures curbuffer == null <==> fifo == []
      ensures fifo != [] ==>
        var slot := Slots(buffers)[fifo[0]];
        curbuffer == buffers[fifo[0]] && curbuffer.state == slot.state == Ready && curbuffer.flags == slot.flags
    {
      DequeueKeepsShape(Twin(Self(), None));
    }

    /** Walk to the end of the list. */
    method Last() returns (last: FrameBuffer)
      requires Linked() && fifo != []
      ensures last == buffers[fifo[|fifo| - 1]]
    {
      last := curbuffer;
      ghost var k := 0;
      while last.next != null
        invariant 0 <= k < |fifo| && last == buffers[fifo[k]]
        invariant k + 1 < |fifo| ==> last.next == buffers[fifo[k + 1]]
        decreases |fifo| - k
      {
        last := last.next;
        k := k + 1;
      }
    }

    /** Append a buffer to the list. */
    method Append(buffer: FrameBuffer)
      requires Numbered(buffers) && Linked() && Distinct(fifo)
      requires buffer.id < |buffers| && buffers[buffer.id] == buffer && buffer.id !in fifo
      modifies this`curbuffer, this`fifo, buffers
      ensures Linked() && fifo == old(fifo) + [buffer.id] && Slots(buffers) == old(Slots(buffers))
    {
      forall k | 0 <= k < |fifo| ensures buffers[fifo[k]] != buffer {
        assert buffers[fifo[k]].id == fifo[k] != buffer.id;
      }
      buffer.next := null;
      assert Linked();
      if curbuffer == null {
        curbuffer := buffer;
      } else {
        var last := Last();
        assert forall k | 0 <= k < |fifo| - 1 :: buffers[fifo[k]].id != last.id;
        last.next := buffer;
      }
      fifo := fifo + [buffer.id];
      assert buffers[fifo[|fifo| - 1]] == buffer;
    }

    /** Give a buffer its frame and append it. */
    method Store(buffer: FrameBuffer, flags: int)
      requires Numbered(buffers) && Linked() && Distinct(fifo)
      requires buffer.id < |buffers| && buffers[buffer.id] == buffer && buffer.id !in fifo
      modifies this`curbuffer, this`fifo, buffers
      ensures Linked() && fifo == old(fifo) + [buffer.id]
      ensures Slots(buffers) == old(Slots(buffers))[buffer.id := Slot(Ready, flags)]
    {
      buffer.state := Queued;
      buffer.flags := flags;
      buffer.state := Ready;
      OnlyOneChanged(buffers, buffer.id, old(Slots(buffers)));
      Append(buffer);
    }

    method Queue(index: nat, flags: int) returns (ok: bool)
      requires Valid() && index < |buffers|
      modifies this, buffers
      ensures Valid()
      ensures var (o, done) := QueueOutput(old(Abstract().output), dup != null, index, flags);
        Abstract() == Twin(o, old(Abstract().input)) && ok == done
    {
      hide Output.Shaped, Output.Gated;
      QueueKeepsShape(Self(), dup != null, index, flags);
      PassGate();
      var buffer := buffers[index];
      if buffer.state != Dequeued {
        return false;
      }
      Store(buffer, flags);
      ok := true;
    }

    /** The gate's part of a call of dequeue. */
    method CloseGate()
      modifies this`modes
      ensures Self() == old(Self()).Closed()
    {
      if modes.shooting {
        modes := modes.(dryrun := true);
        modes := modes.(shooting := false);
      }
    }

    /** Take the head off the list. */
    method RemoveHead() returns (index: nat)
      requires Numbered(buffers) && Linked() && fifo != []
      modifies this`curbuffer, this`fifo, buffers
      ensures Linked() && index == old(fifo)[0] && fifo == old(fifo)[1..]
      ensures Slots(buffers) == old(Slots(buffers))[index := old(Slots(buffers))[index].(state := Dequeued)]
    {
      var buffer := curbuffer;
      curbuffer := curbuffer.next;
      buffer.state := Dequeued;
      index := buffer.id;
      assert fifo == [fifo[0]] + fifo[1..];
      fifo := fifo[1..];
      OnlyOneChanged(buffers, index, old(Slots(buffers)));
    }

    method Dequeue() returns (frame: Option<Frame>)
      requires Valid()
      modifies this, buffers, dup, TwinBuffers()
      ensures Valid() && (Abstract(), frame) == DequeueOutput(old(Abstract()))
    {
      hide Output.Shaped, Output.Closed, MadeReady, Linked, Numbered, Slots;
      DequeueKeepsShape(Abstract());
      HeadOfList();
      var state := modes;
      var buffer := curbuffer;
      if buffer == null || buffer.state != Ready {
        return None;
      }
      CloseGate();
      if dup != null && !state.dryrun {
        var shown := dup.Show(buffer.flags);
        if !shown {
          return None;
        }
      }
      var flags := buffer.flags;
      var index := RemoveHead();
      frame := Some(Frame(index, flags));
    }
  }

  // ----- Whole runs -----

  datatype Action =
    | QueueFrame(index: nat, flags: int)
    | DequeueFrame
    | QueueBack(index: nat)
    | DequeueShown
    | Control(controls: Controls)

  /** The device and what happened to it: the frames accepted and given back at the
      output end, the flags of the frames shown to the input end and the frames that
      came out there, the calls of queue and the shoots used. */
  datatype World = World(
    twin: Twin, queued: seq<Frame>, dequeued: seq<Frame>, made: seq<int>, taken: seq<Frame>, calls: nat, shoots: nat)

  function Optional<T>(o: Option<T>): seq<T> {
    if o.Some? then [o.value] else []
  }

  function Step(w: World, a: Action): World
    requires w.twin.Shaped()
  {
    match a
    case QueueFrame(index, flags) =>
      if index >= |w.twin.output.slots| then w
      else
        var (o, ok) := QueueOutput(w.twin.output, w.twin.input.Some?, index, flags);
        var shoot := w.twin.input.Some? && w.twin.output.Controlled().Counted().modes.shoot;
        w.(twin := w.twin.(output := o), queued := if ok then w.queued + [Frame(index, flags)] else w.queued,
           calls := w.calls + 1, shoots := if shoot then w.shoots + 1 else w.shoots)
    case DequeueFrame =>
      var (t, frame) := DequeueOutput(w.twin);
      var shows := frame.Some? && w.twin.input.Some? && !w.twin.output.modes.dryrun;
      w.(twin := t, dequeued := w.dequeued + Optional(frame),
         made := if shows then w.made + [frame.value.flags] else w.made)
    case QueueBack(index) =>
      if w.twin.input.None? || index >= |w.twin.input.value.slots| then w
      else w.(twin := w.twin.(input := Some(QueueInput(w.twin.input.value, index).0)))
    case DequeueShown =>
      if w.twin.input.None? then w
      else
        var (t, frame) := DequeueInput(w.twin.input.value);
        w.(twin := w.twin.(input := Some(t)), taken := w.taken + Optional(frame))
    case Control(controls) =>
      if w.twin.output.controls.None? then w
      else w.(twin := w.twin.(output := w.twin.output.(controls := Some(controls))))
  }

  /** A device just started: nothing queued, all input buffers waiting. */
  ghost predicate Started(w: World) {
    && w.twin.output.fifo == [] && w.twin.output.periodic == 0
    && (forall s <- w.twin.output.slots :: s.state == Dequeued)
    && (w.twin.input.Some? ==>
          w.twin.input.value.Shaped() && w.twin.input.value.cur == 0
          && forall s <- w.twin.input.value.slots :: s.state == Queued)
    && w.queued == w.dequeued == [] && w.made == [] && w.taken == [] && w.calls == w.shoots == 0
  }

  lemma StepKeepsShape(w: World, a: Action)
    requires w.twin.Shaped()
    ensures Step(w, a).twin.Shaped()
  {
    hide Output.Gated;
    match a
    case QueueFrame(index, flags) =>
      if index < |w.twin.output.slots| {
        QueueKeepsShape(w.twin.output, w.twin.input.Some?, index, flags);
      }
    case DequeueFrame => DequeueKeepsShape(w.twin);
    case _ =>
  }

  /** The frames come back, with their flags, in the order in which they were
      accepted; those that did not yet are the fifo. */
  ghost predicate OutputInOrder(w: World) {
    var o := w.twin.output;
    && w.twin.Shaped()
    && |w.dequeued| + |o.fifo| == |w.queued|
    && (forall k | 0 <= k < |w.dequeued| :: w.dequeued[k] == w.queued[k])
    && (forall k | 0 <= k < |o.fifo| ::
          o.fifo[k] < |o.slots| && Frame(o.fifo[k], o.slots[o.fifo[k]].flags) == w.queued[|w.dequeued| + k])
  }

  lemma QueueKeepsOutput(w: World, index: nat, flags: int)
    requires OutputInOrder(w)
    ensures OutputInOrder(Step(w, QueueFrame(index, flags)))
  {
    hide Output.Gated, Output.Closed, Output.Shaped;
    StepKeepsShape(w, QueueFrame(index, flags));
    if index < |w.twin.output.slots| {
      QueueKeepsShape(w.twin.output, w.twin.input.Some?, index, flags);
    }
  }

  lemma DequeueKeepsOutput(w: World)
    requires OutputInOrder(w)
    ensures OutputInOrder(Step(w, DequeueFrame))
  {
    hide Output.Gated, Output.Closed, Output.Shaped;
    StepKeepsShape(w, DequeueFrame);
    DequeueKeepsShape(w.twin);
  }

  lemma StepKeepsOutput(w: World, a: Action)
    requires OutputInOrder(w)
    ensures OutputInOrder(Step(w, a))
  {
    hide Output.Gated, Output.Closed, Output.Shaped, QueueOutput, DequeueOutput;
    StepKeepsShape(w, a);
    match a
    case QueueFrame(index, flags) => QueueKeepsOutput(w, index, flags);
    case DequeueFrame => DequeueKeepsOutput(w);
    case _ =>
  }

  /** The k-th buffer in ring order. */
  function Turn(k: nat, n: nat): (i: nat)
    requires n > 0
    ensures i < n
  {
    if k == 0 then 0 else After(Turn(k - 1, n), n)
  }

  lemma {:induction false} TurnIsRemainder(k: nat, n: nat)
    requires n > 0
    ensures Turn(k, n) == k % n
  {
    if k > 0 {
      TurnIsRemainder(k - 1, n);
      var i := (k - 1) % n;
      assert k == (k - 1) / n * n + (i + 1);
      if i + 1 < n {
        Remainder(k, (k - 1) / n, i + 1, n);
      } else {
        assert k == ((k - 1) / n + 1) * n;
        Remainder(k, (k - 1) / n + 1, 0, n);
      }
    } else {
      Remainder(0, 0, 0, n);
    }
  }

  lemma Remainder(a: nat, q: nat, r: nat, n: nat)
    requires n > 0 && r < n && a == q * n + r
    ensures a / n == q && a % n == r
  {
    var d := a / n - q;
    assert d * n == r - a % n;
    Multiple(d, n);
  }

  lemma {:induction false} Multiple(d: int, n: int)
    requires n >= 0
    ensures (d > 0 ==> d * n >= n) && (d < 0 ==> d * n <= -n)
    decreases if d < 0 then -d else d
  {
    if d > 1 {
      Multiple(d - 1, n);
      assert d * n == (d - 1) * n + n;
    } else if d < -1 {
      Multiple(d + 1, n);
      assert d * n == (d + 1) * n - n;
    }
  }

  /** The input end gives the frames made ready, each once, in order, with their
      flags, its buffers in ring order; at most one is ready, and it is the next. */
  ghost predicate ShownInOrder(t: Input, made: seq<int>, taken: seq<Frame>) {
    && t.Shaped()
    && |taken| <= |made| <= |taken| + 1
    && t.cur == Turn(|taken|, |t.slots|)
    && (forall k | 0 <= k < |taken| :: taken[k] == Frame(Turn(k, |t.slots|), made[k]))
    && (forall i | 0 <= i < |t.slots| :: t.slots[i].state == Ready <==> i == t.cur && |made| == |taken| + 1)
    && (|made| == |taken| + 1 ==> t.slots[t.cur].flags == made[|taken|])
  }

  ghost predicate InputInOrder(w: World) {
    w.twin.Shaped() && (w.twin.input.Some? ==> ShownInOrder(w.twin.input.value, w.made, w.taken))
  }

  lemma StepKeepsInput(w: World, a: Action)
    requires InputInOrder(w)
    ensures InputInOrder(Step(w, a))
  {
    hide Output.Gated, Output.Closed, Output.Shaped, QueueOutput;
    StepKeepsShape(w, a);
    if a.DequeueFrame? { DequeueKeepsShape(w.twin); }
  }

  /** The gate is shut or a shoot is under way; and no frame passes but for a shoot. */
  ghost predicate Gated(w: World) {
    && w.twin.Shaped()
    && (w.twin.input.Some? ==>
          var m := w.twin.output.modes;
          && (m.dryrun || m.shooting)
          && |w.made| + (if m.dryrun then 0 else 1) <= w.shoots)
  }

  lemma StepKeepsGate(w: World, a: Action)
    requires Gated(w)
    ensures Gated(Step(w, a))
  {
    hide Output.Shaped, QueueInput, DequeueInput;
    StepKeepsShape(w, a);
  }

  /** With a fixed period and nobody else shooting, the counters account for every
      call of queue. */
  ghost predicate Counts(w: World, period: nat) {
    && w.twin.Shaped() && w.twin.input.Some?
    && w.twin.output.controls == Some(Controls(NO_MODES, period))
    && !w.twin.output.modes.shoot
    && w.twin.output.periodic < period
    && w.calls == w.shoots * period + w.twin.output.periodic
  }

  /** What a call of queue does to the counter of the period. */
  lemma QueueCounts(o: Output, index: nat, flags: int, period: nat)
    requires o.Shaped() && index < |o.slots| && 0 < period < WORD
    requires o.controls == Some(Controls(NO_MODES, period)) && !o.modes.shoot && o.periodic < period
    ensures var next := QueueOutput(o, true, index, flags).0;
      && next.controls == o.controls && !next.modes.shoot
      && next.periodic == (if o.periodic + 1 == period then 0 else o.periodic + 1)
      && (o.Controlled().Counted().modes.shoot <==> o.periodic + 1 == period)
  {
    hide Output.Shaped;
  }

  lemma StepKeepsCounts(w: World, a: Action, period: nat)
    requires Counts(w, period) && 0 < period < WORD && !a.Control?
    ensures Counts(Step(w, a), period)
  {
    hide Output.Shaped, QueueOutput, Output.Controlled, Output.Counted, QueueInput, DequeueInput, MadeReady;
    StepKeepsShape(w, a);
    NextProduct(w.shoots, period);
    match a
    case QueueFrame(index, flags) =>
      if index < |w.twin.output.slots| {
        QueueCounts(w.twin.output, index, flags, period);
      }
    case _ =>
  }

  function Run(w: World, actions: seq<Action>): World
    requires w.twin.Shaped()
    decreases |actions|
  {
    if actions == [] then w
    else
      StepKeepsShape(w, actions[0]);
      Run(Step(w, actions[0]), actions[1..])
  }

  /** Whatever the sequence of calls. */
  lemma {:induction false} RunKeepsOrder(w: World, actions: seq<Action>)
    requires OutputInOrder(w) && InputInOrder(w)
    ensures OutputInOrder(Run(w, actions)) && InputInOrder(Run(w, actions))
    decreases |actions|
  {
    hide Step, ShownInOrder;
    if actions != [] {
      StepKeepsShape(w, actions[0]);
      StepKeepsOutput(w, actions[0]);
      StepKeepsInput(w, actions[0]);
      RunKeepsOrder(Step(w, actions[0]), actions[1..]);
    }
  }

  lemma {:induction false} RunKeepsGate(w: World, actions: seq<Action>)
    requires Gated(w)
    ensures Gated(Run(w, actions))
    decreases |actions|
  {
    hide Step;
    if actions != [] {
      StepKeepsGate(w, actions[0]);
      RunKeepsGate(Step(w, actions[0]), actions[1..]);
    }
  }

  lemma {:induction false} RunKeepsCounts(w: World, actions: seq<Action>, period: nat)
    requires Counts(w, period) && 0 < period < WORD
    requires forall a <- actions :: !a.Control?
    ensures Counts(Run(w, actions), period)
    decreases |actions|
  {
    hide Step;
    if actions != [] {
      StepKeepsCounts(w, actions[0], period);
      RunKeepsCounts(Step(w, actions[0]), actions[1..], period);
    }
  }

  /** Over any run from the start: both ends give every frame once and in order. */
  lemma EveryRunIsInOrder(w: World, actions: seq<Action>)
    requires Started(w)
    ensures w.twin.Shaped()
    ensures var t := Run(w, actions); OutputInOrder(t) && InputInOrder(t)
  {
    hide Run;
    assert forall i | 0 <= i < |w.twin.output.slots| :: w.twin.output.slots[i] in w.twin.output.slots;
    if w.twin.input.Some? {
      var t := w.twin.input.value;
      assert forall i | 0 <= i < |t.slots| :: t.slots[i] in t.slots;
    }
    RunKeepsOrder(w, actions);
  }

  /** At the input end the k-th frame comes in buffer k modulo their number. */
  lemma TakenInRingOrder(w: World, k: nat)
    requires InputInOrder(w) && w.twin.input.Some? && k < |w.taken|
    ensures w.taken[k] == Frame(k % |w.twin.input.value.slots|, w.made[k])
  {
    TurnIsRemainder(k, |w.twin.input.value.slots|);
  }

  /** Started in dry run, the input end never sees more frames than shoots. */
  lemma FramesNeedShoots(w: World, actions: seq<Action>)
    requires Started(w) && w.twin.Shaped() && w.twin.input.Some? && w.twin.output.modes.dryrun
    ensures var t := Run(w, actions); |t.made| <= t.shoots && (t.twin.output.modes.dryrun || t.twin.output.modes.shooting)
  {
    hide Run;
    RunKeepsGate(w, actions);
    RunKeepsInput(w, actions);
  }

  lemma {:induction false} RunKeepsInput(w: World, actions: seq<Action>)
    requires w.twin.Shaped()
    ensures Run(w, actions).twin.input.Some? == w.twin.input.Some?
    decreases |actions|
  {
    hide Output.Shaped, Output.Gated, QueueInput, DequeueInput;
    if actions != [] {
      StepKeepsShape(w, actions[0]);
      RunKeepsInput(Step(w, actions[0]), actions[1..]);
    }
  }

  /** With a period of n calls and no other shoot, the input end sees at most one
      frame in n. */
  lemma FramesArePeriodic(w: World, actions: seq<Action>, period: nat)
    requires Started(w) && w.twin.Shaped() && w.twin.input.Some?
    requires w.twin.output.modes.dryrun && !w.twin.output.modes.shoot
    requires 0 < period < WORD && w.twin.output.controls == Some(Controls(NO_MODES, period))
    requires forall a <- actions :: !a.Control?
    ensures var t := Run(w, actions); t.shoots == t.calls / period && |t.made| <= t.calls / period
  {
    hide Run;
    FramesNeedShoots(w, actions);
    RunKeepsCounts(w, actions, period);
    var t := Run(w, actions);
    Remainder(t.calls, t.shoots, t.twin.output.periodic, period);
  }

  /** A shoot is used up by the next frame that leaves the output end or tries to:
      it shows that frame if and only if the input end has a buffer waiting. */
  lemma ShootIsUsedUp(w: World)
    requires w.twin.Shaped() && w.twin.input.Some? && w.twin.output.fifo != []
    requires w.twin.output.modes.shooting && !w.twin.output.modes.dryrun
    ensures var t := Step(w, DequeueFrame);
      && t.twin.output.modes.dryrun && !t.twin.output.modes.shooting
      && (|t.made| == |w.made| + 1 <==> w.twin.input.value.slots[w.twin.input.value.cur].state == Queued)
      && (|t.made| == |w.made| ==> t.dequeued == w.dequeued)
  {
    hide Output.Shaped;
  }

  /** A call of queue uses a shoot if and only if one is asked for, by the controls, by
      an earlier call or by the period; then the gate is open. */
  lemma ShootOpensGate(w: World, index: nat, flags: int)
    requires w.twin.Shaped() && w.twin.input.Some? && index < |w.twin.output.slots|
    ensures var o, t := w.twin.output, Step(w, QueueFrame(index, flags));
      var due := o.controls.Some? && o.controls.value.periodic > 0 && (o.periodic + 1) % WORD == o.controls.value.periodic;
      && (t.shoots == w.shoots + 1 <==> o.modes.shoot || (o.controls.Some? && o.controls.value.state.shoot) || due)
      && (t.shoots == w.shoots + 1 ==> !t.twin.output.modes.dryrun && t.twin.output.modes.shooting)
  {
    hide Output.Shaped;
  }

  /** A call of queue takes over all that the controls ask for, and leaves nothing asked;
      with an input end a shoot is used at once and not kept. */
  lemma ControlsAreTakenOver(w: World, index: nat, flags: int)
    requires w.twin.Shaped() && index < |w.twin.output.slots| && w.twin.output.controls.Some?
    ensures var o, t := w.twin.output, Step(w, QueueFrame(index, flags)).twin.output;
      && t.controls == Some(Controls(NO_MODES, o.controls.value.periodic))
      && (t.modes.tee <==> o.modes.tee || o.controls.value.state.tee)
      && (w.twin.input.Some? ==> !t.modes.shoot)
  {
    hide Output.Shaped;
  }

  /** Nobody asks for a shoot. */
  ghost predicate Quiet(w: World) {
    && w.twin.Shaped() && w.twin.input.Some? && !w.twin.output.modes.shoot
    && (w.twin.output.controls.Some? ==> w.twin.output.controls.value == Controls(NO_MODES, 0))
  }

  lemma StepKeepsQuiet(w: World, a: Action)
    requires Quiet(w) && !a.Control?
    ensures Quiet(Step(w, a)) && Step(w, a).shoots == w.shoots
  {
    hide Output.Shaped, QueueInput, DequeueInput, MadeReady;
    StepKeepsShape(w, a);
  }

  lemma {:induction false} RunKeepsQuiet(w: World, actions: seq<Action>)
    requires Quiet(w) && forall a <- actions :: !a.Control?
    ensures Quiet(Run(w, actions)) && Run(w, actions).shoots == w.shoots
    decreases |actions|
  {
    hide Step, Quiet;
    assert w.twin.Shaped() by { QuietIsShaped(w); }
    if actions != [] {
      StepKeepsQuiet(w, actions[0]);
      RunKeepsQuiet(Step(w, actions[0]), actions[1..]);
    }
  }

  lemma QuietIsShaped(w: World)
    requires Quiet(w)
    ensures w.twin.Shaped()
  {}

  /** A shoot asked for once, by a control, is used once, by the next call of queue, and
      by no call of any run behind it. */
  lemma ShootIsUsedOnce(w: World, index: nat, flags: int, actions: seq<Action>)
    requires w.twin.Shaped() && w.twin.input.Some? && index < |w.twin.output.slots|
    requires w.twin.output.controls.Some? && w.twin.output.controls.value.periodic == 0
    requires w.twin.output.controls.value.state.shoot && forall a <- actions :: !a.Control?
    ensures var t := Step(w, QueueFrame(index, flags));
      t.shoots == w.shoots + 1 && t.twin.Shaped() && Run(t, actions).shoots == w.shoots + 1
  {
    hide Step, Run;
    ControlsAreTakenOver(w, index, flags);
    ShootOpensGate(w, index, flags);
    StepKeepsShape(w, QueueFrame(index, flags));
    QueueLeaves(w, index, flags);
    RunKeepsQuiet(Step(w, QueueFrame(index, flags)), actions);
  }

  /** Without dry run, shoots or controls the gate stays open, and every frame that
      leaves the output end is shown to the input end. */
  ghost predicate PassesAll(w: World) {
    && w.twin.Shaped() && w.twin.input.Some?
    && w.twin.output.controls.None? && w.twin.output.modes == NO_MODES
    && |w.made| == |w.dequeued|
    && forall k | 0 <= k < |w.made| :: w.made[k] == w.dequeued[k].flags
  }

  lemma StepKeepsPassing(w: World, a: Action)
    requires PassesAll(w)
    ensures PassesAll(Step(w, a))
  {
    hide Output.Shaped, QueueInput, DequeueInput, MadeReady;
    StepKeepsShape(w, a);
  }

  lemma {:induction false} RunKeepsPassing(w: World, actions: seq<Action>)
    requires PassesAll(w)
    ensures PassesAll(Run(w, actions))
    decreases |actions|
  {
    hide Step;
    if actions != [] {
      StepKeepsPassing(w, actions[0]);
      RunKeepsPassing(Step(w, actions[0]), actions[1..]);
    }
  }

  /** From end to end: the k-th frame at the input end has the flags of the k-th frame
      accepted at the output end. */
  lemma EveryFramePasses(w: World, actions: seq<Action>, k: nat)
    requires Started(w) && w.twin.Shaped() && w.twin.input.Some?
    requires w.twin.output.controls.None? && w.twin.output.modes == NO_MODES
    requires k < |Run(w, actions).taken|
    ensures k < |Run(w, actions).queued| && Run(w, actions).taken[k].flags == Run(w, actions).queued[k].flags
  {
    hide Run;
    EveryRunIsInOrder(w, actions);
    RunKeepsPassing(w, actions);
  }

  // ----- What every call does, in what happened before -----

  /** A frame in this buffer was accepted and not given back. */
  predicate Held(w: World, index: nat) {
    exists k | |w.dequeued| <= k < |w.queued| :: w.queued[k].index == index
  }

  /** No buffer of the output end waits: it is free or in the fifo. */
  ghost predicate NoneWaits(w: World) {
    forall i | 0 <= i < |w.twin.output.slots| :: w.twin.output.slots[i].state != Queued
  }

  lemma StepKeepsNoneWaits(w: World, a: Action)
    requires NoneWaits(w) && w.twin.Shaped()
    ensures NoneWaits(Step(w, a))
  {
    hide QueueInput, DequeueInput, MadeReady;
    StepKeepsShape(w, a);
    if a.DequeueFrame? { DequeueKeepsShape(w.twin); }
  }

  lemma HeldIsReady(w: World, index: nat)
    requires OutputInOrder(w) && NoneWaits(w) && index < |w.twin.output.slots|
    ensures Held(w, index) <==> w.twin.output.slots[index].state != Dequeued
  {
    var o := w.twin.output;
    if index in o.fifo {
      var k :| 0 <= k < |o.fifo| && o.fifo[k] == index;
      assert w.queued[|w.dequeued| + k].index == index;
    }
    if Held(w, index) {
      var k :| |w.dequeued| <= k < |w.queued| && w.queued[k].index == index;
      assert o.fifo[k - |w.dequeued|] == index;
    }
  }

  /** A frame is accepted exactly if its buffer is not held, whatever the gate does. */
  lemma QueueAccepts(w: World, index: nat, flags: int)
    requires OutputInOrder(w) && NoneWaits(w) && index < |w.twin.output.slots|
    ensures Step(w, QueueFrame(index, flags)).queued
         == if Held(w, index) then w.queued else w.queued + [Frame(index, flags)]
  {
    hide Output.Gated, Output.Shaped, Held;
    HeldIsReady(w, index);
    QueueKeepsShape(w.twin.output, w.twin.input.Some?, index, flags);
  }

  /** The gate is open, to an input end. */
  predicate Open(w: World) {
    w.twin.input.Some? && !w.twin.output.modes.dryrun
  }

  /** The oldest frame that is held is given back unless it is to be shown and the input
      end has no buffer waiting; it is shown exactly when it is given back through the
      open gate. */
  lemma DequeueGives(w: World)
    requires OutputInOrder(w) && InputInOrder(w)
    ensures var t := Step(w, DequeueFrame);
            var ready := Open(w) ==> w.twin.input.value.slots[w.twin.input.value.cur].state == Queued;
            var gives := |w.dequeued| < |w.queued| && ready;
      && t.dequeued == (if gives then w.dequeued + [w.queued[|w.dequeued|]] else w.dequeued)
      && t.made == (if gives && Open(w) then w.made + [w.queued[|w.dequeued|].flags] else w.made)
  {
    hide Output.Closed, Output.Shaped, MadeReady, ShownInOrder;
    DequeueKeepsShape(w.twin);
    assert w.twin.output.fifo != [] <==> |w.dequeued| < |w.queued|;
  }

  /** A shown frame that was not taken comes out at the input end, in the next buffer. */
  lemma ShownIsTaken(w: World)
    requires InputInOrder(w) && w.twin.input.Some?
    ensures Step(w, DequeueShown).taken
         == if |w.made| == |w.taken| then w.taken
            else w.taken + [Frame(w.twin.input.value.cur, w.made[|w.taken|])]
  {
    hide Output.Shaped;
  }

  // ----- Frames that all pass -----

  ghost predicate Sound(w: World) {
    PassesAll(w) && OutputInOrder(w) && InputInOrder(w) && NoneWaits(w)
  }

  lemma StepKeepsAll(w: World, a: Action)
    requires Sound(w)
    ensures Sound(Step(w, a))
  {
    hide Step, OutputInOrder, InputInOrder, NoneWaits, PassesAll, Twin.Shaped;
    assert w.twin.Shaped() by { SoundIsShaped(w); }
    StepKeepsPassing(w, a);
    StepKeepsOutput(w, a);
    StepKeepsInput(w, a);
    StepKeepsNoneWaits(w, a);
  }

  lemma SoundIsShaped(w: World)
    requires Sound(w)
    ensures w.twin.Shaped() && w.twin.input.Some?
  {}

  /** The gate is open for good, nothing is held, and all input buffers wait. */
  ghost predicate Idle(w: World) {
    && Sound(w)
    && |w.queued| == |w.dequeued| && |w.made| == |w.taken|
    && forall i | 0 <= i < |w.twin.input.value.slots| :: w.twin.input.value.slots[i].state == Queued
  }

  lemma StartsIdle(w: World)
    requires Started(w) && w.twin.Shaped() && w.twin.input.Some?
    requires w.twin.output.controls.None? && w.twin.output.modes == NO_MODES
    ensures Idle(w)
  {
    EveryRunIsInOrder(w, []);
    var t := w.twin.input.value;
    assert forall i | 0 <= i < |t.slots| :: t.slots[i] in t.slots;
    assert forall i | 0 <= i < |w.twin.output.slots| :: w.twin.output.slots[i] in w.twin.output.slots;
  }

  /** One frame from end to end: it is accepted, given back, taken, and the buffer it was
      taken in is given back. */
  function Passed(w: World, index: nat, flags: int): World
    requires w.twin.Shaped()
  {
    var w1 := Stepped(w, QueueFrame(index, flags));
    var w2 := Stepped(w1, DequeueFrame);
    var w3 := Stepped(w2, DequeueShown);
    Stepped(w3, QueueBack(if w.twin.input.Some? then w.twin.input.value.cur else 0))
  }

  function Stepped(w: World, a: Action): (t: World)
    requires w.twin.Shaped()
    ensures t.twin.Shaped()
  {
    StepKeepsShape(w, a);
    Step(w, a)
  }

  /** Queueing touches neither the input end nor what came out. */
  lemma QueueLeaves(w: World, index: nat, flags: int)
    requires w.twin.Shaped()
    ensures var t := Step(w, QueueFrame(index, flags));
      && t.twin.input == w.twin.input && t.dequeued == w.dequeued && t.made == w.made && t.taken == w.taken
      && |t.twin.output.slots| == |w.twin.output.slots|
  {
    hide Output.Gated, Output.Shaped;
    if index < |w.twin.output.slots| {
      QueueKeepsShape(w.twin.output, w.twin.input.Some?, index, flags);
    }
  }

  lemma QueuedInIdle(w: World, index: nat, flags: int)
    requires Idle(w) && index < |w.twin.output.slots|
    ensures var t := Step(w, QueueFrame(index, flags));
      && Sound(t) && t == w.(twin := t.twin, calls := t.calls, shoots := t.shoots, queued := w.queued + [Frame(index, flags)])
      && t.twin.input == w.twin.input && |t.twin.output.slots| == |w.twin.output.slots|
  {
    hide Step, OutputInOrder, InputInOrder, NoneWaits, PassesAll;
    StepKeepsAll(w, QueueFrame(index, flags));
    SoundIsShaped(w);
    QueueLeaves(w, index, flags);
    QueueAccepts(w, index, flags);
  }

  lemma DequeueKeepsSize(w: World)
    requires w.twin.Shaped()
    ensures |Step(w, DequeueFrame).twin.output.slots| == |w.twin.output.slots|
  {
    hide MadeReady, Output.Shaped;
    DequeueKeepsShape(w.twin);
  }

  /** The oldest frame moves on: only the buffer after the last one taken changes. */
  lemma DequeuedAfter(w: World)
    requires Sound(w) && |w.queued| == |w.dequeued| + 1
    requires w.twin.input.value.slots[w.twin.input.value.cur].state == Queued
    ensures var t := Step(w, DequeueFrame); var flags := w.queued[|w.dequeued|].flags;
      && Sound(t) && t.queued == w.queued && t.taken == w.taken
      && t.dequeued == w.dequeued + [w.queued[|w.dequeued|]] && t.made == w.made + [flags]
      && t.twin.input == Some(MadeReady(w.twin.input.value, flags))
      && |t.twin.output.slots| == |w.twin.output.slots|
  {
    hide NoneWaits, Output.Shaped, MadeReady, ShownInOrder;
    StepKeepsAll(w, DequeueFrame);
    DequeueKeepsSize(w);
    DequeueGives(w);
    DequeueKeepsShape(w.twin);
  }

  /** From an idle device one frame goes through, and the device is idle again. */
  lemma FramePasses(w: World, index: nat, flags: int)
    requires Idle(w) && index < |w.twin.output.slots|
    ensures var t := Passed(w, index, flags);
      && Idle(t) && |t.twin.output.slots| == |w.twin.output.slots|
      && t.queued == w.queued + [Frame(index, flags)] && t.dequeued == w.dequeued + [Frame(index, flags)]
      && t.taken == w.taken + [Frame(w.twin.input.value.cur, flags)]
  {
    hide OutputInOrder, InputInOrder, NoneWaits, PassesAll, QueueOutput, DequeueOutput, Output.Shaped;
    SoundIsShaped(w);
    var w1 := Step(w, QueueFrame(index, flags));
    QueuedInIdle(w, index, flags);
    SoundIsShaped(w1);
    assert w1.twin.input.value == w.twin.input.value;
    var w2 := Step(w1, DequeueFrame);
    DequeuedAfter(w1);
    SoundIsShaped(w2);
    var w3 := Step(w2, DequeueShown);
    StepKeepsAll(w2, DequeueShown);
    ShownIsTaken(w2);
    SoundIsShaped(w3);
    StepKeepsAll(w3, QueueBack(w.twin.input.value.cur));
  }

  function AllPassed(w: World, frames: seq<Frame>): World
    requires w.twin.Shaped()
    decreases |frames|
  {
    if frames == [] then w else AllPassed(PassedOn(w, frames[0]), frames[1..])
  }

  function PassedOn(w: World, f: Frame): (t: World)
    requires w.twin.Shaped()
    ensures t.twin.Shaped()
  {
    Passed(w, f.index, f.flags)
  }

  function Flags(frames: seq<Frame>): (flags: seq<int>)
    ensures |flags| == |frames|
  {
    seq(|frames|, k requires 0 <= k < |frames| => frames[k].flags)
  }

  lemma FlagsConcat(a: seq<Frame>, b: seq<Frame>)
    ensures Flags(a + b) == Flags(a) + Flags(b)
  {}

  lemma FlagsOne(f: Frame)
    ensures Flags([f]) == [f.flags]
  {}

  /** Started with the gate open, with neither controls nor shoots: any number of frames,
      one after the other, are all accepted, all given back and all taken at the input
      end, with their flags. */
  lemma {:induction false} AllFramesPass(w: World, frames: seq<Frame>)
    requires Idle(w) && forall f <- frames :: f.index < |w.twin.output.slots|
    ensures w.twin.Shaped()
    ensures var t := AllPassed(w, frames);
      && t.queued == w.queued + frames && t.dequeued == w.dequeued + frames
      && Flags(t.taken) == Flags(w.taken) + Flags(frames)
    decreases |frames|
  {
    hide Passed, Twin.Shaped, Sound, Flags;
    SoundIsShaped(w);
    if frames == [] {
      assert Flags(w.taken) + Flags(frames) == Flags(w.taken);
    } else {
      var f := frames[0];
      var t := PassedOn(w, f);
      FramePasses(w, f.index, f.flags);
      AllFramesPass(t, frames[1..]);
      var one := [Frame(w.twin.input.value.cur, f.flags)];
      FlagsConcat(w.taken, one);
      FlagsOne(one[0]);
      FlagsOne(f);
      FlagsConcat([f], frames[1..]);
      assert [f] + frames[1..] == frames;
      assert Flags(w.taken) + [f.flags] + Flags(frames[1..]) == Flags(w.taken) + ([f.flags] + Flags(frames[1..]));
      assert w.queued + [f] + frames[1..] == w.queued + frames;
      assert w.dequeued + [f] + frames[1..] == w.dequeued + frames;
    }
  }
}
