/** The transfer loop: it moves buffers from device to device, and back.  A device
    is a table of operations on the state of the world, as devices may share state
    (the two ends of a passthrough do) and the outside may decide their answers. */
module Pipeline {
  import opened Errno

  const MAX_DRAIN_PER_ITERATION: nat := 16

  datatype Answer = Done(index: nat) | Failed(errno: nat)

  /** The buffers a device holds, and its operations. */
  datatype Ops<!S> = Ops(held: S -> set<nat>, dequeue: S -> (S, Answer), queue: (S, nat) -> (S, Answer))

  datatype Pipe<!S> = Pipe(input: Ops<S>, output: Ops<S>)

  // ----- What the loop expects of devices -----

  /** A buffer that is dequeued was held, and no longer is. */
  predicate Releases<S>(d: Ops<S>, s: S) {
    var (t, a) := d.dequeue(s);
    if a.Done? then a.index in d.held(s) && d.held(t) == d.held(s) - {a.index} else d.held(t) == d.held(s)
  }

  /** A buffer that is queued is held; one that is refused is not. */
  predicate Takes<S>(d: Ops<S>, s: S, i: nat) {
    var (t, a) := d.queue(s, i);
    d.held(t) == if a.Done? then d.held(s) + {i} else d.held(s)
  }

  /** The operations of d leave alone what e holds. */
  predicate LeavesAlone<S>(d: Ops<S>, e: Ops<S>, s: S, i: nat) {
    e.held(d.dequeue(s).0) == e.held(s) && e.held(d.queue(s, i).0) == e.held(s)
  }

  /** A buffer just dequeued from d can be queued to d again when e refuses it. */
  predicate TakesBack<S>(d: Ops<S>, e: Ops<S>, s: S) {
    var (t, a) := d.dequeue(s);
    a.Done? ==>
      var (u, b) := e.queue(t, a.index);
      b == Failed(EAGAIN) ==> d.queue(u, a.index).1.Done?
  }

  ghost predicate KeepsBooks<S(!new)>(d: Ops<S>) {
    (forall s: S :: Releases(d, s)) && (forall s: S, i: nat :: Takes(d, s, i))
  }

  ghost predicate Apart<S(!new)>(d: Ops<S>, e: Ops<S>) {
    forall s: S, i: nat :: LeavesAlone(d, e, s, i) && LeavesAlone(e, d, s, i)
  }

  /** Two devices that can be the ends of a pipe. */
  ghost predicate Suited<S(!new)>(d: Ops<S>, e: Ops<S>) {
    && KeepsBooks(d) && KeepsBooks(e) && Apart(d, e)
    && (forall s: S :: TakesBack(d, e, s) && TakesBack(e, d, s))
  }

  // ----- One hop -----

  /** What became of a buffer. */
  datatype Fate = Nothing | Relayed(index: nat) | Lost(index: nat)

  datatype Hop<S> = Hop(world: S, ret: int, errno: nat, fate: Fate)

  function Transfer<S>(world: S, input: Ops<S>, output: Ops<S>): Hop<S> {
    var (s, got) := input.dequeue(world);
    match got
    case Failed(errno) => Hop(s, if errno == EAGAIN then 0 else -1, errno, Nothing)
    case Done(i) =>
      var (t, put) := output.queue(s, i);
      match put
      case Done(_) => Hop(t, 1, 0, Relayed(i))
      case Failed(errno) =>
        if errno != EAGAIN then Hop(t, -1, errno, Lost(i)) else Hop(input.queue(t, i).0, 0, 0, Nothing)
  }

  /** The books of the two ends after a hop. */
  predicate Booked<S>(hop: Hop<S>, world: S, input: Ops<S>, output: Ops<S>) {
    match hop.fate
    case Nothing =>
      && (hop.ret == 0 || hop.ret == -1)
      && input.held(hop.world) == input.held(world) && output.held(hop.world) == output.held(world)
    case Relayed(i) =>
      && hop.ret == 1 && i in input.held(world)
      && input.held(hop.world) == input.held(world) - {i} && output.held(hop.world) == output.held(world) + {i}
    case Lost(i) =>
      && hop.ret == -1 && hop.errno != EAGAIN && i in input.held(world)
      && input.held(hop.world) == input.held(world) - {i} && output.held(hop.world) == output.held(world)
  }

  lemma TransferConserves<S(!new)>(world: S, input: Ops<S>, output: Ops<S>)
    requires Suited(input, output)
    ensures Booked(Transfer(world, input, output), world, input, output)
  {
    var (s, got) := input.dequeue(world);
    assert Releases(input, world) && LeavesAlone(input, output, world, 0);
    if got.Done? {
      var (t, put) := output.queue(s, got.index);
      assert Takes(output, s, got.index) && LeavesAlone(output, input, s, got.index);
      assert Takes(input, t, got.index) && LeavesAlone(input, output, t, got.index);
      assert TakesBack(input, output, world);
    }
  }

  lemma TransferLeavesAlone<S(!new)>(world: S, input: Ops<S>, output: Ops<S>, other: Ops<S>)
    requires Apart(input, other) && Apart(output, other)
    ensures other.held(Transfer(world, input, output).world) == other.held(world)
  {
    var (s, got) := input.dequeue(world);
    assert LeavesAlone(input, other, world, 0);
    if got.Done? {
      var t := output.queue(s, got.index).0;
      assert LeavesAlone(output, other, s, got.index) && LeavesAlone(input, other, t, got.index);
    }
  }

  /** The world after n hops. */
  function Hops<S>(world: S, input: Ops<S>, output: Ops<S>, n: nat): S {
    if n == 0 then world else Transfer(Hops(world, input, output, n - 1), input, output).world
  }

  /** Hop number i, from 0 on. */
  function HopAt<S>(world: S, input: Ops<S>, output: Ops<S>, i: nat): Hop<S> {
    Transfer(Hops(world, input, output, i), input, output)
  }

  /** The first n hops relay a buffer each. */
  predicate AllRelay<S>(world: S, input: Ops<S>, output: Ops<S>, n: nat) {
    forall i | 0 <= i < n :: HopAt(world, input, output, i).ret == 1
  }

  lemma NextHop<S>(was: S, world: S, input: Ops<S>, output: Ops<S>, n: nat)
    requires world == Hops(was, input, output, n)
    ensures HopAt(was, input, output, n) == Transfer(world, input, output)
    ensures Hops(was, input, output, n + 1) == Transfer(world, input, output).world
  {}

  lemma NoHops<S>(world: S, input: Ops<S>, output: Ops<S>)
    ensures Hops(world, input, output, 0) == world
  {}

  // ----- The loop -----

  /** The three places a buffer can be in. */
  predicate Split(all: set<nat>, a: set<nat>, b: set<nat>, c: set<nat>) {
    a + b + c == all && a !! b && a !! c && b !! c
  }

  /** An event of select: the file descriptors of the ends that are looked at, and
      whether they are ready. */
  datatype Event = Event(infds: seq<int>, inready: seq<bool>, outfds: seq<int>, outready: seq<bool>)

  /** An end without a descriptor is tried at every wakeup. */
  predicate Looked(fd: int, ready: bool) {
    fd < 0 || (fd > 0 && ready)
  }

  /** The condition under which an error stops the loop. */
  predicate Stops(fd: int, errno: nat) {
    fd > 0 || errno == 0
  }

  class Loop<S(!new)> {
    const pipes: seq<Pipe<S>>
    var world: S
    var running: bool
    /** The buffers of each pipe, and those that neither end holds any more. */
    ghost const buffers: seq<set<nat>>
    ghost var lost: seq<set<nat>>

    ghost predicate Wired() {
      && |buffers| == |pipes|
      && (forall k | 0 <= k < |pipes| :: Suited(pipes[k].input, pipes[k].output))
      && (forall j, k | 0 <= j < |pipes| && 0 <= k < |pipes| && j != k ::
            && Apart(pipes[j].input, pipes[k].input) && Apart(pipes[j].input, pipes[k].output)
            && Apart(pipes[j].output, pipes[k].input) && Apart(pipes[j].output, pipes[k].output))
    }

    /** Every buffer is held by exactly one end of its pipe, or lost. */
    ghost predicate Conserved()
      requires Wired()
      reads this
    {
      && |lost| == |pipes|
      && forall k | 0 <= k < |pipes| ::
           Split(buffers[k], pipes[k].input.held(world), pipes[k].output.held(world), lost[k])
    }

    /** The devices a hop goes from and to. */
    function From(k: nat, back: bool): Ops<S>
      requires k < |pipes|
    {
      if back then pipes[k].output else pipes[k].input
    }

    constructor (pipes: seq<Pipe<S>>, world: S, ghost buffers: seq<set<nat>>)
      requires |buffers| == |pipes|
      requires forall k | 0 <= k < |pipes| ::
        Split(buffers[k], pipes[k].input.held(world), pipes[k].output.held(world), {})
      requires forall k | 0 <= k < |pipes| :: Suited(pipes[k].input, pipes[k].output)
      requires forall j, k | 0 <= j < |pipes| && 0 <= k < |pipes| && j != k ::
        && Apart(pipes[j].input, pipes[k].input) && Apart(pipes[j].input, pipes[k].output)
        && Apart(pipes[j].output, pipes[k].input) && Apart(pipes[j].output, pipes[k].output)
      ensures Wired() && Conserved() && running
      ensures this.pipes == pipes && this.world == world && this.buffers == buffers
      ensures forall k | 0 <= k < |pipes| :: lost[k] == {}
    {
      this.pipes, this.world, this.buffers := pipes, world, buffers;
      running, lost := true, seq(|pipes|, _ => {});
    }

    method TransferBuffer(k: nat, back: bool) returns (ret: int, errno: nat)
      requires Wired() && Conserved() && k < |pipes|
      modifies `world, `lost
      ensures Conserved()
      ensures var hop := Transfer(old(world), From(k, back), From(k, !back));
        && world == hop.world && ret == hop.ret && errno == hop.errno
        && lost == if hop.fate.Lost? then old(lost)[k := old(lost)[k] + {hop.fate.index}] else old(lost)
    {
      var input, output := From(k, back), From(k, !back);
      HopMoves(world, k, back);
      var (s, got) := input.dequeue(world);
      world := s;
      if got.Failed? {
        errno := got.errno;
        if errno == EAGAIN {
          return 0, errno;
        }
        return -1, errno;
      }
      var (t, put) := output.queue(world, got.index);
      world := t;
      if put.Failed? {
        errno := put.errno;
        if errno != EAGAIN {
          lost := lost[k := lost[k] + {got.index}];
          return -1, errno;
        }
        var (u, _) := input.queue(world, got.index);
        world := u;
        return 0, 0;
      }
      return 1, 0;
    }

    /** A set of buffers went over on pipe k, and nothing else moved. */
    ghost predicate Moved(was: S, now: S, k: nat, back: bool, moved: set<nat>)
      requires k < |pipes|
    {
      && moved <= From(k, back).held(was)
      && From(k, !back).held(now) == From(k, !back).held(was) + moved
      && From(k, back).held(now) <= From(k, back).held(was)
      && forall j | 0 <= j < |pipes| && j != k ::
           pipes[j].input.held(now) == pipes[j].input.held(was) && pipes[j].output.held(now) == pipes[j].output.held(was)
    }

    lemma OneMore(was: S, now: S, k: nat, back: bool, moved: set<nat>)
      requires Wired() && k < |pipes| && Moved(was, now, k, back, moved)
      requires From(k, back).held(now) !! From(k, !back).held(now)
      ensures var hop := Transfer(now, From(k, back), From(k, !back));
        if hop.ret == 1 then
          && hop.fate.Relayed? && Moved(was, hop.world, k, back, moved + {hop.fate.index})
          && |moved + {hop.fate.index}| == |moved| + 1
        else
          && (hop.ret == 0 || hop.ret == -1) && Moved(was, hop.world, k, back, moved)
          && (hop.fate.Lost? ==> hop.ret == -1)
    {
      hide Suited, Apart, Transfer;
      HopMoves(now, k, back);
    }

    /** The first n hops on a pipe relayed a buffer each; either they are 16, or one
        more hop was made, which relayed none. */
    ghost predicate Drained(was: S, now: S, k: nat, back: bool, n: nat)
      requires k < |pipes|
    {
      var a, b := From(k, back), From(k, !back);
      && n <= MAX_DRAIN_PER_ITERATION
      && AllRelay(was, a, b, n)
      && if n == MAX_DRAIN_PER_ITERATION then now == Hops(was, a, b, n)
         else HopAt(was, a, b, n).ret != 1 && now == Hops(was, a, b, n + 1)
    }

    /** Hop after hop on one pipe: it moves 16 buffers, or goes on until a hop moves
        none, and stops the loop exactly on an error.  When the end has a descriptor,
        a buffer is lost only if the loop stops. */
    method Drain(k: nat, back: bool, fd: int) returns (stop: bool, ghost moved: set<nat>, ghost gone: set<nat>)
      requires Wired() && Conserved() && k < |pipes|
      modifies `world, `lost, `running
      ensures Conserved() && Moved(old(world), world, k, back, moved)
      ensures |moved| <= MAX_DRAIN_PER_ITERATION && |gone| <= 1 && Drained(old(world), world, k, back, |moved|)
      ensures stop <==> Fails(fd, old(world), k, back, |moved|)
      ensures lost == old(lost)[k := old(lost)[k] + gone]
      ensures running == (old(running) && !stop)
      ensures fd > 0 && gone != {} ==> stop
    {
      hide Suited, Apart, Transfer, Moved, Split, Hops, HopAt;
      ghost var a, b, was := From(k, back), From(k, !back), world;
      NoHops(world, a, b);
      moved := {};
      gone := {};
      stop := false;
      BooksAreApart(k, back);
      assert Moved(world, world, k, back, {}) by { NothingMoved(k, back); }
      var ret := 1;
      var drained := 0;
      while ret == 1 && drained < MAX_DRAIN_PER_ITERATION
        invariant Conserved() && 0 <= drained <= MAX_DRAIN_PER_ITERATION
        invariant Moved(old(world), world, k, back, moved) && |moved| == drained
        invariant ret >= 0 ==> gone == {}
        invariant fd > 0 ==> ret >= 0
        invariant |gone| <= 1 && lost == old(lost)[k := old(lost)[k] + gone]
        invariant AllRelay(was, a, b, drained)
        invariant if ret == 1 then world == Hops(was, a, b, drained)
                  else drained < MAX_DRAIN_PER_ITERATION && world == Hops(was, a, b, drained + 1)
                       && HopAt(was, a, b, drained).ret == ret && !(ret == -1 && Stops(fd, HopAt(was, a, b, drained).errno))
        invariant running == old(running) && !stop
        decreases MAX_DRAIN_PER_ITERATION - drained, ret
      {
        BooksAreApart(k, back);
        OneMore(old(world), world, k, back, moved);
        NextHop(was, world, a, b, drained);
        ghost var fate := Transfer(world, From(k, back), From(k, !back)).fate;
        var errno;
        ret, errno := TransferBuffer(k, back);
        if fate.Lost? {
          gone := {fate.index};
        }
        if ret == -1 && Stops(fd, errno) {
          running := false;
          stop := true;
          break;
        }
        if ret == 1 {
          moved := moved + {fate.index};
          drained := drained + 1;
        }
      }
    }

    /** From one world to another each pipe moved at most 16 buffers, in one
        direction, and the pipes outside of the range none. */
    ghost predicate Advanced(was: S, now: S, back: bool, lo: nat, hi: nat) {
      forall k | 0 <= k < |pipes| :: PipeAdvanced(was, now, back, k, lo, hi)
    }

    ghost predicate PipeAdvanced(was: S, now: S, back: bool, k: nat, lo: nat, hi: nat)
      requires k < |pipes|
    {
      var a, b := From(k, back), From(k, !back);
      && b.held(was) <= b.held(now) && a.held(now) <= a.held(was)
      && |b.held(now) - b.held(was)| <= MAX_DRAIN_PER_ITERATION
      && (!(lo <= k < hi) ==> b.held(now) == b.held(was) && a.held(now) == a.held(was))
    }

    lemma OneMorePipe(was: S, between: S, now: S, k: nat, back: bool, lo: nat, hi: nat, moved: set<nat>)
      requires k < |pipes| && !(lo <= k < hi) && |moved| <= MAX_DRAIN_PER_ITERATION
      requires Advanced(was, between, back, lo, hi) && Moved(between, now, k, back, moved)
      requires From(k, back).held(between) !! From(k, !back).held(between)
      ensures Advanced(was, now, back, if k < lo then k else lo, if k < hi then hi else k + 1)
    {
      var l, h := if k < lo then k else lo, if k < hi then hi else k + 1;
      forall j | 0 <= j < |pipes|
        ensures PipeAdvanced(was, now, back, j, l, h)
      {
        assert PipeAdvanced(was, between, back, j, lo, hi);
        if j == k {
          assert From(k, !back).held(now) - From(k, !back).held(was) == moved;
        } else {
          assert From(j, back).held(now) == From(j, back).held(between);
          assert From(j, !back).held(now) == From(j, !back).held(between);
        }
      }
    }

    lemma Widen(was: S, now: S, back: bool, lo: nat, hi: nat)
      requires Advanced(was, now, back, lo, hi)
      ensures forall l, h | 0 <= l <= lo && hi <= h :: Advanced(was, now, back, l, h)
    {
      forall l: nat, h: nat, k | 0 <= k < |pipes| && l <= lo && hi <= h
        ensures PipeAdvanced(was, now, back, k, l, h)
      {
        assert PipeAdvanced(was, now, back, k, lo, hi);
      }
    }

    /** What a pass does at a pipe: if its end has no descriptor, or one that is ready,
        it is drained, and fails if the last hop met an error; otherwise it is left
        as it is. */
    ghost predicate PipePasses(fds: seq<int>, ready: seq<bool>, back: bool, k: nat, was: S, now: S, failed: bool)
      requires |fds| == |ready| == |pipes| && k < |pipes|
    {
      if fds[k] < 0 || (fds[k] > 0 && ready[k]) then
        exists n: nat :: Drained(was, now, k, back, n) && (failed <==> Fails(fds[k], was, k, back, n))
      else
        now == was && !failed
    }

    ghost predicate Fails(fd: int, was: S, k: nat, back: bool, n: nat)
      requires k < |pipes|
    {
      && n < MAX_DRAIN_PER_ITERATION
      && var hop := HopAt(was, From(k, back), From(k, !back), n);
         hop.ret == -1 && (fd > 0 || hop.errno == 0)
    }

    /** The pipe at which step i of a pass is. */
    function PipeOf(i: nat, back: bool): nat
      requires i < |pipes|
    {
      if back then |pipes| - 1 - i else i
    }

    /** The first steps of a pass, with the worlds between them. */
    ghost predicate PassesBy(fds: seq<int>, ready: seq<bool>, back: bool, worlds: seq<S>, stopped: bool)
      requires |fds| == |ready| == |pipes| && 0 < |worlds| <= |pipes| + 1
    {
      && (stopped ==> |worlds| > 1)
      && forall i | 0 <= i < |worlds| - 1 ::
           PipePasses(fds, ready, back, PipeOf(i, back), worlds[i], worlds[i + 1], stopped && i == |worlds| - 2)
    }

    /** A pass over the pipes, forwards or backwards: over all of them, unless it stops
        at one that fails. */
    ghost predicate Pass(fds: seq<int>, ready: seq<bool>, back: bool, was: S, now: S, stopped: bool)
      requires |fds| == |ready| == |pipes|
    {
      exists worlds: seq<S> | 0 < |worlds| <= |pipes| + 1 ::
        && worlds[0] == was && worlds[|worlds| - 1] == now
        && PassesBy(fds, ready, back, worlds, stopped) && (!stopped ==> |worlds| == |pipes| + 1)
    }

    lemma OneStepMore(fds: seq<int>, ready: seq<bool>, back: bool, worlds: seq<S>, now: S, stopped: bool)
      requires |fds| == |ready| == |pipes| && 0 < |worlds| <= |pipes|
      requires PassesBy(fds, ready, back, worlds, false)
      requires PipePasses(fds, ready, back, PipeOf(|worlds| - 1, back), worlds[|worlds| - 1], now, stopped)
      ensures PassesBy(fds, ready, back, worlds + [now], stopped)
    {
      hide PipePasses;
      var more := worlds + [now];
      forall i | 0 <= i < |more| - 1
        ensures PipePasses(fds, ready, back, PipeOf(i, back), more[i], more[i + 1], stopped && i == |more| - 2)
      {
        if i < |worlds| - 1 {
          assert more[i] == worlds[i] && more[i + 1] == worlds[i + 1];
          assert PipePasses(fds, ready, back, PipeOf(i, back), worlds[i], worlds[i + 1], false);
        }
      }
    }

    lemma DrainedPasses(fds: seq<int>, ready: seq<bool>, back: bool, k: nat, was: S, now: S, failed: bool, n: nat)
      requires |fds| == |ready| == |pipes| && k < |pipes| && (fds[k] < 0 || (fds[k] > 0 && ready[k]))
      requires Drained(was, now, k, back, n) && (failed <==> Fails(fds[k], was, k, back, n))
      ensures PipePasses(fds, ready, back, k, was, now, failed)
    {
      hide Drained, Fails;
    }

    /** Every end has a descriptor. */
    predicate AllWatched(fds: seq<int>) {
      forall fd <- fds :: fd >= 0
    }

    /** The pass over the pipes from first to last: from inputs to outputs. */
    method Forward(fds: seq<int>, ready: seq<bool>) returns (ghost stopped: bool)
      requires Wired() && Conserved() && |fds| == |ready| == |pipes|
      modifies `world, `lost, `running
      ensures Conserved() && Advanced(old(world), world, false, 0, |pipes|)
      ensures Pass(fds, ready, false, old(world), world, stopped) && running == (old(running) && !stopped)
      ensures AllWatched(fds) && lost != old(lost) ==> !running
    {
      hide Suited, Apart, Transfer, Moved, Split, Advanced, Drained, Fails, PipePasses, PassesBy;
      stopped := false;
      ghost var worlds := [world];
      PassBegins(fds, ready, false);
      NothingAdvanced(false, 0);
      for k := 0 to |pipes|
        invariant Conserved() && Advanced(old(world), world, false, 0, k)
        invariant AllWatched(fds) ==> lost == old(lost)
        invariant running == old(running) && !stopped
        invariant |worlds| == k + 1 && worlds[0] == old(world) && worlds[|worlds| - 1] == world
        invariant PassesBy(fds, ready, false, worlds, false)
      {
        Widen(old(world), world, false, 0, k);
        assert fds[k] in fds;
        ghost var between := world;
        if Looked(fds[k], ready[k]) {
          BooksAreApart(k, false);
          var stop, moved, gone := Drain(k, false, fds[k]);
          OneMorePipe(old(world), between, world, k, false, 0, k, moved);
          DrainedPasses(fds, ready, false, k, between, world, stop, |moved|);
          if stop {
            Widen(old(world), world, false, 0, k + 1);
            OneStepMore(fds, ready, false, worlds, world, true);
            worlds, stopped := worlds + [world], true;
            break;
          }
        } else {
          LeftPasses(fds, ready, false, k, world);
        }
        OneStepMore(fds, ready, false, worlds, world, false);
        worlds := worlds + [world];
      }
    }

    /** The pass over the pipes from last to first: from outputs back to inputs. */
    method Backward(fds: seq<int>, ready: seq<bool>) returns (ghost stopped: bool)
      requires Wired() && Conserved() && |fds| == |ready| == |pipes|
      modifies `world, `lost, `running
      ensures Conserved() && Advanced(old(world), world, true, 0, |pipes|)
      ensures Pass(fds, ready, true, old(world), world, stopped) && running == (old(running) && !stopped)
      ensures AllWatched(fds) && lost != old(lost) ==> !running
    {
      hide Suited, Apart, Transfer, Moved, Split, Advanced, Drained, Fails, PipePasses, PassesBy;
      stopped := false;
      ghost var worlds := [world];
      PassBegins(fds, ready, true);
      NothingAdvanced(true, |pipes|);
      for k := |pipes| downto 0
        invariant Conserved() && Advanced(old(world), world, true, k, |pipes|)
        invariant AllWatched(fds) ==> lost == old(lost)
        invariant running == old(running) && !stopped
        invariant |worlds| == |pipes| - k + 1 && worlds[0] == old(world) && worlds[|worlds| - 1] == world
        invariant PassesBy(fds, ready, true, worlds, false)
      {
        Widen(old(world), world, true, k + 1, |pipes|);
        assert fds[k] in fds;
        ghost var between := world;
        if Looked(fds[k], ready[k]) {
          BooksAreApart(k, true);
          var stop, moved, gone := Drain(k, true, fds[k]);
          OneMorePipe(old(world), between, world, k, true, k + 1, |pipes|, moved);
          DrainedPasses(fds, ready, true, k, between, world, stop, |moved|);
          if stop {
            Widen(old(world), world, true, k, |pipes|);
            OneStepMore(fds, ready, true, worlds, world, true);
            worlds, stopped := worlds + [world], true;
            break;
          }
        } else {
          LeftPasses(fds, ready, true, k, world);
        }
        OneStepMore(fds, ready, true, worlds, world, false);
        worlds := worlds + [world];
      }
    }

    /** What an event of select does: a pass from the inputs, and one from the outputs. */
    ghost predicate Handled(e: Event, was: S, now: S, stopped: bool) {
      Complete(e) && exists between: S, first: bool, second: bool ::
        && Pass(e.infds, e.inready, false, was, between, first)
        && Pass(e.outfds, e.outready, true, between, now, second) && stopped == (first || second)
    }

    predicate Complete(e: Event) {
      |e.infds| == |e.inready| == |e.outfds| == |e.outready| == |pipes|
    }

    /** All events were handled, one after the other, unless the loop stopped in the last
        one: `worlds` are the worlds between them. */
    ghost predicate HandledBy(events: seq<Event>, worlds: seq<S>, stopped: bool) {
      && 0 < |worlds| <= |events| + 1 && (stopped ==> |worlds| > 1)
      && forall i | 0 <= i < |worlds| - 1 ::
           Handled(events[i], worlds[i], worlds[i + 1], stopped && i == |worlds| - 2)
    }

    lemma OneEventMore(events: seq<Event>, worlds: seq<S>, now: S, stopped: bool)
      requires 0 < |worlds| <= |events| && HandledBy(events, worlds, false)
      requires Handled(events[|worlds| - 1], worlds[|worlds| - 1], now, stopped)
      ensures HandledBy(events, worlds + [now], stopped)
    {
      hide Handled;
      var more := worlds + [now];
      forall i | 0 <= i < |more| - 1
        ensures Handled(events[i], more[i], more[i + 1], stopped && i == |more| - 2)
      {
        if i < |worlds| - 1 {
          assert more[i] == worlds[i] && more[i + 1] == worlds[i + 1];
          assert Handled(events[i], worlds[i], worlds[i + 1], false);
        }
      }
    }

    /** Wakeup after wakeup: every event is handled unless the loop stops; no buffer is
        ever in two places; and while every end has a descriptor, none is lost as long
        as the loop goes on. */
    method Run(events: seq<Event>) returns (ghost worlds: seq<S>)
      requires Wired() && Conserved() && running
      requires forall e <- events :: Complete(e)
      modifies `world, `lost, `running
      ensures Conserved()
      ensures HandledBy(events, worlds, !running) && worlds[0] == old(world) && worlds[|worlds| - 1] == world
      ensures running ==> |worlds| == |events| + 1
      ensures (forall e <- events :: AllWatched(e.infds) && AllWatched(e.outfds)) && running ==> lost == old(lost)
    {
      hide Suited, Apart, Transfer, Moved, Split, Advanced, AllWatched, Pass, HandledBy;
      var i := 0;
      worlds := [world];
      NothingHandled(events);
      while running && i < |events|
        invariant Conserved() && 0 <= i <= |events| && |worlds| == i + 1
        invariant worlds[0] == old(world) && worlds[i] == world && HandledBy(events, worlds, !running)
        invariant (forall e <- events :: AllWatched(e.infds) && AllWatched(e.outfds)) && running ==> lost == old(lost)
      {
        var event := events[i];
        assert event in events;
        ghost var first := Forward(event.infds, event.inready);
        ghost var second := Backward(event.outfds, event.outready);
        OneEventMore(events, worlds, world, !running);
        worlds := worlds + [world];
        i := i + 1;
      }
    }

    lemma NothingHandled(events: seq<Event>)
      ensures HandledBy(events, [world], false)
    {}

    lemma PassBegins(fds: seq<int>, ready: seq<bool>, back: bool)
      requires |fds| == |ready| == |pipes|
      ensures PassesBy(fds, ready, back, [world], false)
    {}

    lemma LeftPasses(fds: seq<int>, ready: seq<bool>, back: bool, k: nat, was: S)
      requires |fds| == |ready| == |pipes| && k < |pipes| && !(fds[k] < 0 || (fds[k] > 0 && ready[k]))
      ensures PipePasses(fds, ready, back, k, was, was, false)
    {}

    /** A buffer that can move does: at a pipe that is looked at, the first buffer that
        the one end gives and the other takes has gone over when the pipe is done. */
    lemma ReadyPipeMoves(fds: seq<int>, ready: seq<bool>, back: bool, k: nat, was: S, now: S, failed: bool)
      requires Wired() && |fds| == |ready| == |pipes| && k < |pipes|
      requires fds[k] < 0 || (fds[k] > 0 && ready[k])
      requires PipePasses(fds, ready, back, k, was, now, failed)
      requires var (s, got) := From(k, back).dequeue(was); got.Done? && From(k, !back).queue(s, got.index).1.Done?
      ensures var i := From(k, back).dequeue(was).1.index;
        && i in From(k, back).held(was) && i !in From(k, back).held(now) && i in From(k, !back).held(now)
    {
      hide Suited, Apart;
      var a, b := From(k, back), From(k, !back);
      var i := a.dequeue(was).1.index;
      var n: nat :| Drained(was, now, k, back, n) && (failed <==> Fails(fds[k], was, k, back, n));
      assert HopAt(was, a, b, 0) == Transfer(was, a, b);
      hide Transfer;
      StaysOver(was, k, back, i, if n == MAX_DRAIN_PER_ITERATION then n else n + 1, n);
    }

    /** With one pipe, whether or not the pass stops. */
    lemma OnePipeMoves(fds: seq<int>, ready: seq<bool>, back: bool, was: S, now: S, stopped: bool)
      requires Wired() && |fds| == |ready| == |pipes| == 1
      requires (fds[0] < 0 || (fds[0] > 0 && ready[0])) && Pass(fds, ready, back, was, now, stopped)
      requires var (s, got) := From(0, back).dequeue(was); got.Done? && From(0, !back).queue(s, got.index).1.Done?
      ensures var i := From(0, back).dequeue(was).1.index;
        && i in From(0, back).held(was) && i !in From(0, back).held(now) && i in From(0, !back).held(now)
    {
      hide Suited, Apart, Transfer, PipePasses;
      var worlds: seq<S> :| 0 < |worlds| <= |pipes| + 1
        && worlds[0] == was && worlds[|worlds| - 1] == now
        && PassesBy(fds, ready, back, worlds, stopped) && (!stopped ==> |worlds| == |pipes| + 1);
      assert PipePasses(fds, ready, back, PipeOf(0, back), worlds[0], worlds[1], stopped && 0 == |worlds| - 2);
      ReadyPipeMoves(fds, ready, back, 0, was, now, stopped);
    }

    lemma {:induction false} StaysOver(was: S, k: nat, back: bool, i: nat, m: nat, n: nat)
      requires Wired() && k < |pipes| && 0 < m <= n + 1 && 0 < n
      requires AllRelay(was, From(k, back), From(k, !back), n)
      requires Transfer(was, From(k, back), From(k, !back)).fate == Relayed(i)
      ensures var now := Hops(was, From(k, back), From(k, !back), m);
        && i in From(k, back).held(was) && i !in From(k, back).held(now) && i in From(k, !back).held(now)
    {
      hide Suited, Apart, Transfer;
      var a, b := From(k, back), From(k, !back);
      var before := Hops(was, a, b, m - 1);
      HopMoves(before, k, back);
      NextHop(was, before, a, b, m - 1);
      if m > 1 {
        StaysOver(was, k, back, i, m - 1, n);
      } else {
        NoHops(was, a, b);
      }
    }

    lemma NothingMoved(k: nat, back: bool)
      requires k < |pipes|
      ensures Moved(world, world, k, back, {})
    {}

    lemma NothingAdvanced(back: bool, at: nat)
      ensures Advanced(world, world, back, at, at)
    {}

    lemma BooksAreApart(k: nat, back: bool)
      requires Wired() && Conserved() && k < |pipes|
      ensures From(k, back).held(world) !! From(k, !back).held(world)
    {}

    /** What a hop does to the books of all pipes. */
    lemma HopMoves(was: S, k: nat, back: bool)
      requires Wired() && k < |pipes|
      ensures var hop := Transfer(was, From(k, back), From(k, !back));
        && Booked(hop, was, From(k, back), From(k, !back))
        && forall j | 0 <= j < |pipes| && j != k ::
             && pipes[j].input.held(hop.world) == pipes[j].input.held(was)
             && pipes[j].output.held(hop.world) == pipes[j].output.held(was)
    {
      hide Suited, Apart, Transfer, Booked;
      var hop := Transfer(was, From(k, back), From(k, !back));
      Symmetric(pipes[k].input, pipes[k].output);
      TransferConserves(was, From(k, back), From(k, !back));
      forall j | 0 <= j < |pipes| && j != k
        ensures pipes[j].input.held(hop.world) == pipes[j].input.held(was)
        ensures pipes[j].output.held(hop.world) == pipes[j].output.held(was)
      {
        TransferLeavesAlone(was, From(k, back), From(k, !back), pipes[j].input);
        TransferLeavesAlone(was, From(k, back), From(k, !back), pipes[j].output);
      }
    }
  }

  lemma Symmetric<S(!new)>(d: Ops<S>, e: Ops<S>)
    ensures Suited(d, e) ==> Suited(e, d)
  {
    if Suited(d, e) {
      assert forall s: S, i: nat :: LeavesAlone(d, e, s, i) && LeavesAlone(e, d, s, i);
    }
  }

  // ----- When a buffer is lost -----

  /** The loop goes on after losing a buffer exactly when a queue fails with a real
      error, and the end it was taken from has no descriptor. */
  lemma LostAndGoesOn<S(!new)>(world: S, input: Ops<S>, output: Ops<S>, fd: int)
    ensures var hop := Transfer(world, input, output);
      hop.fate.Lost? && !Stops(fd, hop.errno) <==>
      var (s, got) := input.dequeue(world);
      && fd <= 0 && got.Done?
      && output.queue(s, got.index).1.Failed? && output.queue(s, got.index).1.errno !in {EAGAIN, 0}
  {
    var (s, got) := input.dequeue(world);
    if got.Done? {
      var (t, put) := output.queue(s, got.index);
    }
  }

  /** A world of one set: an input that holds the set, and an output that fails. */
  function Source(): Ops<set<nat>> {
    Ops((s: set<nat>) => s,
        (s: set<nat>) => if 0 in s then (s - {0}, Done(0)) else (s, Failed(EAGAIN)),
        (s: set<nat>, i: nat) => (s + {i}, Done(i)))
  }

  function Broken(errno: nat): Ops<set<nat>> {
    Ops((s: set<nat>) => {}, (s: set<nat>) => (s, Failed(EAGAIN)), (s: set<nat>, i: nat) => (s, Failed(errno)))
  }

  /** Between two devices that keep the contract buffer 0 vanishes and the loop goes
      on: there is no descriptor to tell that the output failed. */
  lemma BufferVanishes(errno: nat)
    requires errno != EAGAIN && errno != 0
    ensures Suited(Source(), Broken(errno))
    ensures var hop := Transfer({0}, Source(), Broken(errno));
      && 0 !in Source().held(hop.world) && 0 !in Broken(errno).held(hop.world)
      && hop.ret == -1 && !Stops(-1, hop.errno)
  {
    assert 0 in {0};
    var hop := Transfer({0}, Source(), Broken(errno));
    assert hop.world == {0} - {0};
  }
}
