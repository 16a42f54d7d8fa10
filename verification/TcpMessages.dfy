/** A caller of the TCP sender that keeps its messages short enough: then every packet
    of the ring is one whole message, and only the first chunk of a message can be
    refused. */
module TcpMessages {
  import opened Bytes
  import opened TcpRing

  /** The chunk fits behind what is queued. */
  predicate FitsBehind(r: Ring, call: Call)
    requires r.Shaped()
  {
    r.Buf().state == Queued ==> |r.Buf().bytes| + |call.chunk| <= r.mtu
  }

  /** A step of a caller whose chunks fit, as long as the sender reports no error. */
  predicate Fitting(s: State, a: Action)
    requires s.ring.Shaped()
  {
    a.CallSend? && s.error == 0 ==> FitsBehind(s.ring, a.call)
  }

  /** A message ends with these chunks. */
  predicate Ends(chunks: seq<Chunk>) {
    chunks != [] && !chunks[|chunks| - 1].more
  }

  ghost predicate AllEnd(groups: seq<Group>) {
    forall g <- groups :: g.sent ==> Ends(g.chunks)
  }

  /** No buffer is pushed because it is full. */
  ghost predicate MessageInv(s: State)
    requires s.ring.Shaped()
  {
    && !s.producer.PushFull? && !s.producer.AdvanceFull?
    && ((s.producer.Entry? || s.producer.ErrorCheck?) && s.error == 0 ==> FitsBehind(s.ring, s.producer.call))
    && (s.producer.Room? ==> FitsBehind(s.ring, s.producer.call))
    && AllEnd(s.ring.groups)
  }

  /** What the operations of the ring do to its history. */
  lemma RingHistory(r: Ring, chunk: Chunk, more: bool, started: bool)
    requires r.Shaped()
    ensures r.Opened().open == r.open && r.Opened().groups == r.groups && r.Opened().pushed == r.pushed
    ensures r.Filled(chunk).open == r.open + [chunk] && r.Filled(chunk).groups == r.groups
    ensures r.Filled(chunk).pushed == r.pushed
    ensures r.Pushed(more, started).open == [] && r.Pushed(more, started).groups == r.groups + [Group(r.open, true)]
    ensures r.Pushed(more, started).pushed == r.pushed + [Packet(r.Buf().bytes, more, started)]
    ensures r.Advanced().open == r.open && r.Advanced().groups == r.groups && r.Advanced().pushed == r.pushed
    ensures r.Dropped().open == (if r.Buf().state == Queued then [] else r.open) && r.Dropped().pushed == r.pushed
    ensures r.Dropped().groups == r.groups + if r.Buf().state == Queued then [Group(r.open, false)] else []
    ensures r.Taken().open == r.open && r.Taken().groups == r.groups && r.Taken().pushed == r.pushed
    ensures r.Opened().mtu == r.Filled(chunk).mtu == r.Pushed(more, started).mtu == r.mtu
    ensures r.Advanced().mtu == r.Dropped().mtu == r.Taken().mtu == r.mtu
  {}

  lemma OneMoreEnds(groups: seq<Group>, g: Group)
    requires AllEnd(groups) && (g.sent ==> Ends(g.chunks))
    ensures AllEnd(groups + [g])
  {}

  /** What the ring's invariant says about the buffer being filled. */
  lemma OpenFacts(s: State)
    requires s.ring.Shaped() && Sound(s)
    ensures s.ring.Buf().state == Queued ==> s.ring.Buf().bytes == Joined(s.ring.open)
    ensures s.ring.Buf().state != Queued ==> s.ring.open == []
    ensures s.dropping ==> s.ring.Buf().state != Queued
    ensures s.client.None? && !s.producer.CloseBuffer? ==> s.dropping
    ensures s.producer.PushLast? ==> s.ring.Buf().state == Queued && Ends(s.ring.open) && !s.producer.call.more
    ensures OneMessage(s.ring.open)
    ensures s.ring.Buf().state == Queued && !s.producer.PushLast? ==> GoesOn(s.ring.open)
  {
    hide RingInv, HistoryInv, GapInv, GreetingInv, StoredInv, SenderInv, Joined;
  }

  lemma SenderKeepsMessages(s: State, failed: bool, errno: nat)
    requires s.ring.Shaped() && Sound(s) && MessageInv(s) && NextOfSender(s, failed, errno).Some?
    ensures MessageInv(NextOfSender(s, failed, errno).value)
  {
    hide Inv, GapInv, GreetingInv, StoredInv, ProducerInv, Ring.Taken, AllEnd;
    RingHistory(s.ring, Chunk([], false), false, false);
    RingFacts(s.ring, s.Advancing());
    TakenKeeps(s.ring, s.Advancing());
  }

  lemma LooksKeepMessages(s: State, waiting: Option<nat>)
    requires s.ring.Shaped() && Sound(s) && MessageInv(s) && NextOfProducer(s, waiting).Some?
    requires !s.producer.Open? && !s.producer.Copy? && !s.producer.PushLast? && !s.producer.AdvanceLast?
    requires !s.producer.CloseBuffer?
    ensures MessageInv(NextOfProducer(s, waiting).value)
  {
    OpenFacts(s);
    hide Sound, AllEnd, Joined, GoesOn, OneMessage, Ends;
  }

  lemma FillsKeepMessages(s: State, waiting: Option<nat>)
    requires s.ring.Shaped() && Sound(s) && MessageInv(s) && NextOfProducer(s, waiting).Some?
    requires s.producer.Open? || s.producer.Copy? || s.producer.AdvanceLast?
    ensures MessageInv(NextOfProducer(s, waiting).value)
  {
    hide Sound, AllEnd, Ring.Opened, Ring.Filled, Ring.Advanced;
    RingHistory(s.ring, if s.producer.Copy? then Chunk(s.producer.call.chunk, s.producer.call.more) else Chunk([], false),
                false, false);
  }

  lemma PushKeepsMessages(s: State, waiting: Option<nat>)
    requires s.ring.Shaped() && Sound(s) && MessageInv(s) && NextOfProducer(s, waiting).Some?
    requires s.producer.PushLast?
    ensures MessageInv(NextOfProducer(s, waiting).value)
  {
    OpenFacts(s);
    hide Sound, AllEnd, Ring.Pushed, Joined, GoesOn, OneMessage, Ends;
    RingHistory(s.ring, Chunk([], false), s.producer.call.more, s.producer.call.started);
    OneMoreEnds(s.ring.groups, Group(s.ring.open, true));
  }

  lemma DropKeepsMessages(s: State, waiting: Option<nat>)
    requires s.ring.Shaped() && Sound(s) && MessageInv(s) && NextOfProducer(s, waiting).Some?
    requires s.producer.CloseBuffer?
    ensures MessageInv(NextOfProducer(s, waiting).value)
  {
    hide Sound, AllEnd, Ring.Dropped, Joined, GoesOn, OneMessage, Ends;
    RingHistory(s.ring, Chunk([], false), false, false);
    OneMoreEnds(s.ring.groups, Group(s.ring.open, false));
    assert s.ring.groups + [] == s.ring.groups;
  }

  lemma StepKeepsMessages(s: State, a: Action)
    requires s.ring.Shaped() && Sound(s) && MessageInv(s) && Fitting(s, a) && Next(s, a).Some?
    ensures MessageInv(Next(s, a).value)
  {
    hide Sound, MessageInv, NextOfSender, NextOfProducer;
    match a
    case SenderStep(failed, errno) => SenderKeepsMessages(s, failed, errno);
    case ProducerStep(waiting) =>
      match s.producer {
        case Open(_) => FillsKeepMessages(s, waiting);
        case Copy(_) => FillsKeepMessages(s, waiting);
        case AdvanceLast => FillsKeepMessages(s, waiting);
        case PushLast(_) => PushKeepsMessages(s, waiting);
        case CloseBuffer => DropKeepsMessages(s, waiting);
        case _ => LooksKeepMessages(s, waiting);
      }
    case _ => CallKeepsMessages(s, a);
  }

  lemma CallKeepsMessages(s: State, a: Action)
    requires s.ring.Shaped() && MessageInv(s) && Fitting(s, a) && Next(s, a).Some? && !a.SenderStep? && !a.ProducerStep?
    ensures MessageInv(Next(s, a).value)
  {}

  /** Room for a chunk is refused only where it would start a buffer; with messages that
      fit, that is where a message starts. */
  lemma RefusedAtStart(s: State, waiting: Option<nat>)
    requires s.ring.Shaped() && Sound(s) && (s.producer.Admit? || s.producer.Look?)
    requires NextOfProducer(s, waiting).Some? && NextOfProducer(s, waiting).value.producer.Idle?
    ensures s.ring.open == []
  {
    OpenFacts(s);
    hide Sound;
  }

  // ----- Whole runs -----

  /** At every step of the run, the caller's chunks fit. */
  ghost predicate FittingRun(s: State, actions: seq<Action>)
    requires s.ring.Shaped()
  {
    actions == []
    || (var before := Run(s, actions[..|actions| - 1]);
        FittingRun(s, actions[..|actions| - 1]) && (before.Some? ==> Fitting(before.value, actions[|actions| - 1])))
  }

  lemma {:induction false} RunKeepsMessages(s: State, actions: seq<Action>)
    requires s.ring.Shaped() && Sound(s) && MessageInv(s) && FittingRun(s, actions) && Run(s, actions).Some?
    ensures Sound(Run(s, actions).value) && MessageInv(Run(s, actions).value)
  {
    hide Sound, Next, MessageInv, Fitting;
    if actions != [] {
      var before := actions[..|actions| - 1];
      RunKeepsMessages(s, before);
      RunKeepsSound(s, before);
      StepKeepsMessages(Run(s, before).value, actions[|actions| - 1]);
      StepKeepsSound(Run(s, before).value, actions[|actions| - 1]);
    }
  }

  /** Over every run of a caller whose chunks fit: each packet of the ring is one whole
      message, its chunks joined, and says that nothing follows. */
  lemma PacketsAreMessages(mtu: nat, conf: Conf, client: Option<nat>, actions: seq<Action>)
    requires FittingRun(Start(mtu, conf, client), actions) && Run(Start(mtu, conf, client), actions).Some?
    ensures var r := Run(Start(mtu, conf, client), actions).value.ring;
      && OnTheWire(r.pushed) == SentOf(r.groups)
      && (forall g <- r.groups :: OneMessage(g.chunks) && (g.sent ==> Ends(g.chunks)))
      && (forall p <- r.pushed :: !p.more)
  {
    hide Sound, Next, OneMessage, Ends, FittingRun, Run;
    var s := Start(mtu, conf, client);
    StartIsSound(mtu, conf, client);
    RunKeepsMessages(s, actions);
    var t := Run(s, actions).value;
    SoundMeansSafe(t);
    NothingFollows(t.ring);
  }

  lemma {:induction false} SentEnd(groups: seq<Group>)
    requires AllEnd(groups)
    ensures forall i | 0 <= i < |SentOf(groups)| :: !SentOf(groups)[i].1
  {
    hide Joined;
    if groups != [] {
      SentEnd(groups[..|groups| - 1]);
      assert groups[|groups| - 1] in groups;
    }
  }

  lemma NothingFollows(r: Ring)
    requires OnTheWire(r.pushed) == SentOf(r.groups) && AllEnd(r.groups)
    ensures forall p <- r.pushed :: !p.more
  {
    hide SentOf, AllEnd;
    SentEnd(r.groups);
    forall i | 0 <= i < |r.pushed| ensures !r.pushed[i].more {
      assert OnTheWire(r.pushed)[i].1 == r.pushed[i].more;
    }
  }
}
