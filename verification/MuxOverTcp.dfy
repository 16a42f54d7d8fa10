/** The multiplexer over the TCP sender: frames are pushed piece by piece into the
    ring, and given up at the first piece that is not taken.  When fillings end on a
    flush of the ring's unit, every packet of the ring is one datagram. */
module MuxOverTcp {
  import opened Bytes
  import opened TcpRing
  import opened TcpMessages
  import D = Datagrams
  import Multiplexer
  import SmoothClock
  import Streams
  import TsPacket

  // ----- The pieces of a frame -----

  function Empty(): D.Wire {
    D.Wire([], [])
  }

  /** A frame whose pieces end on a flush, and whose datagrams have the right size. */
  ghost predicate WholeFrame(frame: seq<D.Piece>, full: int) {
    var end := Empty().PutAll(frame);
    end.pending == [] && D.AllOfSize(end.datagrams, TsPacket.LENGTH * D.Group(full))
  }

  lemma FramesAreWhole(pid: Byte, cc: Multiplexer.Counter, last: SmoothClock.Tick, tables: Multiplexer.Tables, full: int,
                       f: Multiplexer.Frame)
    requires tables.Valid() && f.Valid() && full >= TsPacket.LENGTH && Streams.FillsUp(full)
    ensures WholeFrame(Multiplexer.FramePieces(pid, cc, last, tables, full, f), full)
  {
    hide Multiplexer.FramePieces, Streams.FramePackets, D.Group, Streams.FillsUp, D.Wire.PutAll;
    Streams.FrameIsGrouped(Empty(), pid, cc, last, tables, full, f);
  }

  lemma GroupFits(full: int)
    requires full >= TsPacket.LENGTH
    ensures 0 < TsPacket.LENGTH * D.Group(full) <= full
  {
    assert full == TsPacket.LENGTH * (full / TsPacket.LENGTH) + full % TsPacket.LENGTH;
  }

  /** What is open goes on into the next datagram, or into what is open at the end. */
  lemma {:induction false} OpenGoesOn(w: D.Wire, pieces: seq<D.Piece>)
    requires pieces != []
    ensures var end := w.PutAll(pieces); var size := |w.pending| + |pieces[0].bytes|;
      && w.datagrams <= end.datagrams
      && if |end.datagrams| > |w.datagrams| then size <= |end.datagrams[|w.datagrams|]| else size <= |end.pending|
    decreases |pieces|
  {
    var w1 := w.Put(pieces[0]);
    Streams.DatagramsOnlyGrow(w1, pieces[1..]);
    if !pieces[0].more {
      assert w1.datagrams[|w.datagrams|] == w.pending + pieces[0].bytes;
    } else if |pieces| > 1 {
      OpenGoesOn(w1, pieces[1..]);
    } else {
      assert w1.PutAll([]) == w1;
    }
  }

  /** The next piece of a frame fits behind what is open. */
  lemma NextPieceFits(frame: seq<D.Piece>, k: nat, full: int)
    requires WholeFrame(frame, full) && k < |frame| && full >= TsPacket.LENGTH
    ensures |Empty().PutAll(frame[..k]).pending| + |frame[k].bytes| <= full
  {
    hide D.Wire.PutAll, D.Group;
    GroupFits(full);
    D.PutAllConcat(Empty(), frame[..k], frame[k..]);
    assert frame[..k] + frame[k..] == frame;
    OpenGoesOn(Empty().PutAll(frame[..k]), frame[k..]);
  }

  /** One piece more. */
  lemma OnePieceMore(frame: seq<D.Piece>, k: nat)
    requires k < |frame|
    ensures Empty().PutAll(frame[..k + 1]) == Empty().PutAll(frame[..k]).Put(frame[k])
  {
    assert frame[..k + 1] == frame[..k] + [frame[k]];
    D.PutAllConcat(Empty(), frame[..k], [frame[k]]);
    var w := Empty().PutAll(frame[..k]);
    assert w.PutAll([frame[k]]) == w.Put(frame[k]).PutAll([]);
  }

  /** A datagram that a piece completes has the right size. */
  lemma CompletedSize(frame: seq<D.Piece>, k: nat, full: int)
    requires WholeFrame(frame, full) && k < |frame| && !frame[k].more
    ensures |Empty().PutAll(frame[..k]).pending + frame[k].bytes| == TsPacket.LENGTH * D.Group(full)
  {
    hide D.Wire.PutAll, D.Group;
    OnePieceMore(frame, k);
    D.PutAllConcat(Empty(), frame[..k + 1], frame[k + 1..]);
    assert frame[..k + 1] + frame[k + 1..] == frame;
    var w := Empty().PutAll(frame[..k + 1]);
    Streams.DatagramsOnlyGrow(w, frame[k + 1..]);
    var n := |w.datagrams| - 1;
    assert w.datagrams[n] == Empty().PutAll(frame[..k]).pending + frame[k].bytes;
    assert Empty().PutAll(frame).datagrams[n] == w.datagrams[n];
  }

  // ----- The caller and the ring -----

  /** The pieces of the frame being pushed, how many of them were taken, and all that
      was completed since the start: datagrams, and greetings. */
  datatype Caller = Caller(frame: seq<D.Piece>, next: nat, sent: seq<seq<Byte>>)
  {
    /** The datagram that the next piece completes, if it does. */
    function Completed(): seq<seq<Byte>>
      requires next < |frame|
    {
      OnePieceMore(frame, next);
      Empty().PutAll(frame[..next + 1]).datagrams[|Empty().PutAll(frame[..next]).datagrams|..]
    }

    function Taken(): Caller
      requires next < |frame|
    {
      this.(next := next + 1, sent := sent + Completed())
    }

    function GivenUp(): Caller {
      this.(frame := [], next := 0)
    }

    predicate Done() {
      next == |frame|
    }

    /** What is open of the datagram after the pieces taken. */
    function Open(): seq<Byte>
      requires next <= |frame|
    {
      Empty().PutAll(frame[..next]).pending
    }
  }

  datatype Joint = Joint(ring: State, caller: Caller)

  function CallOf(p: D.Piece): Call {
    Call(p.bytes, p.more, p.started, false)
  }

  /** The caller begins a frame, offers its next piece, or anything else happens:
      connections are opened and closed between frames. */
  datatype Move =
    | Begin(cc: Multiplexer.Counter, last: SmoothClock.Tick, tables: Multiplexer.Tables, f: Multiplexer.Frame)
    | Offer
    | Other(a: Action)

  /** The call of the caller has its answer, and was not taken. */
  predicate Refuses(s: State, t: State) {
    && (s.producer.Entry? || s.producer.ErrorCheck? || s.producer.Admit? || s.producer.Look?)
    && !s.producer.call.greeting && (t.producer.Idle? || t.producer.Connect? || t.producer.Close?)
  }

  predicate Takes(s: State, t: State) {
    s.producer.Copy? && !s.producer.call.greeting && t.producer != s.producer
  }

  predicate Greets(s: State, t: State) {
    s.producer.Copy? && s.producer.call.greeting && t.producer != s.producer
  }

  /** A frame is given up when a piece is refused. */
  function Heard(c: Caller, s: State, t: State): Caller {
    if Takes(s, t) && c.next < |c.frame| then c.Taken()
    else if Greets(s, t) then c.(sent := c.sent + [s.producer.call.chunk])
    else if Refuses(s, t) then c.GivenUp()
    else c
  }

  function Moved(pid: Byte, full: int, j: Joint, m: Move): (k: Option<Joint>)
    requires j.ring.ring.Shaped()
    ensures k.Some? ==> k.value.ring.ring.Shaped()
  {
    match m
    case Begin(cc, last, tables, f) =>
      if !j.ring.producer.Idle? || !j.caller.Done() || !tables.Valid() || !f.Valid() then None
      else Some(j.(caller := j.caller.(frame := Multiplexer.FramePieces(pid, cc, last, tables, full, f), next := 0)))
    case Offer =>
      if j.caller.next >= |j.caller.frame| then None
      else
        (match Next(j.ring, CallSend(CallOf(j.caller.frame[j.caller.next])))
         case None => None
         case Some(t) => Some(j.(ring := t)))
    case Other(a) =>
      if a.CallSend? || ((a.CallClose? || a.CallConnect?) && !j.caller.Done()) then None
      else
        (match Next(j.ring, a)
         case None => None
         case Some(t) => Some(Joint(t, Heard(j.caller, j.ring, t))))
  }

  // ----- What every move keeps -----

  /** Packets are datagrams of the right size, or greetings. */
  ghost predicate SizeInv(s: State, full: int) {
    forall p <- s.ring.pushed ::
      !p.more && (|p.bytes| == TsPacket.LENGTH * D.Group(full) || s.conf.greeting == Some(p.bytes))
  }

  /** The call in progress is the next piece, or the greeting. */
  ghost predicate CallInv(s: State, c: Caller)
    requires c.next <= |c.frame|
  {
    Carries(s.producer) ==>
      if s.producer.call.greeting then
        !s.producer.Entry? && s.conf.greeting == Some(s.producer.call.chunk) && !s.producer.call.more
      else if s.producer.PushLast? then
        true
      else
        c.next < |c.frame| && s.producer.call == CallOf(c.frame[c.next])
  }

  /** The producer is at a point where nothing of the caller's is open. */
  predicate Apart(p: Producer) {
    p.Connect? || p.Close? || p.CloseBuffer? || (Carries(p) && p.call.greeting)
  }

  /** The buffer being filled holds what is open of the caller's datagram, and at the
      push all of it.  After an error it may hold more, until the close. */
  ghost predicate OpenInv(s: State, c: Caller, full: int)
    requires c.next <= |c.frame|
  {
    && (Apart(s.producer) ==> c.Open() == [])
    && if s.producer.PushLast? then
         c.Open() == []
         && if s.producer.call.greeting then Joined(s.ring.open) == s.producer.call.chunk
            else |Joined(s.ring.open)| == TsPacket.LENGTH * D.Group(full)
       else
         !s.producer.CloseBuffer? && (s.error == 0 || Serves(s.producer)) ==> Joined(s.ring.open) == c.Open()
  }

  /** The packets are what was completed, in order, but for what is about to be pushed. */
  ghost predicate SentInv(s: State, c: Caller) {
    BytesOf(s.ring.pushed) + (if s.producer.PushLast? then [Joined(s.ring.open)] else []) == c.sent
  }

  function BytesOf(packets: seq<Packet>): seq<seq<Byte>> {
    seq(|packets|, i requires 0 <= i < |packets| => packets[i].bytes)
  }

  ghost predicate CallerInv(s: State, c: Caller, full: int) {
    && c.next <= |c.frame| && WholeFrame(c.frame, full)
    && CallInv(s, c) && OpenInv(s, c, full) && SizeInv(s, full)
  }

  ghost predicate JointInv(j: Joint, full: int) {
    && j.ring.ring.Shaped() && Sound(j.ring) && MessageInv(j.ring) && j.ring.ring.mtu == full
    && CallerInv(j.ring, j.caller, full) && SentInv(j.ring, j.caller)
  }

  lemma NothingOpen(full: int)
    ensures WholeFrame([], full) && Joined([]) == []
    ensures forall c: Caller :: c.frame == [] && c.next == 0 ==> c.Open() == []
  {}

  lemma DoneIsClosed(c: Caller, full: int)
    requires WholeFrame(c.frame, full) && c.Done()
    ensures c.Open() == []
  {
    assert c.frame[..c.next] == c.frame;
  }

  lemma SenderKeepsCaller(s: State, c: Caller, full: int, failed: bool, errno: nat)
    requires s.ring.Shaped() && Sound(s) && CallerInv(s, c, full) && NextOfSender(s, failed, errno).Some?
    ensures var t := NextOfSender(s, failed, errno).value; CallerInv(t, c, full) && t.ring.mtu == s.ring.mtu
  {
    hide Inv, ProducerInv, GapInv, GreetingInv, StoredInv, Joined, Caller.Open, WholeFrame, Ring.Taken;
    RingHistory(s.ring, Chunk([], false), false, false);
  }

  lemma SizeStays(s: State, t: State, full: int)
    ensures s.ring.pushed == t.ring.pushed && s.conf == t.conf ==> SizeInv(t, full) == SizeInv(s, full)
  {}

  /** A frame that was given up. */
  lemma FrameGivenUp(t: State, c: Caller, full: int)
    requires SizeInv(t, full) && (t.producer.Idle? || t.producer.Connect? || t.producer.Close?)
    requires t.error == 0 ==> t.ring.open == []
    ensures CallerInv(t, c.GivenUp(), full)
  {
    hide SizeInv, Joined, Caller.Open, WholeFrame;
    NothingOpen(full);
  }

  lemma EntryIsCallers(s: State, c: Caller, full: int)
    requires CallerInv(s, c, full) && s.producer.Entry?
    ensures !s.producer.call.greeting
  {
    hide OpenInv, SizeInv, WholeFrame;
  }

  /** Without a client, or behind the last buffer, nothing is open. */
  lemma NothingBehind(s: State)
    requires s.ring.Shaped() && Sound(s)
    ensures s.ring.Buf().state != Queued || (s.client.None? && !s.producer.CloseBuffer?) ==> s.ring.open == []
  {
    OpenFacts(s);
    hide Sound;
  }

  lemma SizeOf(s: State, c: Caller, full: int)
    requires CallerInv(s, c, full)
    ensures c.next <= |c.frame| && SizeInv(s, full)
  {
    hide SizeInv, WholeFrame;
  }

  /** A greeting that was not taken. */
  lemma GreetingGivenUp(s: State, t: State, c: Caller, full: int)
    requires CallerInv(s, c, full) && s.ring == t.ring && s.conf == t.conf && s.error == t.error
    requires Carries(s.producer) && s.producer.call.greeting && t.producer.Idle?
    requires t.error == 0 ==> t.ring.open == []
    ensures CallerInv(t, c, full)
  {
    hide Caller.Open, WholeFrame;
  }

  /** A call that goes on to its next point. */
  lemma GoesOnCalling(s: State, t: State, c: Caller, full: int)
    requires CallerInv(s, c, full) && s.ring == t.ring && s.conf == t.conf && s.error == t.error
    requires Carries(s.producer) && Carries(t.producer) && t.producer.call == s.producer.call
    requires !s.producer.PushLast? && !t.producer.PushLast? && !t.producer.Entry?
    requires Serves(t.producer) ==> Serves(s.producer) || s.error == 0
    ensures CallerInv(t, c, full)
  {
    hide Joined, Caller.Open, WholeFrame;
  }

  // The steps of the producer.

  lemma EntryKeepsCaller(s: State, c: Caller, full: int, waiting: Option<nat>)
    requires s.ring.Shaped() && Sound(s) && CallerInv(s, c, full) && NextOfProducer(s, waiting).Some?
    requires s.producer.Entry?
    ensures var t := NextOfProducer(s, waiting).value; CallerInv(t, Heard(c, s, t), full) && t.ring.mtu == s.ring.mtu
  {
    NothingBehind(s);
    hide Sound, CallerInv, Joined, Caller.Open, WholeFrame, SizeInv;
    var t := NextOfProducer(s, waiting).value;
    SizeOf(s, c, full);
    SizeStays(s, t, full);
    EntryIsCallers(s, c, full);
    if s.client.Some? {
      GoesOnCalling(s, t, c, full);
    } else {
      FrameGivenUp(t, c, full);
    }
  }

  lemma ConnectKeepsCaller(s: State, c: Caller, full: int, waiting: Option<nat>)
    requires s.ring.Shaped() && Sound(s) && CallerInv(s, c, full) && NextOfProducer(s, waiting).Some?
    requires s.producer.Connect?
    ensures var t := NextOfProducer(s, waiting).value; CallerInv(t, Heard(c, s, t), full) && t.ring.mtu == s.ring.mtu
  {
    OpenFacts(s);
    NothingOpen(full);
    SizeStays(s, NextOfProducer(s, waiting).value, full);
    hide Sound, Joined, Caller.Open, WholeFrame, SizeInv;
  }

  lemma CheckKeepsCaller(s: State, c: Caller, full: int, waiting: Option<nat>)
    requires s.ring.Shaped() && Sound(s) && CallerInv(s, c, full) && NextOfProducer(s, waiting).Some?
    requires s.producer.ErrorCheck?
    ensures var t := NextOfProducer(s, waiting).value; CallerInv(t, Heard(c, s, t), full) && t.ring.mtu == s.ring.mtu
  {
    NothingBehind(s);
    hide Sound, CallerInv, Joined, Caller.Open, WholeFrame, SizeInv;
    var t := NextOfProducer(s, waiting).value;
    SizeOf(s, c, full);
    SizeStays(s, t, full);
    if Refuses(s, t) {
      FrameGivenUp(t, c, full);
    } else if Carries(t.producer) {
      GoesOnCalling(s, t, c, full);
    } else {
      GreetingGivenUp(s, t, c, full);
    }
  }

  lemma CloseKeepsCaller(s: State, c: Caller, full: int, waiting: Option<nat>)
    requires s.ring.Shaped() && Sound(s) && CallerInv(s, c, full) && NextOfProducer(s, waiting).Some?
    requires s.producer.Close?
    ensures var t := NextOfProducer(s, waiting).value; CallerInv(t, Heard(c, s, t), full) && t.ring.mtu == s.ring.mtu
  {
    OpenFacts(s);
    NothingOpen(full);
    SizeStays(s, NextOfProducer(s, waiting).value, full);
    hide Sound, Joined, Caller.Open, WholeFrame, SizeInv;
  }

  lemma DropKeepsCaller(s: State, c: Caller, full: int, waiting: Option<nat>)
    requires s.ring.Shaped() && Sound(s) && CallerInv(s, c, full) && NextOfProducer(s, waiting).Some?
    requires s.producer.CloseBuffer?
    ensures var t := NextOfProducer(s, waiting).value; CallerInv(t, Heard(c, s, t), full) && t.ring.mtu == s.ring.mtu
  {
    OpenFacts(s);
    NothingOpen(full);
    RingHistory(s.ring, Chunk([], false), false, false);
    SizeStays(s, NextOfProducer(s, waiting).value, full);
    hide Sound, Joined, Caller.Open, WholeFrame, SizeInv, Ring.Dropped;
  }

  lemma RoomKeepsCaller(s: State, c: Caller, full: int, waiting: Option<nat>)
    requires s.ring.Shaped() && Sound(s) && MessageInv(s) && CallerInv(s, c, full) && NextOfProducer(s, waiting).Some?
    requires s.producer.Room?
    ensures var t := NextOfProducer(s, waiting).value; CallerInv(t, Heard(c, s, t), full) && t.ring.mtu == s.ring.mtu
  {
    NothingBehind(s);
    hide Sound, CallerInv, Joined, Caller.Open, WholeFrame, SizeInv;
    var t := NextOfProducer(s, waiting).value;
    SizeOf(s, c, full);
    SizeStays(s, t, full);
    if Refuses(s, t) {
      FrameGivenUp(t, c, full);
    } else if Carries(t.producer) {
      GoesOnCalling(s, t, c, full);
    } else {
      GreetingGivenUp(s, t, c, full);
    }
  }

  lemma AdmitKeepsCaller(s: State, c: Caller, full: int, waiting: Option<nat>)
    requires s.ring.Shaped() && Sound(s) && CallerInv(s, c, full) && NextOfProducer(s, waiting).Some?
    requires s.producer.Admit?
    ensures var t := NextOfProducer(s, waiting).value; CallerInv(t, Heard(c, s, t), full) && t.ring.mtu == s.ring.mtu
  {
    NothingBehind(s);
    hide Sound, CallerInv, Joined, Caller.Open, WholeFrame, SizeInv;
    var t := NextOfProducer(s, waiting).value;
    SizeOf(s, c, full);
    SizeStays(s, t, full);
    if Refuses(s, t) {
      FrameGivenUp(t, c, full);
    } else if Carries(t.producer) {
      GoesOnCalling(s, t, c, full);
    } else {
      GreetingGivenUp(s, t, c, full);
    }
  }

  lemma LookKeepsCaller(s: State, c: Caller, full: int, waiting: Option<nat>)
    requires s.ring.Shaped() && Sound(s) && CallerInv(s, c, full) && NextOfProducer(s, waiting).Some?
    requires s.producer.Look?
    ensures var t := NextOfProducer(s, waiting).value; CallerInv(t, Heard(c, s, t), full) && t.ring.mtu == s.ring.mtu
  {
    NothingBehind(s);
    hide Sound, CallerInv, Joined, Caller.Open, WholeFrame, SizeInv;
    var t := NextOfProducer(s, waiting).value;
    SizeOf(s, c, full);
    SizeStays(s, t, full);
    if Refuses(s, t) {
      FrameGivenUp(t, c, full);
    } else if Carries(t.producer) {
      GoesOnCalling(s, t, c, full);
    } else {
      GreetingGivenUp(s, t, c, full);
    }
  }

  lemma OpenKeepsCaller(s: State, c: Caller, full: int, waiting: Option<nat>)
    requires s.ring.Shaped() && Sound(s) && CallerInv(s, c, full) && NextOfProducer(s, waiting).Some?
    requires s.producer.Open?
    ensures var t := NextOfProducer(s, waiting).value; CallerInv(t, Heard(c, s, t), full) && t.ring.mtu == s.ring.mtu
  {
    OpenFacts(s);
    NothingOpen(full);
    RingHistory(s.ring, Chunk([], false), false, false);
    SizeStays(s, NextOfProducer(s, waiting).value, full);
    hide Sound, Joined, Caller.Open, WholeFrame, SizeInv, Ring.Opened;
  }

  lemma AdvanceKeepsCaller(s: State, c: Caller, full: int, waiting: Option<nat>)
    requires s.ring.Shaped() && Sound(s) && CallerInv(s, c, full) && NextOfProducer(s, waiting).Some?
    requires s.producer.AdvanceLast?
    ensures var t := NextOfProducer(s, waiting).value; CallerInv(t, Heard(c, s, t), full) && t.ring.mtu == s.ring.mtu
  {
    OpenFacts(s);
    NothingOpen(full);
    RingHistory(s.ring, Chunk([], false), false, false);
    SizeStays(s, NextOfProducer(s, waiting).value, full);
    hide Sound, Joined, Caller.Open, WholeFrame, SizeInv, Ring.Advanced;
  }

  lemma TakenPiece(c: Caller, chunks: seq<Chunk>, call: Call, full: int)
    requires c.next < |c.frame| && WholeFrame(c.frame, full) && call == CallOf(c.frame[c.next])
    requires Joined(chunks) == c.Open()
    ensures var joined := Joined(chunks + [Chunk(call.chunk, call.more)]);
            var d := c.Taken();
            if call.more then joined == d.Open() else d.Open() == [] && |joined| == TsPacket.LENGTH * D.Group(full)
  {
    hide WholeFrame, Joined, D.Wire.PutAll, Caller.Completed;
    JoinedMore(chunks, Chunk(call.chunk, call.more));
    OnePieceMore(c.frame, c.next);
    if !call.more {
      CompletedSize(c.frame, c.next, full);
    }
  }

  /** Taking the chunk. */
  lemma CopyKeepsCaller(s: State, c: Caller, full: int, waiting: Option<nat>)
    requires s.ring.Shaped() && CallerInv(s, c, full) && s.producer.Copy? && !s.producer.call.greeting
    ensures var t := NextOfProducer(s, waiting).value; CallerInv(t, Heard(c, s, t), full) && t.ring.mtu == s.ring.mtu
  {
    var call := s.producer.call;
    RingHistory(s.ring, Chunk(call.chunk, call.more), false, false);
    TakenPiece(c, s.ring.open, call, full);
    SizeStays(s, NextOfProducer(s, waiting).value, full);
    hide Joined, Caller.Open, Caller.Completed, WholeFrame, Ring.Filled, SizeInv;
  }

  lemma GreetingKeepsCaller(s: State, c: Caller, full: int, waiting: Option<nat>)
    requires s.ring.Shaped() && CallerInv(s, c, full) && s.producer.Copy? && s.producer.call.greeting
    ensures var t := NextOfProducer(s, waiting).value; CallerInv(t, Heard(c, s, t), full) && t.ring.mtu == s.ring.mtu
  {
    var call := s.producer.call;
    RingHistory(s.ring, Chunk(call.chunk, call.more), false, false);
    JoinedMore(s.ring.open, Chunk(call.chunk, call.more));
    SizeStays(s, NextOfProducer(s, waiting).value, full);
    hide Joined, Caller.Open, Caller.Completed, WholeFrame, Ring.Filled, SizeInv;
  }

  /** Pushing the buffer. */
  lemma PushKeepsCaller(s: State, c: Caller, full: int, waiting: Option<nat>)
    requires s.ring.Shaped() && Sound(s) && CallerInv(s, c, full) && s.producer.PushLast?
    requires NextOfProducer(s, waiting).Some?
    ensures var t := NextOfProducer(s, waiting).value; CallerInv(t, Heard(c, s, t), full) && t.ring.mtu == s.ring.mtu
  {
    var call := s.producer.call;
    OpenFacts(s);
    NothingOpen(full);
    RingHistory(s.ring, Chunk([], false), call.more, call.started);
    hide Sound, Joined, Caller.Open, WholeFrame, Ring.Pushed;
  }

  lemma ProducerKeepsCaller(s: State, c: Caller, full: int, waiting: Option<nat>)
    requires s.ring.Shaped() && Sound(s) && MessageInv(s) && CallerInv(s, c, full) && NextOfProducer(s, waiting).Some?
    ensures var t := NextOfProducer(s, waiting).value; CallerInv(t, Heard(c, s, t), full) && t.ring.mtu == s.ring.mtu
  {
    hide Sound, CallerInv, Heard;
    match s.producer
    case Entry(_) => EntryKeepsCaller(s, c, full, waiting);
    case Connect(_) => ConnectKeepsCaller(s, c, full, waiting);
    case ErrorCheck(_) => CheckKeepsCaller(s, c, full, waiting);
    case Room(_) => RoomKeepsCaller(s, c, full, waiting);
    case Admit(_) => AdmitKeepsCaller(s, c, full, waiting);
    case Look(_) => LookKeepsCaller(s, c, full, waiting);
    case Open(_) => OpenKeepsCaller(s, c, full, waiting);
    case Copy(call) =>
      if call.greeting { GreetingKeepsCaller(s, c, full, waiting); } else { CopyKeepsCaller(s, c, full, waiting); }
    case PushLast(_) => PushKeepsCaller(s, c, full, waiting);
    case Close => CloseKeepsCaller(s, c, full, waiting);
    case CloseBuffer => DropKeepsCaller(s, c, full, waiting);
    case _ => AdvanceKeepsCaller(s, c, full, waiting);
  }

  // ----- What is sent is what was completed -----

  lemma SentStays(s: State, t: State, c: Caller)
    requires SentInv(s, c) && t.ring.pushed == s.ring.pushed && t.ring.open == s.ring.open
    requires t.producer.PushLast? == s.producer.PushLast?
    ensures SentInv(t, c) && SentInv(t, c.GivenUp())
  {}

  lemma TakenIsSent(s: State, c: Caller, full: int)
    requires s.ring.Shaped() && CallerInv(s, c, full) && SentInv(s, c) && s.producer.Copy?
    ensures var t := NextOfProducer(s, None).value; SentInv(t, Heard(c, s, t))
  {
    hide WholeFrame, SizeInv, Joined, D.Wire.PutAll;
    var call := s.producer.call;
    RingHistory(s.ring, Chunk(call.chunk, call.more), false, false);
    JoinedMore(s.ring.open, Chunk(call.chunk, call.more));
    assert BytesOf(s.ring.pushed) + [] == BytesOf(s.ring.pushed);
    if call.greeting {
      assert [] + call.chunk == call.chunk;
    } else {
      OnePieceMore(c.frame, c.next);
      var w := Empty().PutAll(c.frame[..c.next]);
      assert c.Completed() == if call.more then [] else [w.pending + call.chunk];
      assert c.sent + [] == c.sent;
    }
  }

  lemma PushedIsSent(s: State, c: Caller, waiting: Option<nat>)
    requires s.ring.Shaped() && Sound(s) && SentInv(s, c) && s.producer.PushLast? && NextOfProducer(s, waiting).Some?
    ensures var t := NextOfProducer(s, waiting).value; SentInv(t, Heard(c, s, t))
  {
    OpenFacts(s);
    hide Sound, Joined;
    var call := s.producer.call;
    RingHistory(s.ring, Chunk([], false), call.more, call.started);
    var t := NextOfProducer(s, waiting).value;
    assert BytesOf(t.ring.pushed) == BytesOf(s.ring.pushed) + [s.ring.Buf().bytes];
    assert BytesOf(t.ring.pushed) + [] == BytesOf(t.ring.pushed);
  }

  lemma OtherIsNotSent(s: State, c: Caller, waiting: Option<nat>)
    requires s.ring.Shaped() && MessageInv(s) && SentInv(s, c) && NextOfProducer(s, waiting).Some?
    requires !s.producer.Copy? && !s.producer.PushLast?
    ensures var t := NextOfProducer(s, waiting).value; SentInv(t, Heard(c, s, t))
  {
    hide Joined, BytesOf, Ring.Opened, Ring.Advanced, Ring.Dropped, Ring.Pushed;
    RingHistory(s.ring, Chunk([], false), false, false);
  }

  lemma ProducerKeepsSent(s: State, c: Caller, full: int, waiting: Option<nat>)
    requires s.ring.Shaped() && Sound(s) && MessageInv(s) && CallerInv(s, c, full) && SentInv(s, c)
    requires NextOfProducer(s, waiting).Some?
    ensures var t := NextOfProducer(s, waiting).value; SentInv(t, Heard(c, s, t))
  {
    hide Sound, MessageInv, CallerInv, SentInv, Heard;
    if s.producer.Copy? {
      TakenIsSent(s, c, full);
      SameCopy(s, waiting);
    } else if s.producer.PushLast? {
      PushedIsSent(s, c, waiting);
    } else {
      OtherIsNotSent(s, c, waiting);
    }
  }

  lemma SameCopy(s: State, waiting: Option<nat>)
    requires s.ring.Shaped() && s.producer.Copy?
    ensures NextOfProducer(s, waiting) == NextOfProducer(s, None)
  {}

  lemma OtherKeepsSent(s: State, c: Caller, full: int, a: Action)
    requires s.ring.Shaped() && Sound(s) && MessageInv(s) && CallerInv(s, c, full) && SentInv(s, c) && Next(s, a).Some?
    requires !a.CallSend?
    ensures var t := Next(s, a).value; SentInv(t, Heard(c, s, t))
  {
    hide Sound, MessageInv, CallerInv, SentInv, NextOfProducer, NextOfSender;
    var t := Next(s, a).value;
    if a.ProducerStep? {
      ProducerKeepsSent(s, c, full, a.waiting);
    } else {
      if a.SenderStep? {
        SenderLeavesOpen(s, a.failed, a.errno);
      }
      SentStays(s, t, c);
    }
  }

  lemma SenderLeavesOpen(s: State, failed: bool, errno: nat)
    requires s.ring.Shaped() && NextOfSender(s, failed, errno).Some?
    ensures var t := NextOfSender(s, failed, errno).value;
      t.ring.pushed == s.ring.pushed && t.ring.open == s.ring.open && t.producer == s.producer
  {
    hide Ring.Taken;
    RingHistory(s.ring, Chunk([], false), false, false);
  }

  /** Between frames. */
  lemma CallKeepsCaller(s: State, c: Caller, full: int, a: Action)
    requires s.ring.Shaped() && CallerInv(s, c, full) && Next(s, a).Some?
    requires a.SpuriousWakeup? || ((a.CallClose? || a.CallConnect?) && c.Done())
    ensures var t := Next(s, a).value; CallerInv(t, Heard(c, s, t), full) && t.ring.mtu == s.ring.mtu
  {
    if c.Done() {
      DoneIsClosed(c, full);
    }
    hide Joined, Caller.Open, WholeFrame;
  }

  lemma OfferKeepsCaller(s: State, c: Caller, full: int)
    requires s.ring.Shaped() && Sound(s) && CallerInv(s, c, full) && c.next < |c.frame| && s.producer.Idle?
    requires s.ring.mtu == full >= TsPacket.LENGTH
    ensures var a := CallSend(CallOf(c.frame[c.next]));
      && Fitting(s, a) && Next(s, a).Some?
      && CallerInv(Next(s, a).value, c, full) && Next(s, a).value.ring.mtu == s.ring.mtu
  {
    OpenFacts(s);
    NextPieceFits(c.frame, c.next, full);
    hide Sound, Joined, WholeFrame;
  }

  lemma MoveKeepsJoint(pid: Byte, full: int, j: Joint, m: Move)
    requires j.ring.ring.Shaped() && JointInv(j, full) && full >= TsPacket.LENGTH && Streams.FillsUp(full) && Moved(pid, full, j, m).Some?
    ensures JointInv(Moved(pid, full, j, m).value, full) && Moved(pid, full, j, m).value.ring.conf == j.ring.conf
  {
    hide Sound, MessageInv, CallerInv, SentInv, Heard, Next, NextOfProducer, NextOfSender, Streams.FillsUp;
    match m
    case Begin(cc, last, tables, f) => BeginKeepsCaller(pid, full, j, cc, last, tables, f);
    case Offer =>
      IdleOffers(j.ring, j.caller, CallOf(j.caller.frame[j.caller.next]));
      OfferKeepsCaller(j.ring, j.caller, full);
      StepKeepsMessages(j.ring, CallSend(CallOf(j.caller.frame[j.caller.next])));
      StepKeepsSound(j.ring, CallSend(CallOf(j.caller.frame[j.caller.next])));
    case Other(a) =>
      OtherKeepsCaller(j.ring, j.caller, full, a);
      OtherKeepsSent(j.ring, j.caller, full, a);
      StepKeepsMessages(j.ring, a);
      StepKeepsSound(j.ring, a);
  }

  lemma IdleOffers(s: State, c: Caller, call: Call)
    requires s.ring.Shaped() && Next(s, CallSend(call)).Some? && SentInv(s, c)
    ensures s.producer.Idle? && SentInv(Next(s, CallSend(call)).value, c)
  {
    hide BytesOf, Joined;
  }

  lemma OtherKeepsCaller(s: State, c: Caller, full: int, a: Action)
    requires s.ring.Shaped() && Sound(s) && MessageInv(s) && CallerInv(s, c, full) && Next(s, a).Some?
    requires !a.CallSend? && (a.CallClose? || a.CallConnect? ==> c.Done())
    ensures var t := Next(s, a).value; CallerInv(t, Heard(c, s, t), full) && t.ring.mtu == s.ring.mtu
  {
    hide Sound, MessageInv, CallerInv, NextOfProducer, NextOfSender;
    match a
    case SenderStep(failed, errno) =>
      SenderKeepsCaller(s, c, full, failed, errno);
      SenderLeavesProducer(s, failed, errno);
    case ProducerStep(waiting) => ProducerKeepsCaller(s, c, full, waiting);
    case _ => CallKeepsCaller(s, c, full, a);
  }

  lemma SenderLeavesProducer(s: State, failed: bool, errno: nat)
    requires s.ring.Shaped() && NextOfSender(s, failed, errno).Some?
    ensures NextOfSender(s, failed, errno).value.producer == s.producer
  {}

  lemma BeginKeepsCaller(pid: Byte, full: int, j: Joint, cc: Multiplexer.Counter, last: SmoothClock.Tick,
                         tables: Multiplexer.Tables, f: Multiplexer.Frame)
    requires tables.Valid() && f.Valid() && full >= TsPacket.LENGTH && Streams.FillsUp(full)
    requires CallerInv(j.ring, j.caller, full) && j.caller.Done() && j.ring.producer.Idle?
    ensures var c := j.caller.(frame := Multiplexer.FramePieces(pid, cc, last, tables, full, f), next := 0);
      CallerInv(j.ring, c, full) && (SentInv(j.ring, j.caller) ==> SentInv(j.ring, c))
  {
    hide WholeFrame, SizeInv, Joined, Multiplexer.FramePieces, Streams.FillsUp;
    FramesAreWhole(pid, cc, last, tables, full, f);
    DoneIsClosed(j.caller, full);
    var frame := Multiplexer.FramePieces(pid, cc, last, tables, full, f);
    assert frame[..0] == [] && Empty().PutAll([]) == Empty();
  }

  // ----- Whole runs -----

  function JointRun(pid: Byte, full: int, j: Joint, moves: seq<Move>): (k: Option<Joint>)
    requires j.ring.ring.Shaped()
    ensures k.Some? ==> k.value.ring.ring.Shaped()
  {
    if moves == [] then Some(j)
    else
      match JointRun(pid, full, j, moves[..|moves| - 1])
      case None => None
      case Some(k) => Moved(pid, full, k, moves[|moves| - 1])
  }

  lemma {:induction false} JointRunKeeps(pid: Byte, full: int, j: Joint, moves: seq<Move>)
    requires j.ring.ring.Shaped() && JointInv(j, full) && full >= TsPacket.LENGTH && Streams.FillsUp(full)
    requires JointRun(pid, full, j, moves).Some?
    ensures var k := JointRun(pid, full, j, moves).value; JointInv(k, full) && k.ring.conf == j.ring.conf
  {
    hide JointInv, Moved, Streams.FillsUp;
    if moves != [] {
      JointRunKeeps(pid, full, j, moves[..|moves| - 1]);
      MoveKeepsJoint(pid, full, JointRun(pid, full, j, moves[..|moves| - 1]).value, moves[|moves| - 1]);
    }
  }

  function AllButLast(parts: seq<seq<Byte>>): seq<seq<Byte>> {
    if parts == [] then [] else parts[..|parts| - 1]
  }

  function Begun(full: nat, conf: Conf, client: Option<nat>): (j: Joint)
    ensures j.ring.ring.Shaped()
  {
    Joint(Start(full, conf, client), Caller([], 0, []))
  }

  lemma BegunIsSound(full: nat, conf: Conf, client: Option<nat>)
    ensures JointInv(Begun(full, conf, client), full)
  {
    hide Sound;
    StartIsSound(full, conf, client);
    NothingOpen(full);
  }

  /** Frames pushed over the TCP sender, in any interleaving of the two threads, with
      connections lost and found, with any pieces refused: when fillings end on a flush,
      every packet of the ring is one datagram of floor(mtu / 188) packets, with no more
      to follow, or the greeting; the packets are what the pieces taken completed, in
      order, the last one possibly about to be pushed; and a piece is refused for want of room, or because
      frames are being dropped, only where nothing of its datagram is open. */
  lemma EveryPacketIsDatagram(pid: Byte, full: nat, conf: Conf, client: Option<nat>, moves: seq<Move>,
                              waiting: Option<nat>)
    requires full >= TsPacket.LENGTH && Streams.FillsUp(full)
    requires JointRun(pid, full, Begun(full, conf, client), moves).Some?
    ensures var j := JointRun(pid, full, Begun(full, conf, client), moves).value;
            var s, c := j.ring, j.caller;
      && c.next <= |c.frame|
      && (forall p <- s.ring.pushed ::
            !p.more && (|p.bytes| == TsPacket.LENGTH * D.Group(full) || conf.greeting == Some(p.bytes)))
      && BytesOf(s.ring.pushed) == (if s.producer.PushLast? then AllButLast(c.sent) else c.sent)
      && (s.producer.Admit? || s.producer.Look? ==>
            var t := NextOfProducer(s, waiting);
            t.Some? && t.value.producer.Idle? ==> s.ring.open == [] && c.Open() == [])
  {
    hide JointInv, Moved, NextOfProducer, Streams.FillsUp, JointRun;
    BegunIsSound(full, conf, client);
    JointRunKeeps(pid, full, Begun(full, conf, client), moves);
    WhatJointInvSays(JointRun(pid, full, Begun(full, conf, client), moves).value, full, waiting);
  }

  lemma WhatJointInvSays(j: Joint, full: int, waiting: Option<nat>)
    requires j.ring.ring.Shaped() && JointInv(j, full)
    ensures j.caller.next <= |j.caller.frame| && SizeInv(j.ring, full)
    ensures BytesOf(j.ring.ring.pushed)
         == if j.ring.producer.PushLast? then AllButLast(j.caller.sent) else j.caller.sent
    ensures var s := j.ring;
      s.producer.Admit? || s.producer.Look? ==>
        var t := NextOfProducer(s, waiting);
        t.Some? && t.value.producer.Idle? ==> s.ring.open == [] && j.caller.Open() == []
  {
    hide Sound, MessageInv, NextOfProducer, WholeFrame, Caller.Open, SizeInv;
    var s := j.ring;
    assert BytesOf(s.ring.pushed) + [] == BytesOf(s.ring.pushed);
    assert s.producer.PushLast? ==> BytesOf(s.ring.pushed) == AllButLast(j.caller.sent);
    if s.producer.Admit? || s.producer.Look? {
      var t := NextOfProducer(s, waiting);
      if t.Some? && t.value.producer.Idle? {
        RefusedAtStart(s, waiting);
        NothingOpen(full);
      }
    }
  }
}
