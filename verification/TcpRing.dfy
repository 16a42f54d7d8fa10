/** The threaded TCP sender: a producer fills a ring of 64 buffers, a sender
    thread empties it.  The two threads interleave at every access to a shared
    field; a critical section of the producer is one step that needs the mutex
    free, and the sender holds the mutex while it is at `Check` or `Finish`. */
module TcpRing {
  import opened Arithmetic
  import opened Bytes
  import opened Errno

  const BUFFERS: nat := 64

  // ----- The ring -----

  datatype BufferState = Dequeued | Queued | Ready

  /** `bytes` are the bytes in use. */
  datatype Buffer = Buffer(bytes: seq<Byte>, more: bool, started: bool, state: BufferState)

  datatype Packet = Packet(bytes: seq<Byte>, more: bool, started: bool)

  /** A chunk stored: does its message go on after it? */
  datatype Chunk = Chunk(bytes: seq<Byte>, more: bool)

  /** Chunks that shared a buffer, which was pushed or thrown away by a close. */
  datatype Group = Group(chunks: seq<Chunk>, sent: bool)

  /** The buffers, and what happened to them: every packet pushed, the packets the
      sender took, every chunk stored, how the stored chunks were grouped, and the
      chunks in the buffer being filled.  These histories influence no step. */
  datatype Ring = Ring(
    mtu: nat, buffers: seq<Buffer>, put: nat, take: nat,
    pushed: seq<Packet>, consumed: seq<Packet>,
    stored: seq<Chunk>, groups: seq<Group>, open: seq<Chunk>)
  {
    predicate Shaped() {
      |buffers| == BUFFERS && put < BUFFERS && take < BUFFERS
    }

    function Buf(): Buffer
      requires Shaped()
    {
      buffers[put]
    }

    /** Packets pushed and not yet taken. */
    function Pending(): int {
      |pushed| - |consumed|
    }

    function Opened(): (r: Ring)
      requires Shaped()
      ensures r.Shaped()
    {
      this.(buffers := buffers[put := Buf().(state := Queued, bytes := [])])
    }

    function Filled(chunk: Chunk): (r: Ring)
      requires Shaped()
      ensures r.Shaped()
    {
      this.(buffers := buffers[put := Buf().(bytes := Buf().bytes + chunk.bytes)],
            open := open + [chunk], stored := stored + [chunk])
    }

    function Pushed(more: bool, started: bool): (r: Ring)
      requires Shaped()
      ensures r.Shaped()
    {
      this.(buffers := buffers[put := Buf().(more := more, started := started, state := Ready)],
            pushed := pushed + [Packet(Buf().bytes, more, started)],
            groups := groups + [Group(open, true)], open := [])
    }

    function Advanced(): (r: Ring)
      requires Shaped()
      ensures r.Shaped()
    {
      this.(put := After(put, BUFFERS))
    }

    function Dropped(): (r: Ring)
      requires Shaped()
      ensures r.Shaped()
    {
      if Buf().state == Queued then
        this.(buffers := buffers[put := Buf().(state := Dequeued, bytes := [])],
              groups := groups + [Group(open, false)], open := [])
      else
        this
    }

    function Taken(): (r: Ring)
      requires Shaped()
      ensures r.Shaped()
    {
      var buf := buffers[take];
      this.(take := After(take, BUFFERS), buffers := buffers[take := buf.(state := Dequeued, bytes := [])],
            consumed := consumed + [Packet(buf.bytes, buf.more, buf.started)])
    }
  }

  function ChunksOf(groups: seq<Group>): seq<Chunk> {
    if groups == [] then [] else ChunksOf(groups[..|groups| - 1]) + groups[|groups| - 1].chunks
  }

  function Joined(chunks: seq<Chunk>): seq<Byte> {
    if chunks == [] then [] else Joined(chunks[..|chunks| - 1]) + chunks[|chunks| - 1].bytes
  }

  /** A message goes on after these chunks. */
  predicate GoesOn(chunks: seq<Chunk>) {
    chunks == [] || chunks[|chunks| - 1].more
  }

  /** No message ends before the last of these chunks. */
  predicate OneMessage(chunks: seq<Chunk>) {
    forall i | 0 <= i < |chunks| - 1 :: chunks[i].more
  }

  /** What a group is on the wire: its bytes, and whether more follows. */
  function SentOf(groups: seq<Group>): seq<(seq<Byte>, bool)> {
    if groups == [] then []
    else
      var g := groups[|groups| - 1];
      SentOf(groups[..|groups| - 1]) + if g.sent then [(Joined(g.chunks), GoesOn(g.chunks))] else []
  }

  function OnTheWire(packets: seq<Packet>): seq<(seq<Byte>, bool)> {
    seq(|packets|, i requires 0 <= i < |packets| => (packets[i].bytes, packets[i].more))
  }

  /** How far buffer b is behind the one the sender takes next. */
  function Distance(take: nat, b: nat): nat
    requires take < BUFFERS && b < BUFFERS
  {
    if b >= take then b - take else b - take + BUFFERS
  }

  /** The ready buffers are the circular segment from `take` up to the producer's
      buffer, which is behind `put` between a push and the move; they hold the
      packets pushed and not yet consumed, in order; only the producer's buffer
      can be queued; no packet is longer than the transport's unit. */
  ghost predicate RingInv(r: Ring, advancing: bool) {
    && r.Shaped()
    && 0 <= r.Pending() <= BUFFERS
    && (if advancing then After(r.put, BUFFERS) else r.put)
       == (if r.take + r.Pending() < BUFFERS then r.take + r.Pending() else r.take + r.Pending() - BUFFERS)
    && (forall b | 0 <= b < BUFFERS :: r.buffers[b].state == Ready <==> Distance(r.take, b) < r.Pending())
    && (forall b | 0 <= b < BUFFERS :: r.buffers[b].state == Queued ==> b == r.put && !advancing)
    && (forall b | 0 <= b < BUFFERS && r.buffers[b].state == Ready ::
          var p := r.pushed[|r.consumed| + Distance(r.take, b)];
          r.buffers[b].bytes == p.bytes && r.buffers[b].more == p.more && r.buffers[b].started == p.started)
    && (forall b | 0 <= b < BUFFERS :: |r.buffers[b].bytes| <= r.mtu)
  }

  /** Consumed is a prefix of pushed, and every packet fits. */
  ghost predicate HistoryInv(r: Ring) {
    && r.consumed <= r.pushed
    && (forall i | 0 <= i < |r.pushed| :: |r.pushed[i].bytes| <= r.mtu)
  }

  /** Every stored chunk is, whole and in its place, in one pushed packet, in one
      buffer thrown away or in the buffer being filled; a packet ends where a message
      does, or says that more follows. */
  ghost predicate ChunksInv(r: Ring) {
    && r.Shaped()
    && r.stored == ChunksOf(r.groups) + r.open
    && OnTheWire(r.pushed) == SentOf(r.groups)
    && (forall i | 0 <= i < |r.groups| :: OneMessage(r.groups[i].chunks)) && OneMessage(r.open)
    && (if r.Buf().state == Queued then r.Buf().bytes == Joined(r.open) else r.open == [])
  }

  ghost predicate Inv(r: Ring, advancing: bool) {
    RingInv(r, advancing) && HistoryInv(r) && ChunksInv(r)
  }

  /** What the threads need to know about the ring. */
  lemma RingFacts(r: Ring, advancing: bool)
    ensures Inv(r, advancing) ==>
      && r.Shaped() && 0 <= r.Pending() <= BUFFERS && |r.Buf().bytes| <= r.mtu
      && (r.buffers[r.take].state == Ready <==> r.Pending() > 0)
      && (r.Pending() > 0 && r.Buf().state != Ready ==> r.put != r.take)
      && (advancing ==> r.Buf().state != Queued && r.buffers[After(r.put, BUFFERS)].state != Queued)
  {
    if Inv(r, advancing) {
      assert Distance(r.take, r.take) == 0;
    }
  }

  lemma OpenedKeeps(r: Ring)
    ensures Inv(r, false) && r.Buf().state == Dequeued ==>
              var t := r.Opened();
              && Inv(t, false) && t.Buf().state == Queued && t.Buf().bytes == [] && t.open == []
              && t.Pending() == r.Pending() && t.mtu == r.mtu && t.stored == r.stored
  {
    hide ChunksOf, SentOf, OnTheWire;
  }

  lemma FilledKeeps(r: Ring, chunk: Chunk)
    ensures Inv(r, false) && r.Buf().state == Queued && |r.Buf().bytes| + |chunk.bytes| <= r.mtu && GoesOn(r.open) ==>
              var t := r.Filled(chunk);
              && Inv(t, false) && t.Buf().state == Queued && t.open == r.open + [chunk]
              && t.Pending() == r.Pending() && t.mtu == r.mtu && t.stored == r.stored + [chunk]
  {
    hide ChunksOf, SentOf, OnTheWire, Joined;
    JoinedMore(r.open, chunk);
    if Inv(r, false) {
      assert ChunksOf(r.groups) + (r.open + [chunk]) == r.stored + [chunk];
    }
  }

  lemma JoinedMore(chunks: seq<Chunk>, chunk: Chunk)
    ensures Joined(chunks + [chunk]) == Joined(chunks) + chunk.bytes
  {
    assert (chunks + [chunk])[..|chunks|] == chunks;
  }

  /** A buffer settles: it is pushed, or thrown away. */
  lemma GroupSettles(groups: seq<Group>, g: Group)
    ensures ChunksOf(groups + [g]) == ChunksOf(groups) + g.chunks
    ensures SentOf(groups + [g]) == SentOf(groups) + if g.sent then [(Joined(g.chunks), GoesOn(g.chunks))] else []
  {
    assert (groups + [g])[..|groups|] == groups;
  }

  lemma PushedKeepsChunks(r: Ring, more: bool, started: bool)
    ensures ChunksInv(r) && r.Buf().state == Queued && more == GoesOn(r.open) ==> ChunksInv(r.Pushed(more, started))
  {
    hide ChunksOf, SentOf, Joined, GoesOn, OneMessage;
    if ChunksInv(r) && r.Buf().state == Queued && more == GoesOn(r.open) {
      GroupSettles(r.groups, Group(r.open, true));
      assert OneMessage([]) by { NoChunks(); }
      var p := Packet(r.Buf().bytes, more, started);
      assert OnTheWire(r.pushed + [p]) == OnTheWire(r.pushed) + [(p.bytes, p.more)];
    }
  }

  lemma NoChunks()
    ensures OneMessage([]) && GoesOn([]) && Joined([]) == []
  {}

  lemma PushedKeeps(r: Ring, more: bool, started: bool)
    ensures Inv(r, false) && r.Buf().state == Queued && more == GoesOn(r.open) ==>
              var t := r.Pushed(more, started);
              && Inv(t, true) && t.Buf().state == Ready
              && t.Pending() == r.Pending() + 1 && t.mtu == r.mtu && t.stored == r.stored
  {
    hide ChunksInv, GoesOn;
    PushedKeepsChunks(r, more, started);
    if Inv(r, false) && r.Buf().state == Queued {
      var t := r.Pushed(more, started);
      assert Distance(r.take, r.put) == r.Pending();
      forall b | 0 <= b < BUFFERS && b != r.put
        ensures Distance(r.take, b) < t.Pending() <==> Distance(r.take, b) < r.Pending()
      {}
    }
  }

  lemma AdvancedKeeps(r: Ring)
    ensures Inv(r, true) ==>
              var t := r.Advanced();
              && Inv(t, false) && t.Buf().state != Queued
              && t.Pending() == r.Pending() && t.mtu == r.mtu && t.stored == r.stored
  {
    hide ChunksOf, SentOf, OnTheWire;
  }

  lemma DroppedKeeps(r: Ring)
    ensures Inv(r, false) ==>
              var t := r.Dropped();
              && Inv(t, false) && t.Buf().state != Queued
              && t.Pending() == r.Pending() && t.mtu == r.mtu && t.stored == r.stored
  {
    hide ChunksOf, SentOf, OnTheWire, OneMessage;
    GroupSettles(r.groups, Group(r.open, false));
    NoChunks();
  }

  lemma TakenKeepsChunks(r: Ring, advancing: bool)
    ensures Inv(r, advancing) && r.Pending() > 0 ==> ChunksInv(r.Taken())
  {
    hide ChunksOf, SentOf, OnTheWire;
    if Inv(r, advancing) && r.Pending() > 0 {
      assert Distance(r.take, r.take) == 0;
    }
  }

  lemma TakenKeepsRing(r: Ring, advancing: bool)
    ensures RingInv(r, advancing) && r.Pending() > 0 ==> RingInv(r.Taken(), advancing)
  {
    if RingInv(r, advancing) && r.Pending() > 0 {
      var t := r.Taken();
      assert Distance(r.take, r.take) == 0;
      forall b | 0 <= b < BUFFERS
        ensures Distance(t.take, b) == if b == r.take then BUFFERS - 1 else Distance(r.take, b) - 1
      {}
    }
  }

  lemma TakenKeeps(r: Ring, advancing: bool)
    ensures Inv(r, advancing) && r.Pending() > 0 ==>
              var t := r.Taken();
              && Inv(t, advancing) && t.consumed == r.consumed + [r.pushed[|r.consumed|]]
              && t.put == r.put && t.mtu == r.mtu && t.pushed == r.pushed && t.stored == r.stored && t.open == r.open
              && (r.Buf().state != Ready ==> t.Buf() == r.Buf()) && (r.Buf().state == Ready ==> t.Buf().state != Queued)
  {
    hide ChunksInv;
    TakenKeepsChunks(r, advancing);
    TakenKeepsRing(r, advancing);
    if Inv(r, advancing) && r.Pending() > 0 {
      assert Distance(r.take, r.take) == 0;
    }
  }

  // ----- The two threads -----

  /** A call of send: the bytes and their flags.  A server in http mode sends a
      greeting of its own to every new client. */
  datatype Call = Call(chunk: seq<Byte>, more: bool, started: bool, greeting: bool)

  /** Where the producer is. */
  datatype Producer =
    | Idle
    | Entry(call: Call)          // is there a client?
    | Connect(fd: nat)           // install the new client
    | ErrorCheck(call: Call)
    | Room(call: Call)           // does the chunk fit behind the queued bytes?
    | PushFull(call: Call)       // it does not: push what is queued
    | AdvanceFull(call: Call)
    | Admit(call: Call)          // start a buffer, if not dropping
    | Look(call: Call)           // is the next buffer free?
    | Open(call: Call)
    | Copy(call: Call)
    | PushLast(call: Call)       // the chunk ends its message
    | AdvanceLast
    | Close                      // forget the client
    | CloseBuffer                // and what is queued for it

  /** Where the sender thread is. */
  datatype Sender =
    | Check
    | Wait
    | Sending(fd: nat)
    | Relock(fd: nat, failed: bool, errno: nat)
    | Finish(target: Option<nat>, failed: bool, errno: nat)

  /** Whether the program listens for clients, and with what it greets them. */
  datatype Conf = Conf(server: bool, greeting: Option<seq<Byte>>)

  datatype Accepted = Accepted(call: Call, gap: bool, greeted: bool)

  /** What happened, which influences no step: every chunk accepted; whether a call
      was refused or the connection closed since the caller's last one, or there was
      none; whether the greeting was accepted since then, and nothing dropped since. */
  datatype Past = Past(accepted: seq<Accepted>, gap: bool, greeted: bool)
  {
    function Accept(call: Call): Past {
      Past(accepted + [Accepted(call, gap, greeted)], gap && call.greeting, call.greeting)
    }
  }

  datatype State = State(
    ring: Ring, conf: Conf, client: Option<nat>, error: nat, dropping: bool, lost: nat,
    producer: Producer, sender: Sender, signalled: bool, past: Past)
  {
    predicate MutexFree() {
      !sender.Check? && !sender.Finish?
    }

    predicate Advancing() {
      producer.AdvanceFull? || producer.AdvanceLast?
    }

    function Refused(): State {
      this.(producer := Idle, past := past.(gap := true))
    }

    /** The chunk starts a buffer. */
    function WithChunk(call: Call): State
      requires ring.Shaped()
    {
      this.(producer := if call.more then Idle else PushLast(call), lost := 0, dropping := false,
            ring := ring.Opened().Filled(Chunk(call.chunk, call.more)), past := past.Accept(call))
    }

    /** The critical section of a push: the buffer is ready and the sender woken. */
    function Push(more: bool, started: bool, next: Producer): (t: State)
      requires ring.Shaped()
      ensures t.ring.Shaped()
    {
      this.(producer := next, signalled := signalled || sender.Wait?, ring := ring.Pushed(more, started))
    }
  }

  function Start(mtu: nat, conf: Conf, client: Option<nat>): (s: State)
    ensures s.ring.Shaped()
  {
    State(Ring(mtu, seq(BUFFERS, _ => Buffer([], false, false, Dequeued)), 0, 0, [], [], [], [], []),
          conf, client, 0, true, 0, Idle, Check, false, Past([], true, false))
  }

  /** A step of one of the threads, with what the environment decides: the next
      call, the client that is waiting to be accepted, the result of sending. */
  datatype Action =
    | CallSend(call: Call)
    | CallClose
    | CallConnect(fd: nat)
    | ProducerStep(waiting: Option<nat>)
    | SenderStep(failed: bool, errno: nat)
    | SpuriousWakeup

  /** The state after a step, or None where the step is not possible. */
  function Next(s: State, a: Action): (t: Option<State>)
    requires s.ring.Shaped()
    ensures t.Some? ==> t.value.ring.Shaped()
  {
    match a
    case CallSend(call) => if s.producer.Idle? && !call.greeting then Some(s.(producer := Entry(call))) else None
    case CallClose => if s.producer.Idle? then Some(s.(producer := Close)) else None
    case CallConnect(fd) =>
      if s.producer.Idle? && s.client.None? && s.conf.server then Some(s.(producer := Connect(fd))) else None
    case ProducerStep(waiting) => NextOfProducer(s, waiting)
    case SenderStep(failed, errno) => NextOfSender(s, failed, errno)
    case SpuriousWakeup => if s.sender.Wait? then Some(s.(sender := Check, signalled := false)) else None
  }

  /** The greeting is one chunk that starts and ends a message. */
  function Greeting(bytes: seq<Byte>): Call {
    Call(bytes, false, true, true)
  }

  /** After a client is installed. */
  function Greet(conf: Conf): Producer {
    match conf.greeting
    case None => Idle
    case Some(bytes) => ErrorCheck(Greeting(bytes))
  }

  function NextOfProducer(s: State, waiting: Option<nat>): (t: Option<State>)
    requires s.ring.Shaped()
    ensures t.Some? ==> t.value.ring.Shaped()
  {
    match s.producer
    case Idle => None
    case Entry(call) =>
      if s.client.Some? then Some(s.(producer := ErrorCheck(call)))
      else if s.conf.server && waiting.Some? then
        Some(s.(producer := Connect(waiting.value), past := s.past.(gap := true)))
      else Some(s.Refused())
    case Connect(fd) =>
      if s.MutexFree() then Some(s.(producer := Greet(s.conf), client := Some(fd), error := 0)) else None
    case ErrorCheck(call) =>
      if s.error == 0 then Some(s.(producer := Room(call)))
      else if s.error == EAGAIN || call.greeting then Some(s.Refused())
      else Some(s.(producer := Close, past := s.past.(gap := true)))
    case Room(call) =>
      if s.ring.Buf().state == Queued && |s.ring.Buf().bytes| + |call.chunk| > s.ring.mtu then
        Some(s.(producer := PushFull(call)))
      else
        Some(s.(producer := Admit(call)))
    case PushFull(call) =>
      if s.MutexFree() then Some(s.Push(true, call.started, AdvanceFull(call))) else None
    case AdvanceFull(call) =>
      Some(s.(producer := Admit(call), ring := s.ring.Advanced()))
    case Admit(call) =>
      if s.ring.Buf().state == Queued then Some(s.(producer := Copy(call)))
      else if s.dropping && !call.started then Some(s.Refused())
      else Some(s.(producer := Look(call)))
    case Look(call) =>
      if !s.MutexFree() then None
      else if s.ring.Buf().state != Dequeued || |call.chunk| > s.ring.mtu then
        Some(s.(producer := Idle, dropping := true, lost := s.lost + 1, past := s.past.(gap := true, greeted := false)))
      else
        Some(s.(producer := Open(call)))
    case Open(call) =>
      Some(s.(producer := Copy(call), lost := 0, dropping := false, ring := s.ring.Opened()))
    case Copy(call) =>
      Some(s.(producer := if call.more then Idle else PushLast(call), ring := s.ring.Filled(Chunk(call.chunk, call.more)),
              past := s.past.Accept(call)))
    case PushLast(call) =>
      if s.MutexFree() then Some(s.Push(call.more, call.started, AdvanceLast)) else None
    case AdvanceLast =>
      Some(s.(producer := Idle, ring := s.ring.Advanced()))
    case Close =>
      if s.MutexFree() then Some(s.(producer := CloseBuffer, client := None, error := 0, past := s.past.(gap := true))) else None
    case CloseBuffer =>
      Some(s.(producer := Idle, dropping := true, lost := 0, ring := s.ring.Dropped(), past := s.past.(greeted := false)))
  }

  function NextOfSender(s: State, failed: bool, errno: nat): (t: Option<State>)
    requires s.ring.Shaped()
    ensures t.Some? ==> t.value.ring.Shaped()
  {
    match s.sender
    case Check =>
      if s.ring.buffers[s.ring.take].state != Ready then Some(s.(sender := Wait, signalled := false))
      else if s.client.Some? && s.error == 0 then Some(s.(sender := Sending(s.client.value)))
      else Some(s.(sender := Finish(None, false, 0)))
    case Wait =>
      if s.signalled then Some(s.(sender := Check, signalled := false)) else None
    case Sending(fd) => Some(s.(sender := Relock(fd, failed, errno)))
    case Relock(fd, failed, errno) => Some(s.(sender := Finish(Some(fd), failed, errno)))
    case Finish(target, failed, errno) =>
      Some(s.(sender := Check, ring := s.ring.Taken(),
              error := if failed && s.client == target then errno else s.error))
  }

  // ----- What every interleaving keeps -----

  /** The points of a call that has found a client. */
  predicate Serves(p: Producer) {
    p.Room? || p.PushFull? || p.AdvanceFull? || p.Admit? || p.Look? || p.Open? || p.Copy? || p.PushLast? || p.AdvanceLast?
  }

  /** The points of a call that still has its chunk. */
  predicate Carries(p: Producer) {
    p.Entry? || p.ErrorCheck? || p.Room? || p.PushFull? || p.AdvanceFull? || p.Admit? || p.Look? || p.Open? || p.Copy? || p.PushLast?
  }

  /** What the producer has established at each point, in terms of its buffer. */
  ghost predicate ProducerInv(s: State)
    requires s.ring.Shaped()
  {
    var buf := s.ring.Buf();
    && (s.dropping ==> buf.state != Queued)
    && (buf.state == Queued ==> GoesOn(s.ring.open) == !s.producer.PushLast?)
    && (s.client.None? && !s.producer.CloseBuffer? ==> s.dropping)
    && (Serves(s.producer) || s.producer.ErrorCheck? ==> s.client.Some?)
    && match s.producer
       case Connect(_) => s.client.None?
       case PushFull(_) => buf.state == Queued
       case Admit(call) => buf.state == Queued ==> |buf.bytes| + |call.chunk| <= s.ring.mtu
       case Look(call) => buf.state != Queued && (s.dropping ==> call.started)
       case Open(call) => buf.state == Dequeued && (s.dropping ==> call.started) && |call.chunk| <= s.ring.mtu
       case Copy(call) => buf.state == Queued && |buf.bytes| + |call.chunk| <= s.ring.mtu
       case PushLast(call) => buf.state == Queued && !call.more
       case CloseBuffer => s.client.None?
       case _ => true
  }

  /** After a refused call or a close, nothing but a starting chunk can be accepted,
      unless the greeting was. */
  ghost predicate GapInv(s: State)
    requires s.ring.Shaped()
  {
    && (forall a <- s.past.accepted :: a.gap ==> a.call.started || a.greeted)
    && (s.past.greeted ==> !s.dropping)
    && (s.past.greeted && s.ring.Buf().state == Queued ==> s.producer.Copy? || s.producer.PushLast?)
    && (s.past.gap ==>
          if s.producer.Copy? then s.producer.call.started || s.past.greeted
          else if s.producer.PushLast? || s.producer.AdvanceLast? then s.past.greeted
          else if Serves(s.producer) then s.dropping || s.past.greeted
          else s.dropping || s.past.greeted || s.error != 0 || s.producer.CloseBuffer?)
  }

  /** Only what the program is configured to send counts as its greeting. */
  ghost predicate GreetingInv(s: State) {
    && (s.past.greeted ==> s.conf.greeting.Some?)
    && (forall a <- s.past.accepted :: a.greeted || a.call.greeting ==> s.conf.greeting.Some?)
    && (Carries(s.producer) && s.producer.call.greeting ==> s.conf.greeting.Some? && !s.producer.call.more)
  }

  /** The chunks accepted are the chunks stored. */
  ghost predicate StoredInv(s: State) {
    var accepted := s.past.accepted;
    && |accepted| == |s.ring.stored|
    && forall i | 0 <= i < |accepted| :: s.ring.stored[i] == Chunk(accepted[i].call.chunk, accepted[i].call.more)
  }

  /** The sender works on a ready buffer, and never waits unsignalled while there
      is one. */
  ghost predicate SenderInv(s: State) {
    && (s.sender.Wait? && !s.signalled ==> s.ring.Pending() == 0)
    && (s.sender.Sending? || s.sender.Relock? || s.sender.Finish? ==> s.ring.Pending() > 0)
    && (s.sender.Sending? || s.sender.Relock? || (s.sender.Finish? && s.sender.target.Some?) ==> s.error == 0)
    && (s.sender.Finish? && s.sender.target.None? ==> !s.sender.failed)
  }

  ghost predicate Sound(s: State) {
    Inv(s.ring, s.Advancing()) && ProducerInv(s) && GapInv(s) && GreetingInv(s) && StoredInv(s) && SenderInv(s)
  }

  lemma StartIsSound(mtu: nat, conf: Conf, client: Option<nat>)
    ensures Sound(Start(mtu, conf, client))
  {}

  /** A step of the sender that leaves the ring alone. */
  lemma SenderLooks(s: State, failed: bool, errno: nat)
    requires Sound(s) && !s.sender.Finish? && NextOfSender(s, failed, errno).Some?
    ensures Sound(NextOfSender(s, failed, errno).value)
  {
    hide Inv, ProducerInv, GapInv, GreetingInv, Ring.Taken;
    RingFacts(s.ring, s.Advancing());
    Untouched(s, NextOfSender(s, failed, errno).value);
  }

  /** The producer's invariants do not depend on where the sender is. */
  lemma Untouched(s: State, t: State)
    ensures s.ring == t.ring && s.ring.Shaped() && s.client == t.client && s.error == t.error && s.dropping == t.dropping
            && s.producer == t.producer && s.past == t.past && s.conf == t.conf
            ==> ProducerInv(t) == ProducerInv(s) && GapInv(t) == GapInv(s) && GreetingInv(t) == GreetingInv(s) && t.Advancing() == s.Advancing()
  {}

  lemma SenderFinishes(s: State, failed: bool, errno: nat)
    requires Sound(s) && s.sender.Finish?
    ensures Sound(NextOfSender(s, failed, errno).value)
  {
    hide Inv, Ring.Taken;
    RingFacts(s.ring, s.Advancing());
    TakenKeeps(s.ring, s.Advancing());
  }

  /** The producer looks for a client. */
  lemma ProducerConnects(s: State, waiting: Option<nat>)
    requires Sound(s) && NextOfProducer(s, waiting).Some?
    requires s.producer.Entry? || s.producer.Connect?
    ensures Sound(NextOfProducer(s, waiting).value)
  {
    hide Inv, Ring.Opened, Ring.Filled, Ring.Pushed, Ring.Advanced, Ring.Dropped;
    RingFacts(s.ring, s.Advancing());
  }

  /** The producer looks at what the sender reports. */
  lemma ProducerChecks(s: State, waiting: Option<nat>)
    requires Sound(s) && NextOfProducer(s, waiting).Some?
    requires s.producer.ErrorCheck?
    ensures Sound(NextOfProducer(s, waiting).value)
  {
    hide Inv, StoredInv, SenderInv, Ring.Opened, Ring.Filled, Ring.Pushed, Ring.Advanced, Ring.Dropped;
    RingFacts(s.ring, s.Advancing());
    OnlyProducerMoved(s, NextOfProducer(s, waiting).value);
  }

  /** The sender's invariant and the history of chunks do not depend on where the
      producer is. */
  lemma OnlyProducerMoved(s: State, t: State)
    requires s.ring.Shaped()
    ensures s.ring == t.ring && s.sender == t.sender && s.signalled == t.signalled && s.error == t.error
            && s.past.accepted == t.past.accepted
            ==> StoredInv(t) == StoredInv(s) && SenderInv(t) == SenderInv(s)
  {}

  /** The producer forgets the client. */
  lemma ProducerCloses(s: State, waiting: Option<nat>)
    requires Sound(s) && NextOfProducer(s, waiting).Some?
    requires s.producer.Close?
    ensures Sound(NextOfProducer(s, waiting).value)
  {
    hide Inv, Ring.Opened, Ring.Filled, Ring.Pushed, Ring.Advanced, Ring.Dropped;
    RingFacts(s.ring, s.Advancing());
  }

  /** The producer decides which buffer a chunk goes to. */
  lemma ProducerDecides(s: State, waiting: Option<nat>)
    requires Sound(s) && NextOfProducer(s, waiting).Some?
    requires s.producer.Room? || s.producer.Admit?
    ensures Sound(NextOfProducer(s, waiting).value)
  {
    hide Inv, Ring.Opened, Ring.Filled, Ring.Pushed, Ring.Advanced, Ring.Dropped;
    RingFacts(s.ring, s.Advancing());
  }

  /** The producer looks at the buffer it wants to fill. */
  lemma ProducerLooks(s: State, waiting: Option<nat>)
    requires Sound(s) && NextOfProducer(s, waiting).Some?
    requires s.producer.Look?
    ensures Sound(NextOfProducer(s, waiting).value)
  {
    hide Inv, Ring.Opened, Ring.Filled, Ring.Pushed, Ring.Advanced, Ring.Dropped;
    RingFacts(s.ring, s.Advancing());
  }

  lemma ProducerPushes(s: State, waiting: Option<nat>)
    requires Sound(s) && NextOfProducer(s, waiting).Some?
    requires s.producer.PushFull? || s.producer.PushLast?
    ensures Sound(NextOfProducer(s, waiting).value)
  {
    hide Inv, Ring.Opened, Ring.Filled, Ring.Pushed, Ring.Advanced, Ring.Dropped;
    RingFacts(s.ring, s.Advancing());
    match s.producer
    case PushFull(call) => PushedKeeps(s.ring, true, call.started);
    case PushLast(call) => PushedKeeps(s.ring, call.more, call.started);
  }

  lemma ProducerMoves(s: State, waiting: Option<nat>)
    requires Sound(s) && NextOfProducer(s, waiting).Some?
    requires s.producer.AdvanceFull? || s.producer.AdvanceLast? || s.producer.CloseBuffer?
    ensures Sound(NextOfProducer(s, waiting).value)
  {
    hide Inv, Ring.Opened, Ring.Filled, Ring.Pushed, Ring.Advanced, Ring.Dropped;
    RingFacts(s.ring, s.Advancing());
    AdvancedKeeps(s.ring);
    DroppedKeeps(s.ring);
  }

  lemma ProducerFills(s: State, waiting: Option<nat>)
    requires Sound(s) && NextOfProducer(s, waiting).Some?
    requires s.producer.Open? || s.producer.Copy?
    ensures Sound(NextOfProducer(s, waiting).value)
  {
    hide Inv, Ring.Opened, Ring.Filled, Ring.Pushed, Ring.Advanced, Ring.Dropped;
    RingFacts(s.ring, s.Advancing());
    match s.producer
    case Open(call) => OpenedKeeps(s.ring);
    case Copy(call) => FilledKeeps(s.ring, Chunk(call.chunk, call.more));
  }

  lemma ProducerCalls(s: State, a: Action)
    requires Sound(s) && (a.CallSend? || a.CallClose? || a.CallConnect? || a.SpuriousWakeup?) && Next(s, a).Some?
    ensures Sound(Next(s, a).value)
  {
    hide Inv, NextOfProducer, NextOfSender;
    RingFacts(s.ring, s.Advancing());
  }

  lemma StepKeepsSound(s: State, a: Action)
    requires Sound(s) && Next(s, a).Some?
    ensures Sound(Next(s, a).value) && Next(s, a).value.conf == s.conf
  {
    hide Inv, ProducerInv, GapInv, GreetingInv, SenderInv;
    match a
    case SenderStep(failed, errno) =>
      if s.sender.Finish? { SenderFinishes(s, failed, errno); } else { SenderLooks(s, failed, errno); }
    case ProducerStep(waiting) =>
      match s.producer {
        case Entry(_) => ProducerConnects(s, waiting);
        case Connect(_) => ProducerConnects(s, waiting);
        case ErrorCheck(_) => ProducerChecks(s, waiting);
        case Close => ProducerCloses(s, waiting);
        case PushFull(_) => ProducerPushes(s, waiting);
        case PushLast(_) => ProducerPushes(s, waiting);
        case AdvanceFull(_) => ProducerMoves(s, waiting);
        case AdvanceLast => ProducerMoves(s, waiting);
        case CloseBuffer => ProducerMoves(s, waiting);
        case Open(_) => ProducerFills(s, waiting);
        case Copy(_) => ProducerFills(s, waiting);
        case Look(_) => ProducerLooks(s, waiting);
        case _ => ProducerDecides(s, waiting);
      }
    case _ => ProducerCalls(s, a);
  }

  // ----- Whole runs -----

  function Run(s: State, actions: seq<Action>): (t: Option<State>)
    requires s.ring.Shaped()
    ensures t.Some? ==> t.value.ring.Shaped()
  {
    if actions == [] then Some(s)
    else
      match Run(s, actions[..|actions| - 1])
      case None => None
      case Some(t) => Next(t, actions[|actions| - 1])
  }

  lemma {:induction false} RunKeepsSound(s: State, actions: seq<Action>)
    requires s.ring.Shaped() && Sound(s) && Run(s, actions).Some?
    ensures Sound(Run(s, actions).value) && Run(s, actions).value.conf == s.conf
  {
    hide Sound, Next;
    if actions != [] {
      RunKeepsSound(s, actions[..|actions| - 1]);
      StepKeepsSound(Run(s, actions[..|actions| - 1]).value, actions[|actions| - 1]);
    }
  }

  /** The sender has the buffer in use outside of the mutex. */
  predicate Reading(s: State) {
    s.sender.Sending? || s.sender.Relock?
  }

  /** The producer's next step writes into its buffer, outside of the mutex. */
  predicate Writing(s: State)
    requires s.ring.Shaped()
  {
    s.producer.Open? || s.producer.Copy? || (s.producer.CloseBuffer? && s.ring.Buf().state == Queued)
  }

  function ChunksAccepted(accepted: seq<Accepted>): seq<Chunk> {
    seq(|accepted|, i requires 0 <= i < |accepted| => Chunk(accepted[i].call.chunk, accepted[i].call.more))
  }

  /** What the sender took is what was pushed, in order and unchanged, and so far. */
  predicate InOrder(r: Ring) {
    && |r.consumed| <= |r.pushed|
    && r.consumed == r.pushed[..|r.consumed|]
    && forall p <- r.pushed :: |p.bytes| <= r.mtu
  }

  /** Every accepted chunk is, whole and in its place, in one pushed packet, in one
      buffer that a close threw away, or in the buffer being filled; packets hold
      nothing else, never run over the end of a message, and say that more follows
      exactly when their message goes on. */
  predicate ChunksAreWhole(s: State) {
    && ChunksAccepted(s.past.accepted) == ChunksOf(s.ring.groups) + s.ring.open
    && OnTheWire(s.ring.pushed) == SentOf(s.ring.groups)
    && forall g <- s.ring.groups :: OneMessage(g.chunks)
  }

  /** The first chunk accepted, and each one accepted after a refusal or a close,
      starts a frame, except behind a greeting. */
  predicate ResumesAtStart(accepted: seq<Accepted>) {
    forall a <- accepted :: a.gap ==> a.call.started || a.greeted
  }

  predicate NeverGreets(accepted: seq<Accepted>) {
    forall a <- accepted :: !a.greeted && !a.call.greeting
  }

  lemma SoundMeansSafe(s: State)
    requires Sound(s)
    ensures InOrder(s.ring) && ChunksAreWhole(s) && ResumesAtStart(s.past.accepted)
    ensures s.conf.greeting.None? ==> NeverGreets(s.past.accepted)
    ensures Reading(s) && Writing(s) ==> s.ring.put != s.ring.take
    ensures s.sender.Wait? && s.ring.buffers[s.ring.take].state == Ready ==> s.signalled
  {
    hide RingInv, ChunksOf, SentOf, OnTheWire;
    RingFacts(s.ring, s.Advancing());
    assert ChunksAccepted(s.past.accepted) == s.ring.stored;
  }

  /** Whatever the interleaving of the two threads. */
  lemma EveryRunIsSafe(mtu: nat, conf: Conf, client: Option<nat>, actions: seq<Action>)
    requires Run(Start(mtu, conf, client), actions).Some?
    ensures var t := Run(Start(mtu, conf, client), actions).value;
      && InOrder(t.ring) && ChunksAreWhole(t) && ResumesAtStart(t.past.accepted)
      && (conf.greeting.None? ==> NeverGreets(t.past.accepted))
      && (Reading(t) && Writing(t) ==> t.ring.put != t.ring.take)
      && (t.sender.Wait? && t.ring.buffers[t.ring.take].state == Ready ==> t.signalled)
  {
    hide Sound, Next, InOrder, ChunksAreWhole, ResumesAtStart, NeverGreets;
    StartIsSound(mtu, conf, client);
    RunKeepsSound(Start(mtu, conf, client), actions);
    SoundMeansSafe(Run(Start(mtu, conf, client), actions).value);
  }

  // ----- When a chunk is accepted -----

  /** The producer's buffer is free exactly while fewer packets than buffers wait. */
  lemma FreeBuffer(r: Ring)
    ensures Inv(r, false) && r.Buf().state != Queued ==> (r.Buf().state == Dequeued <==> r.Pending() < BUFFERS)
  {
    if Inv(r, false) && r.Buf().state != Queued {
      assert r.buffers[r.put].state == Ready <==> Distance(r.take, r.put) < r.Pending();
    }
  }

  /** The next buffer is taken if and only if it is free and the chunk fits; otherwise
      the call is refused, and frames are dropped from then on. */
  lemma LookCondition(s: State, waiting: Option<nat>)
    requires Sound(s) && s.producer.Look? && s.MutexFree()
    ensures var call := s.producer.call;
            var next := NextOfProducer(s, waiting);
      && next.Some?
      && (next.value.producer == Open(call) <==> s.ring.Pending() < BUFFERS && |call.chunk| <= s.ring.mtu)
      && (next.value.producer != Open(call) ==>
            && next.value.producer == Idle && next.value.dropping && next.value.lost == s.lost + 1
            && next.value.ring == s.ring && next.value.past.accepted == s.past.accepted && next.value.past.gap)
  {
    hide Inv, GapInv, StoredInv, SenderInv, GreetingInv;
    FreeBuffer(s.ring);
  }

  /** There is room for the chunk of a call: a free buffer, or place behind the bytes
      that are queued, or a free buffer after pushing these. */
  predicate HasRoom(s: State, call: Call)
    requires s.ring.Shaped()
  {
    && |call.chunk| <= s.ring.mtu
    && if s.ring.Buf().state != Queued then s.ring.Pending() < BUFFERS && (s.dropping ==> call.started)
       else |s.ring.Buf().bytes| + |call.chunk| <= s.ring.mtu || s.ring.Pending() + 1 < BUFFERS
  }

  /** A call that nothing can keep from being accepted, with the steps it still needs. */
  function StepsLeft(p: Producer): nat {
    match p
    case Entry(_) => 9
    case ErrorCheck(_) => 8
    case Room(_) => 7
    case PushFull(_) => 6
    case AdvanceFull(_) => 5
    case Admit(_) => 4
    case Look(_) => 3
    case Open(_) => 2
    case Copy(_) => 1
    case _ => 0
  }

  ghost predicate Welcome(s: State, call: Call)
    requires s.ring.Shaped()
  {
    && StepsLeft(s.producer) > 0 && s.producer.call == call && !call.greeting && s.client.Some?
    && match s.producer
       case Entry(_) => HasRoom(s, call)
       case ErrorCheck(_) => HasRoom(s, call)
       case Room(_) => HasRoom(s, call)
       case PushFull(_) => |call.chunk| <= s.ring.mtu && s.ring.Pending() + 1 < BUFFERS && !s.dropping
       case AdvanceFull(_) => |call.chunk| <= s.ring.mtu && s.ring.Pending() < BUFFERS && !s.dropping
       case Admit(_) => HasRoom(s, call)
       case Look(_) => |call.chunk| <= s.ring.mtu && s.ring.Pending() < BUFFERS
       case _ => true
  }

  lemma RingSizes(r: Ring, chunk: Chunk, more: bool, started: bool)
    requires r.Shaped()
    ensures r.Pushed(more, started).Pending() == r.Pending() + 1 && r.Pushed(more, started).mtu == r.mtu
    ensures r.Advanced().Pending() == r.Pending() && r.Advanced().mtu == r.mtu
    ensures r.Taken().Pending() == r.Pending() - 1 && r.Taken().mtu == r.mtu
  {}

  lemma SenderKeepsWelcome(s: State, call: Call, failed: bool, errno: nat)
    requires Sound(s) && Welcome(s, call) && NextOfSender(s, failed, errno).Some?
    ensures var t := NextOfSender(s, failed, errno).value; Welcome(t, call) && t.past == s.past && t.producer == s.producer
  {
    hide Inv, ProducerInv, GapInv, GreetingInv, StoredInv, Ring.Taken;
    RingFacts(s.ring, s.Advancing());
    RingSizes(s.ring, Chunk([], false), false, false);
    TakenKeeps(s.ring, s.Advancing());
  }

  lemma RoomKeepsWelcome(s: State, call: Call, waiting: Option<nat>)
    requires Sound(s) && Welcome(s, call) && NextOfProducer(s, waiting).Some? && s.error == 0
    requires s.producer.Entry? || s.producer.ErrorCheck? || s.producer.Room? || s.producer.Admit?
    ensures var t := NextOfProducer(s, waiting).value;
      Welcome(t, call) && t.past == s.past && StepsLeft(t.producer) < StepsLeft(s.producer)
  {
    hide Inv, GapInv, GreetingInv, StoredInv, SenderInv, Ring.Opened, Ring.Filled, Ring.Pushed, Ring.Advanced;
    RingFacts(s.ring, s.Advancing());
  }

  lemma PushKeepsWelcome(s: State, call: Call, waiting: Option<nat>)
    requires Sound(s) && Welcome(s, call) && NextOfProducer(s, waiting).Some? && s.error == 0
    requires s.producer.PushFull? || s.producer.AdvanceFull?
    ensures var t := NextOfProducer(s, waiting).value;
      Welcome(t, call) && t.past == s.past && StepsLeft(t.producer) < StepsLeft(s.producer)
  {
    hide Inv, GapInv, GreetingInv, StoredInv, SenderInv, ProducerInv, Ring.Pushed, Ring.Advanced;
    RingFacts(s.ring, s.Advancing());
    RingSizes(s.ring, Chunk([], false), true, call.started);
    AdvancedKeeps(s.ring);
  }

  lemma LookKeepsWelcome(s: State, call: Call, waiting: Option<nat>)
    requires Sound(s) && Welcome(s, call) && NextOfProducer(s, waiting).Some? && s.error == 0
    requires s.producer.Look? || s.producer.Open?
    ensures var t := NextOfProducer(s, waiting).value;
      Welcome(t, call) && t.past == s.past && StepsLeft(t.producer) < StepsLeft(s.producer)
  {
    hide Inv, GapInv, GreetingInv, StoredInv, SenderInv, Ring.Opened;
    RingFacts(s.ring, s.Advancing());
    FreeBuffer(s.ring);
  }

  lemma ProducerKeepsWelcome(s: State, call: Call, waiting: Option<nat>)
    requires Sound(s) && Welcome(s, call) && NextOfProducer(s, waiting).Some? && s.error == 0
    ensures var t := NextOfProducer(s, waiting).value;
      if s.producer.Copy? then t.past == s.past.Accept(call)
      else Welcome(t, call) && t.past == s.past && StepsLeft(t.producer) < StepsLeft(s.producer)
  {
    if s.producer.Copy? {
      hide Sound, Ring.Filled;
    } else {
      hide Sound, NextOfProducer;
      match s.producer
      case PushFull(_) => PushKeepsWelcome(s, call, waiting);
      case AdvanceFull(_) => PushKeepsWelcome(s, call, waiting);
      case Look(_) => LookKeepsWelcome(s, call, waiting);
      case Open(_) => LookKeepsWelcome(s, call, waiting);
      case _ => RoomKeepsWelcome(s, call, waiting);
    }
  }

  /** The sender reports no error before any of the steps. */
  ghost predicate ErrorFree(s: State, actions: seq<Action>)
    requires s.ring.Shaped()
  {
    actions == []
    || (var before := Run(s, actions[..|actions| - 1]);
        ErrorFree(s, actions[..|actions| - 1]) && (before.Some? ==> before.value.error == 0))
  }

  function ProducerSteps(actions: seq<Action>): nat {
    if actions == [] then 0
    else ProducerSteps(actions[..|actions| - 1]) + if actions[|actions| - 1].ProducerStep? then 1 else 0
  }

  /** The call was accepted, or is still on its way there. */
  ghost predicate OnItsWay(s: State, t: State, call: Call, steps: nat)
    requires s.ring.Shaped() && t.ring.Shaped()
  {
    var n := |s.past.accepted|;
    if |t.past.accepted| > n then
      t.past.accepted[..n] == s.past.accepted && t.past.accepted[n] == Accepted(call, s.past.gap, s.past.greeted)
    else
      Welcome(t, call) && t.past == s.past && StepsLeft(t.producer) + steps <= StepsLeft(s.producer)
  }

  lemma AcceptedOnlyGrows(s: State, a: Action)
    requires s.ring.Shaped() && Next(s, a).Some?
    ensures s.past.accepted <= Next(s, a).value.past.accepted
  {
    hide Ring.Opened, Ring.Filled, Ring.Pushed, Ring.Advanced, Ring.Dropped, Ring.Taken;
  }

  lemma StepOnItsWay(s: State, t: State, a: Action, call: Call, steps: nat)
    requires s.ring.Shaped() && t.ring.Shaped() && OnItsWay(s, t, call, steps)
    requires Sound(t) && t.error == 0 && Next(t, a).Some?
    ensures OnItsWay(s, Next(t, a).value, call, steps + if a.ProducerStep? then 1 else 0)
  {
    AcceptedOnlyGrows(t, a);
    if |t.past.accepted| == |s.past.accepted| {
      match a
      case ProducerStep(waiting) => ProducerKeepsWelcome(t, call, waiting);
      case SenderStep(failed, errno) => SenderKeepsWelcome(t, call, failed, errno);
      case _ =>
    }
    hide Sound, NextOfProducer, NextOfSender;
  }

  lemma {:induction false} RunOnItsWay(s: State, call: Call, actions: seq<Action>)
    requires s.ring.Shaped() && Sound(s) && Welcome(s, call) && ErrorFree(s, actions) && Run(s, actions).Some?
    ensures OnItsWay(s, Run(s, actions).value, call, ProducerSteps(actions))
  {
    hide Sound, Welcome, OnItsWay, Next;
    if actions == [] {
      StartsOnItsWay(s, call);
    } else {
      var before := actions[..|actions| - 1];
      RunOnItsWay(s, call, before);
      RunKeepsSound(s, before);
      StepOnItsWay(s, Run(s, before).value, actions[|actions| - 1], call, ProducerSteps(before));
    }
  }

  lemma StartsOnItsWay(s: State, call: Call)
    requires s.ring.Shaped() && Welcome(s, call)
    ensures OnItsWay(s, s, call, 0)
  {
    hide Welcome;
  }

  /** A call of the caller that finds a client, no error and room is accepted within
      nine steps of the producer, whatever the sender does meanwhile, as long as it
      reports no error: no chunk is dropped while a buffer is free. */
  lemma CallIsAccepted(s: State, call: Call, actions: seq<Action>)
    requires s.ring.Shaped() && Sound(s) && s.producer == Entry(call) && !call.greeting && s.client.Some?
    requires HasRoom(s, call)
    requires ErrorFree(s, actions) && Run(s, actions).Some? && ProducerSteps(actions) >= 9
    ensures var n, accepted := |s.past.accepted|, Run(s, actions).value.past.accepted;
      && |accepted| > n && accepted[..n] == s.past.accepted && accepted[n].call == call
  {
    hide Sound, Run, ErrorFree, ProducerSteps, HasRoom;
    RunOnItsWay(s, call, actions);
    var t := Run(s, actions).value;
    assert StepsLeft(t.producer) == 0 ==> !Welcome(t, call);
  }

  // ----- What is sent, and what is reported -----

  /** With a packet waiting, the sender sends the oldest one to the client exactly if
      there is one and no error stands; otherwise it is released unsent. */
  lemma SenderOffers(s: State, failed: bool, errno: nat)
    requires Sound(s) && s.sender.Check? && s.ring.Pending() > 0
    ensures var t := NextOfSender(s, failed, errno);
      && t.Some?
      && (t.value.sender.Sending? <==> s.client.Some? && s.error == 0)
      && (if t.value.sender.Sending? then s.client == Some(t.value.sender.fd) else t.value.sender == Finish(None, false, 0))
  {
    hide Inv, ProducerInv, GapInv, GreetingInv, StoredInv;
    RingFacts(s.ring, s.Advancing());
  }

  /** What is being sent is the oldest packet that was pushed, whole. */
  lemma SendsTheOldest(s: State)
    requires Sound(s) && Reading(s)
    ensures s.ring.Pending() > 0
    ensures var buf, p := s.ring.buffers[s.ring.take], s.ring.pushed[|s.ring.consumed|];
      buf.bytes == p.bytes && buf.more == p.more
  {
    hide HistoryInv, ChunksInv, ProducerInv, GapInv, GreetingInv, StoredInv;
    assert Distance(s.ring.take, s.ring.take) == 0;
  }

  /** A failure to send is reported exactly while the client it was for is still there;
      it comes up when the packet is released. */
  lemma FailureIsReported(s: State, failed: bool, errno: nat)
    requires Sound(s) && s.sender.Finish?
    ensures var t := NextOfSender(s, failed, errno).value;
      && t.ring.consumed == s.ring.consumed + [s.ring.pushed[|s.ring.consumed|]]
      && t.error == if s.sender.failed && s.client == s.sender.target then s.sender.errno else s.error
  {
    hide Inv, ProducerInv, GapInv, GreetingInv, StoredInv, Ring.Taken;
    RingFacts(s.ring, s.Advancing());
    TakenKeeps(s.ring, s.Advancing());
  }

  /** Nothing was accepted since s, and the error stands or the connection was closed
      because of it. */
  ghost predicate Reported(s: State, t: State) {
    && t.past.accepted == s.past.accepted && t.client == s.client && t.error == s.error
    && (t.producer.Idle? || t.producer.Entry? || t.producer.ErrorCheck? || t.producer.Close?)
  }

  /** An error that stands is the answer to every call: the call is refused, and with
      any other error than EAGAIN the connection is closed. */
  lemma StepKeepsReport(s: State, t: State, a: Action)
    requires Reported(s, t) && Sound(t) && t.error != 0 && t.client.Some? && Next(t, a).Some?
    ensures var u := Next(t, a).value;
      && (Reported(s, u) || (t.producer.Close? && u.producer.CloseBuffer? && u.client.None? && u.error == 0))
      && (t.producer.ErrorCheck? && u.producer != t.producer ==>
            u.past.gap && u.producer == if t.error == EAGAIN || t.producer.call.greeting then Idle else Close)
  {
    hide Inv, ProducerInv, GapInv, GreetingInv, StoredInv, Ring.Taken;
  }

  /** No step of the run forgets the client. */
  ghost predicate StaysOpen(s: State, actions: seq<Action>)
    requires s.ring.Shaped()
  {
    actions == []
    || (var now := Run(s, actions);
        StaysOpen(s, actions[..|actions| - 1]) && (now.Some? ==> !now.value.producer.CloseBuffer?))
  }

  /** So over any run, until the connection is closed, no chunk is accepted and the
      error stands. */
  lemma {:induction false} ErrorStands(s: State, actions: seq<Action>)
    requires s.ring.Shaped() && Sound(s) && s.producer.Idle? && s.error != 0 && s.client.Some?
    requires StaysOpen(s, actions) && Run(s, actions).Some?
    ensures Reported(s, Run(s, actions).value)
  {
    hide Sound, Next;
    if actions != [] {
      var before := actions[..|actions| - 1];
      ErrorStands(s, before);
      RunKeepsSound(s, before);
      StepKeepsReport(s, Run(s, before).value, actions[|actions| - 1]);
    }
  }

  // ----- A client that waits -----

  /** While a client that was accepted is not installed yet. */
  ghost predicate Installing(s: State, t: State, fd: nat) {
    && t.conf == s.conf && t.client == s.client
    && t.producer == Connect(fd) && t.past.accepted == s.past.accepted
  }

  /** A call without a client is refused, unless the program is a server and a client
      waits: that client is accepted, and whatever the sender does meanwhile, the next
      step of the producer installs it, without an error; the call itself accepts
      nothing but the greeting, if there is one. */
  lemma WaitingClientIsInstalled(s: State, waiting: Option<nat>, steps: seq<Action>)
    requires s.ring.Shaped() && Sound(s) && s.producer.Entry? && s.client.None?
    requires forall a <- steps :: a.SenderStep?
    ensures var t := NextOfProducer(s, waiting).value;
      if !(s.conf.server && waiting.Some?) then t == s.Refused()
      else
        Run(t, steps).Some? ==>
          && Installing(t, Run(t, steps).value, waiting.value)
          && var u := NextOfProducer(Run(t, steps).value, None);
             u.Some? ==>
               && u.value.client == waiting && u.value.error == 0
               && u.value.past.accepted == s.past.accepted && u.value.producer == Greet(s.conf)
  {
    hide Sound;
    if s.conf.server && waiting.Some? {
      SenderKeepsInstalling(NextOfProducer(s, waiting).value, waiting.value, steps);
    }
  }

  lemma {:induction false} SenderKeepsInstalling(t: State, fd: nat, steps: seq<Action>)
    requires t.ring.Shaped() && t.producer == Connect(fd) && forall a <- steps :: a.SenderStep?
    ensures Run(t, steps).Some? ==> Installing(t, Run(t, steps).value, fd)
    decreases |steps|
  {
    if steps != [] {
      var before := steps[..|steps| - 1];
      assert steps[|steps| - 1] in steps;
      SenderKeepsInstalling(t, fd, before);
    }
  }

  // ----- The greeting of http mode -----

  /** With a gap behind it, a call of the caller that comes to start a buffer goes on
      exactly if it starts a frame, or the greeting was accepted since the gap; any
      other is refused. */
  lemma ResumeCondition(s: State, waiting: Option<nat>)
    requires Sound(s) && s.producer.Admit? && s.past.gap && !s.producer.call.greeting
    ensures var call := s.producer.call; var t := NextOfProducer(s, waiting).value;
      if call.started || s.past.greeted then t.producer == Look(call) else t == s.Refused()
  {
    hide Inv, StoredInv, SenderInv;
  }

  lemma OneMore(s: State, actions: seq<Action>, a: Action)
    requires s.ring.Shaped()
    ensures Run(s, actions + [a]) == match Run(s, actions) case None => None case Some(t) => Next(t, a)
  {
    assert (actions + [a])[..|actions|] == actions;
  }

  /** The producer's steps alone. */
  function Steps(n: nat, waiting: Option<nat>): seq<Action> {
    if n == 0 then [] else Steps(n - 1, waiting) + [ProducerStep(waiting)]
  }

  lemma OneMoreStep(s: State, n: nat, waiting: Option<nat>)
    requires s.ring.Shaped()
    ensures Run(s, Steps(n + 1, waiting))
            == match Run(s, Steps(n, waiting)) case None => None case Some(t) => NextOfProducer(t, waiting)
  {
    hide NextOfProducer;
    OneMore(s, Steps(n, waiting), ProducerStep(waiting));
  }

  lemma Together(s: State, before: seq<Action>, after: seq<Action>)
    requires s.ring.Shaped()
    ensures Run(s, before + after)
            == match Run(s, before) case None => None case Some(t) => Run(t, after)
  {
    if after == [] {
      assert before + after == before;
    } else {
      Together(s, before, after[..|after| - 1]);
      assert (before + after)[..|before + after| - 1] == before + after[..|after| - 1];
    }
  }

  lemma NoSteps(s: State, waiting: Option<nat>)
    requires s.ring.Shaped()
    ensures Run(s, Steps(0, waiting)) == Some(s)
  {}

  lemma ThreeSteps(s: State, waiting: Option<nat>)
    requires s.ring.Shaped()
    ensures Run(s, Steps(3, waiting)) ==
      match NextOfProducer(s, waiting)
      case None => None
      case Some(t) =>
        match NextOfProducer(t, waiting)
        case None => None
        case Some(u) => NextOfProducer(u, waiting)
  {
    hide NextOfProducer, Run;
    NoSteps(s, waiting);
    OneMoreStep(s, 0, waiting);
    OneMoreStep(s, 1, waiting);
    OneMoreStep(s, 2, waiting);
  }

  /** Three steps bring a chunk to a free buffer. */
  lemma ChunkComesToBuffer(s: State, call: Call, waiting: Option<nat>)
    requires s.ring.Shaped() && s.producer == ErrorCheck(call) && s.error == 0
    requires s.ring.Buf().state == Dequeued && (s.dropping ==> call.started)
    ensures Run(s, Steps(3, waiting)) == Some(s.(producer := Look(call)))
  {
    hide Run, Steps;
    ThreeSteps(s, waiting);
  }

  /** Three more take it in, while the sender waits. */
  lemma ChunkGoesIn(s: State, call: Call, waiting: Option<nat>)
    requires s.ring.Shaped() && s.producer == Look(call) && s.sender.Wait?
    requires s.ring.Buf().state == Dequeued && |call.chunk| <= s.ring.mtu
    ensures Run(s, Steps(3, waiting)) == Some(s.WithChunk(call))
  {
    hide Ring.Opened, Ring.Filled, Run, Steps, Past.Accept;
    ThreeSteps(s, waiting);
  }

  lemma SameChunk(s: State, call: Call)
    requires s.ring.Shaped()
    ensures s.(producer := Look(call)).WithChunk(call) == s.WithChunk(call)
  {}

  lemma ChunkIsTaken(s: State, call: Call, waiting: Option<nat>)
    requires s.ring.Shaped() && s.producer == ErrorCheck(call) && s.error == 0 && s.sender.Wait?
    requires s.ring.Buf().state == Dequeued && |call.chunk| <= s.ring.mtu && (s.dropping ==> call.started)
    ensures Run(s, Steps(3, waiting) + Steps(3, waiting)) == Some(s.WithChunk(call))
  {
    hide Run, Steps, State.WithChunk;
    ChunkComesToBuffer(s, call, waiting);
    ChunkGoesIn(s.(producer := Look(call)), call, waiting);
    Together(s, Steps(3, waiting), Steps(3, waiting));
    SameChunk(s, call);
  }

  lemma TwoSteps(s: State, a: Action, b: Action)
    requires s.ring.Shaped()
    ensures Run(s, [a, b]) == match Next(s, a) case None => None case Some(t) => Next(t, b)
  {
    hide Next;
    assert Run(s, []) == Some(s);
    OneMore(s, [], a);
    OneMore(s, [a], b);
    assert [] + [a] == [a] && [a] + [b] == [a, b];
  }

  /** A call that finds a new client sends the greeting instead of its chunk. */
  lemma FirstCallGreets(mtu: nat, greeting: seq<Byte>, first: Call, fd: nat) returns (actions: seq<Action>)
    requires !first.greeting
    ensures var s := Start(mtu, Conf(true, Some(greeting)), None);
      Run(s, actions) == Some(s.(producer := ErrorCheck(Greeting(greeting)), client := Some(fd), sender := Wait))
  {
    hide Run, Steps;
    var s := Start(mtu, Conf(true, Some(greeting)), None);
    var called := s.(producer := Entry(first), sender := Wait);
    var before, after := [SenderStep(false, 0), CallSend(first)], [ProducerStep(Some(fd)), ProducerStep(Some(fd))];
    TwoSteps(s, before[0], before[1]);
    TwoSteps(called, after[0], after[1]);
    Together(s, before, after);
    actions := before + after;
  }

  /** The greeting is pushed, and the next call comes. */
  lemma NextCallFollows(s: State, call: Call, second: Call, waiting: Option<nat>) returns (actions: seq<Action>)
    requires s.ring.Shaped() && s.producer == PushLast(call) && s.sender.Wait? && s.client.Some? && !second.greeting
    ensures Run(s, actions) == Some(s.(producer := ErrorCheck(second), signalled := true,
                                       ring := s.ring.Pushed(call.more, call.started).Advanced()))
  {
    hide Run, Steps, Ring.Pushed, Ring.Advanced;
    var pushed := s.(producer := Idle, signalled := true, ring := s.ring.Pushed(call.more, call.started).Advanced());
    var before, after := [ProducerStep(waiting), ProducerStep(waiting)], [CallSend(second), ProducerStep(waiting)];
    TwoSteps(s, before[0], before[1]);
    TwoSteps(pushed, after[0], after[1]);
    Together(s, before, after);
    actions := before + after;
  }

  lemma NextBufferIsFree(mtu: nat, conf: Conf, chunk: Chunk)
    ensures var r := Start(mtu, conf, None).ring;
      && r.Buf().state == Dequeued
      && var t := r.Opened().Filled(chunk).Pushed(false, true).Advanced(); t.Buf().state == Dequeued && t.mtu == mtu
  {}

  /** A run in which a chunk is accepted that need not start a frame, although the
      call before it was refused: the greeting came between the two. */
  lemma GreetingHidesGap(mtu: nat, greeting: seq<Byte>, first: Call, second: Call, fd: nat)
    returns (actions: seq<Action>)
    requires |greeting| <= mtu && |second.chunk| <= mtu && !first.greeting && !second.greeting
    ensures var end := Run(Start(mtu, Conf(true, Some(greeting)), None), actions);
      && end.Some?
      && end.value.past.accepted == [Accepted(Greeting(greeting), true, false), Accepted(second, true, true)]
  {
    hide Run, Steps, Ring.Opened, Ring.Filled, Ring.Pushed, Ring.Advanced;
    var w := Some(fd);
    var s, six, hello := Start(mtu, Conf(true, Some(greeting)), None), Steps(3, w) + Steps(3, w), Greeting(greeting);
    NextBufferIsFree(mtu, s.conf, Chunk(greeting, false));
    actions := FirstCallGreets(mtu, greeting, first, fd);
    var greeted := Run(s, actions).value;
    ChunkIsTaken(greeted, hello, w);
    Together(s, actions, six);
    var rest := NextCallFollows(greeted.WithChunk(hello), hello, second, w);
    Together(s, actions + six, rest);
    ChunkIsTaken(Run(greeted.WithChunk(hello), rest).value, second, w);
    Together(s, actions + six + rest, six);
    actions := actions + six + rest + six;
  }

  // ----- Progress -----

  /** What a step of the sender meets: does sending fail, and with which error? */
  datatype Outcome = Outcome(failed: bool, errno: nat)

  /** The sender's steps alone, until it has to wait. */
  function SenderRun(s: State, outcomes: seq<Outcome>): (t: State)
    requires s.ring.Shaped()
    ensures t.ring.Shaped()
    decreases |outcomes|
  {
    if outcomes == [] then s
    else
      match NextOfSender(s, outcomes[0].failed, outcomes[0].errno)
      case None => s
      case Some(t) => SenderRun(t, outcomes[1..])
  }

  /** The steps the sender still needs to empty the ring. */
  function Needed(s: State): int {
    4 * s.ring.Pending()
    + match s.sender
      case Wait => 1
      case Check => 0
      case Sending(_) => -1
      case Relock(_, _, _) => -2
      case Finish(_, _, _) => -3
  }

  /** While something is pending the sender has a step, which brings it nearer to
      the end and leaves what was pushed as it is. */
  lemma SenderAdvances(s: State, failed: bool, errno: nat)
    requires Sound(s) && s.ring.Pending() > 0
    ensures var t := NextOfSender(s, failed, errno);
      && t.Some? && Needed(t.value) < Needed(s)
      && t.value.ring.pushed == s.ring.pushed && t.value.ring.put == s.ring.put
  {
    hide Inv, ProducerInv, GapInv, GreetingInv, StoredInv, Ring.Taken;
    RingFacts(s.ring, s.Advancing());
    TakenKeeps(s.ring, s.Advancing());
  }

  /** However sending goes, the sender on its own takes everything that was pushed,
      in at most four steps a packet and one to wake up. */
  lemma {:induction false} SenderDrains(s: State, outcomes: seq<Outcome>) returns (n: nat)
    requires Sound(s) && Needed(s) <= |outcomes|
    ensures n <= |outcomes| && n <= Needed(s)
    ensures SenderRun(s, outcomes[..n]).ring.consumed == s.ring.pushed
    decreases |outcomes|
  {
    hide Inv, ProducerInv, GapInv, GreetingInv, StoredInv, NextOfSender;
    RingFacts(s.ring, s.Advancing());
    if s.ring.Pending() == 0 {
      n := 0;
      SoundMeansSafe(s);
    } else {
      SenderAdvances(s, outcomes[0].failed, outcomes[0].errno);
      var t := NextOfSender(s, outcomes[0].failed, outcomes[0].errno).value;
      StepKeepsSound(s, SenderStep(outcomes[0].failed, outcomes[0].errno));
      var m := SenderDrains(t, outcomes[1..]);
      n := m + 1;
      assert outcomes[..n][1..] == outcomes[1..][..m];
    }
  }

  /** No deadlock: a call in progress can go on, or the sender, which then holds the
      mutex, can. */
  lemma NobodyIsStuck(s: State, waiting: Option<nat>, failed: bool, errno: nat)
    requires Sound(s) && !s.producer.Idle?
    ensures Next(s, ProducerStep(waiting)).Some? || (!s.MutexFree() && Next(s, SenderStep(failed, errno)).Some?)
  {
    hide Inv, ProducerInv, GapInv, GreetingInv, StoredInv, SenderInv;
  }
}
