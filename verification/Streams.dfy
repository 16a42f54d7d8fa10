/** Whole runs of the multiplexer over a transport that takes everything: what
    the datagrams look like, and what a receiver of the video stream gets. */
module Streams {
  import opened Bytes
  import opened SmoothClock
  import opened TsPacket
  import opened Datagrams
  import opened Multiplexer

  // ----- A frame as whole packets -----

  function ContentList(packets: seq<Packet>): (list: seq<seq<Byte>>)
    ensures |list| == |packets|
  {
    if packets == [] then [] else [packets[0].Content()] + ContentList(packets[1..])
  }

  function FillLeft(full: int, video: nat, klv: nat): int {
    LeftAfter(full, LeftAfter(full, full, video), klv)
  }

  /** The packets of a frame, in the order in which they are sent. */
  function FramePackets(pid: Byte, cc: Counter, last: Tick, tables: Tables, full: int, f: Frame): seq<seq<Byte>>
    requires tables.Valid() && f.Valid()
  {
    var video := Cut(pid, cc, Some(f.Lead(last)), f.data);
    ContentList(video) + f.Klv() + tables.Filling(FillCount(FillLeft(full, |video|, |f.Klv()|)))
  }

  lemma {:induction false} PiecesAsPackets(w: Wire, packets: seq<Packet>, full: int, mtu: int)
    ensures w.PutAll(AllPieces(packets, full, mtu)) == w.PutAll(Whole(ContentList(packets), full, mtu))
    decreases |packets|
  {
    hide Packet.Content, InPieces, Flushes, Left, Wire.Put;
    if packets != [] {
      var p, flush := packets[0], Flushes(mtu);
      var piece := Piece(p.Content(), !flush, false);
      PutAllConcat(w, InPieces(p, flush), AllPieces(packets[1..], full, Left(full, mtu)));
      PiecesArriveWhole(w, p, flush);
      PiecesAsPackets(w.Put(piece), packets[1..], full, Left(full, mtu));
      var whole := Whole(ContentList(packets), full, mtu);
      assert ContentList(packets)[1..] == ContentList(packets[1..]);
      assert whole[0] == piece && whole[1..] == Whole(ContentList(packets[1..]), full, Left(full, mtu));
    }
  }

  lemma FrameOnTheWire(w: Wire, pid: Byte, cc: Counter, last: Tick, tables: Tables, full: int, f: Frame)
    requires tables.Valid() && f.Valid()
    ensures w.PutAll(FramePieces(pid, cc, last, tables, full, f))
         == w.PutAll(Whole(FramePackets(pid, cc, last, tables, full, f), full, full))
  {
    hide Cut, Tables.Filling, FillCount, LeftAfter, Whole, AllPieces, ContentList, Wire.PutAll;
    var video := Cut(pid, cc, Some(f.Lead(last)), f.data);
    var mtu := LeftAfter(full, full, |video|);
    var left := FillLeft(full, |video|, |f.Klv()|);
    var fill := tables.Filling(FillCount(left));
    WholeConcat(ContentList(video) + f.Klv(), fill, full, full);
    WholeConcat(ContentList(video), f.Klv(), full, full);
    LeftAfterSum(full, full, |video|, |f.Klv()|);
    PutAllConcat(w, AllPieces(video, full, full) + Whole(f.Klv(), full, mtu), Whole(fill, full, left));
    PutAllConcat(w, AllPieces(video, full, full), Whole(f.Klv(), full, mtu));
    PiecesAsPackets(w, video, full, full);
    PutAllConcat(w, Whole(ContentList(video), full, full) + Whole(f.Klv(), full, mtu), Whole(fill, full, left));
    PutAllConcat(w, Whole(ContentList(video), full, full), Whole(f.Klv(), full, mtu));
  }

  lemma {:induction false} LeftAfterSum(full: int, mtu: int, m: nat, n: nat)
    ensures LeftAfter(full, mtu, m + n) == LeftAfter(full, LeftAfter(full, mtu, m), n)
    decreases m
  {
    hide Left;
    if m > 0 {
      LeftAfterSum(full, Left(full, mtu), m - 1, n);
    }
  }

  // ----- The datagrams of a frame -----

  lemma {:induction false} VideoPacketsAreWhole(pid: Byte, cc: Counter, lead: Option<Lead>, data: seq<Byte>)
    ensures AreWhole(ContentList(Cut(pid, cc, lead, data)))
    ensures Flatten(ContentList(Cut(pid, cc, lead, data))) == Contents(Cut(pid, cc, lead, data))
    decreases |data|
  {
    hide NextPacket, Packet.Content;
    if data != [] {
      var p := NextPacket(pid, cc, lead, data);
      PacketIsWhole(pid, cc, lead, data);
      VideoPacketsAreWhole(pid, (cc + 1) % 16, None, data[|p.payload|..]);
    }
  }

  /** The filling of a frame ends its last datagram. */
  predicate FillsUp(full: int) {
    full % LENGTH != 0 || full < 2 * LENGTH
  }

  lemma FramePacketsAreWhole(pid: Byte, cc: Counter, last: Tick, tables: Tables, full: int, f: Frame)
    requires tables.Valid() && f.Valid()
    ensures AreWhole(FramePackets(pid, cc, last, tables, full, f))
  {
    hide Cut, Tables.Filling, FillCount, FillLeft;
    VideoPacketsAreWhole(pid, cc, Some(f.Lead(last)), f.data);
  }

  lemma {:induction false} WaitingSum(count: nat, m: nat, n: nat, group: nat)
    ensures Waiting(count, m + n, group) == Waiting(Waiting(count, m, group), n, group)
    decreases m
  {
    if m > 0 {
      WaitingSum(if count + 1 == group then 0 else count + 1, m - 1, n, group);
    }
  }

  /** From a fresh datagram on, with any number of video packets, with or without
      the KLV packet: every datagram of the frame holds exactly the packets that
      fit, and the frame ends on a flush unless packets divide the datagram evenly
      and more than one fits. */
  lemma FrameIsGrouped(w: Wire, pid: Byte, cc: Counter, last: Tick, tables: Tables, full: int, f: Frame)
    requires tables.Valid() && f.Valid() && full >= LENGTH
    requires w.pending == [] && AllOfSize(w.datagrams, LENGTH * Group(full))
    ensures var w' := w.PutAll(FramePieces(pid, cc, last, tables, full, f));
      && AllOfSize(w'.datagrams, LENGTH * Group(full))
      && |w'.pending| == (if FillsUp(full) then 0 else LENGTH * (Group(full) - 1))
      && (w'.pending == [] <==> FillsUp(full))
      && Flatten(w'.datagrams) + w'.pending
         == Flatten(w.datagrams) + Flatten(FramePackets(pid, cc, last, tables, full, f))
  {
    hide Cut, Tables.Filling, FillCount, LeftAfter, Whole, Wire.PutAll, Waiting, AreWhole, ContentList, FramePieces;
    var packets := FramePackets(pid, cc, last, tables, full, f);
    var video := Cut(pid, cc, Some(f.Lead(last)), f.data);
    var before := ContentList(video) + f.Klv();
    var left := FillLeft(full, |video|, |f.Klv()|);
    var fill := tables.Filling(FillCount(left));
    FrameOnTheWire(w, pid, cc, last, tables, full, f);
    FramePacketsAreWhole(pid, cc, last, tables, full, f);
    DatagramsAreGroups(w, packets, full, 0);
    SomeAreWhole(before, fill);
    DatagramsAreGroups(Wire([], []), before, full, 0);
    LeftAfterSum(full, full, |video|, |f.Klv()|);
    WaitingSum(0, |before|, |fill|, Group(full));
    FillCompletesGroup(full, Waiting(0, |before|, Group(full)));
    assert |packets| == |before| + |fill|;
    GroupIsTwo(full);
    assert Flatten(w.datagrams) + w.pending == Flatten(w.datagrams);
  }

  lemma SomeAreWhole(a: seq<seq<Byte>>, b: seq<seq<Byte>>)
    requires AreWhole(a + b)
    ensures AreWhole(a)
  {
    forall i | 0 <= i < |a| ensures |a[i]| == LENGTH { assert a[i] == (a + b)[i]; }
  }

  lemma GroupIsTwo(full: int)
    ensures LENGTH <= full < 2 * LENGTH ==> Group(full) == 1
    ensures full >= 2 * LENGTH ==> Group(full) >= 2
  {}

  // ----- Frames that go on in an open datagram -----

  lemma {:induction false} FirstFlush(w: Wire, packets: seq<seq<Byte>>, full: int, count: nat)
    requires full >= LENGTH && count < Group(full) && AreWhole(packets)
    requires |packets| >= Group(full) - count
    ensures var w' := w.PutAll(Whole(packets, full, full - LENGTH * count));
      && |w'.datagrams| > |w.datagrams|
      && |w'.datagrams[|w.datagrams|]| == |w.pending| + LENGTH * (Group(full) - count)
    decreases |packets|
  {
    hide Group, Flushes, Left;
    var mtu := full - LENGTH * count;
    var piece := Piece(packets[0], !Flushes(mtu), false);
    var pieces := Whole(packets, full, mtu);
    assert pieces[0] == piece && pieces[1..] == Whole(packets[1..], full, Left(full, mtu));
    FlushCompletesGroup(full, count);
    var w1 := w.Put(piece);
    if count + 1 == Group(full) {
      assert w1.datagrams[|w.datagrams|] == w.pending + packets[0];
      DatagramsOnlyGrow(w1, pieces[1..]);
    } else {
      assert w1.datagrams == w.datagrams && |w1.pending| == |w.pending| + LENGTH;
      FirstFlush(w1, packets[1..], full, count + 1);
    }
  }

  lemma {:induction false} NoFlush(w: Wire, packets: seq<seq<Byte>>, full: int, count: nat)
    requires full >= LENGTH && count + |packets| < Group(full)
    ensures w.PutAll(Whole(packets, full, full - LENGTH * count)) == Wire(w.datagrams, w.pending + Flatten(packets))
    decreases |packets|
  {
    hide Group, Flushes, Left;
    if packets == [] {
      assert w.pending + [] == w.pending;
    } else {
      var mtu := full - LENGTH * count;
      var piece := Piece(packets[0], !Flushes(mtu), false);
      var pieces := Whole(packets, full, mtu);
      assert pieces[0] == piece && pieces[1..] == Whole(packets[1..], full, Left(full, mtu));
      FlushCompletesGroup(full, count);
      NoFlush(w.Put(piece), packets[1..], full, count + 1);
      assert w.pending + packets[0] + Flatten(packets[1..]) == w.pending + Flatten(packets);
    }
  }

  lemma {:induction false} DatagramsOnlyGrow(w: Wire, pieces: seq<Piece>)
    ensures w.datagrams <= w.PutAll(pieces).datagrams
    decreases |pieces|
  {
    if pieces != [] {
      DatagramsOnlyGrow(w.Put(pieces[0]), pieces[1..]);
    }
  }

  /** A frame counts its packets from a fresh datagram, also where the one before
      left a datagram open: a frame of fewer packets than fit flushes nothing, and
      the first datagram of any other one is too long by all that was open. */
  lemma OpenDatagramGoesOn(w: Wire, pid: Byte, cc: Counter, last: Tick, tables: Tables, full: int, f: Frame)
    requires tables.Valid() && f.Valid() && full >= LENGTH
    ensures var packets := FramePackets(pid, cc, last, tables, full, f);
            var w' := w.PutAll(FramePieces(pid, cc, last, tables, full, f));
      if |packets| < Group(full) then
        w' == Wire(w.datagrams, w.pending + Flatten(packets))
      else
        && |w'.datagrams| > |w.datagrams|
        && |w'.datagrams[|w.datagrams|]| == |w.pending| + LENGTH * Group(full)
  {
    hide Whole, Wire.PutAll, FramePieces, FramePackets, AreWhole, Group;
    var packets := FramePackets(pid, cc, last, tables, full, f);
    FrameOnTheWire(w, pid, cc, last, tables, full, f);
    FramePacketsAreWhole(pid, cc, last, tables, full, f);
    GroupIsTwo(full);
    if |packets| < Group(full) {
      NoFlush(w, packets, full, 0);
    } else {
      FirstFlush(w, packets, full, 0);
    }
  }

  /** The packets that a frame brings itself. */
  function OwnPackets(pid: Byte, cc: Counter, last: Tick, f: Frame): nat {
    |Cut(pid, cc, Some(f.Lead(last)), f.data)| + |f.Klv()|
  }

  /** Where the filling stops short, a frame has as many packets as fit exactly if it
      brings them itself. */
  lemma FrameReachesGroup(pid: Byte, cc: Counter, last: Tick, tables: Tables, full: int, f: Frame)
    requires tables.Valid() && f.Valid() && full >= LENGTH && !FillsUp(full)
    ensures |FramePackets(pid, cc, last, tables, full, f)| >= Group(full) <==> OwnPackets(pid, cc, last, f) >= Group(full)
  {
    hide Cut, Tables.Filling, FillCount, LeftAfter, ContentList;
    var own := OwnPackets(pid, cc, last, f);
    var packets := Cut(pid, cc, Some(f.Lead(last)), f.data);
    LeftAfterSum(full, full, |packets|, |f.Klv()|);
    GroupIsTwo(full);
    if own < Group(full) {
      LeftAfterFew(full, own, 0);
      FillCompletesGroup(full, own);
    }
  }

  lemma {:induction false} LeftAfterFew(full: int, n: nat, count: nat)
    requires full >= LENGTH && count + n < Group(full)
    ensures LeftAfter(full, full - LENGTH * count, n) == full - LENGTH * (count + n)
    decreases n
  {
    hide Group, Left;
    if n > 0 {
      FlushCompletesGroup(full, count);
      LeftAfterFew(full, n - 1, count + 1);
    }
  }

  // ----- Whole runs -----

  datatype Run = Run(cc: Counter, last: Tick, tables: Tables)
  {
    predicate Valid() { tables.Valid() }

    function Next(pid: Byte, full: int, f: Frame): (r: Run)
      requires Valid() && f.Valid()
      ensures r.Valid()
    {
      var packets := Cut(pid, cc, Some(f.Lead(last)), f.data);
      var n := FillCount(FillLeft(full, |packets|, |f.Klv()|));
      Run((cc as nat + |packets|) % 16, if packets == [] then last else LastStamp(f.Lead(last)), tables.After(n, n))
    }

    function After(pid: Byte, full: int, frames: seq<Frame>): (r: Run)
      requires Valid() && forall f | f in frames :: f.Valid()
      ensures r.Valid()
      decreases |frames|
    {
      if frames == [] then this else Next(pid, full, frames[0]).After(pid, full, frames[1..])
    }

    /** Every frame has fewer packets of its own than fit into a datagram. */
    predicate Small(pid: Byte, full: int, frames: seq<Frame>)
      requires Valid() && forall f | f in frames :: f.Valid()
      decreases |frames|
    {
      frames == [] || (OwnPackets(pid, cc, last, frames[0]) < Group(full)
                       && Next(pid, full, frames[0]).Small(pid, full, frames[1..]))
    }

    function Pieces(pid: Byte, full: int, frames: seq<Frame>): seq<Piece>
      requires Valid() && forall f | f in frames :: f.Valid()
      decreases |frames|
    {
      if frames == [] then []
      else FramePieces(pid, cc, last, tables, full, frames[0]) + Next(pid, full, frames[0]).Pieces(pid, full, frames[1..])
    }

    function Packets(pid: Byte, full: int, frames: seq<Frame>): seq<seq<Byte>>
      requires Valid() && forall f | f in frames :: f.Valid()
      decreases |frames|
    {
      if frames == [] then []
      else FramePackets(pid, cc, last, tables, full, frames[0]) + Next(pid, full, frames[0]).Packets(pid, full, frames[1..])
    }
  }

  /** Over any number of frames, when the filling ends on a flush: all datagrams
      hold exactly the packets that fit, and together they are the packets. */
  lemma {:induction false} RunIsGrouped(w: Wire, r: Run, pid: Byte, full: int, frames: seq<Frame>)
    requires r.Valid() && (forall f | f in frames :: f.Valid()) && full >= LENGTH && FillsUp(full)
    requires w.pending == [] && AllOfSize(w.datagrams, LENGTH * Group(full))
    ensures var w' := w.PutAll(r.Pieces(pid, full, frames));
      && w'.pending == [] && AllOfSize(w'.datagrams, LENGTH * Group(full))
      && Flatten(w'.datagrams) == Flatten(w.datagrams) + Flatten(r.Packets(pid, full, frames))
    decreases |frames|
  {
    hide FramePieces, FramePackets, Run.Next, Group, FillsUp, Wire.Put, AllOfSize;
    if frames == [] {
      assert Flatten(w.datagrams) + [] == Flatten(w.datagrams);
    } else {
      var f := frames[0];
      var pieces := FramePieces(pid, r.cc, r.last, r.tables, full, f);
      var packets := FramePackets(pid, r.cc, r.last, r.tables, full, f);
      var next := r.Next(pid, full, f);
      FrameIsGrouped(w, pid, r.cc, r.last, r.tables, full, f);
      PutAllConcat(w, pieces, next.Pieces(pid, full, frames[1..]));
      var w1 := w.PutAll(pieces);
      assert Flatten(w1.datagrams) + w1.pending == Flatten(w1.datagrams);
      RunIsGrouped(w1, next, pid, full, frames[1..]);
      FlattenConcat(packets, next.Packets(pid, full, frames[1..]));
      assert Flatten(w.datagrams) + Flatten(packets) + Flatten(next.Packets(pid, full, frames[1..]))
          == Flatten(w.datagrams) + Flatten(r.Packets(pid, full, frames));
    }
  }

  /** Behind an open datagram: the sizes stay right exactly as long as no frame has
      enough packets to flush, and then nothing is sent any more. */
  lemma {:induction false} OpenRun(w: Wire, r: Run, pid: Byte, full: int, frames: seq<Frame>)
    requires r.Valid() && (forall f | f in frames :: f.Valid()) && full >= LENGTH && !FillsUp(full)
    requires w.pending != [] && AllOfSize(w.datagrams, LENGTH * Group(full))
    ensures var w' := w.PutAll(r.Pieces(pid, full, frames));
      && (AllOfSize(w'.datagrams, LENGTH * Group(full)) <==> r.Small(pid, full, frames))
      && (r.Small(pid, full, frames) ==>
            w' == Wire(w.datagrams, w.pending + Flatten(r.Packets(pid, full, frames))))
    decreases |frames|
  {
    hide FramePieces, FramePackets, Run.Next, Group, FillsUp, Wire.Put, OwnPackets;
    if frames == [] {
      assert w.pending + [] == w.pending;
    } else {
      var f := frames[0];
      var pieces := FramePieces(pid, r.cc, r.last, r.tables, full, f);
      var packets := FramePackets(pid, r.cc, r.last, r.tables, full, f);
      var next := r.Next(pid, full, f);
      var w1 := w.PutAll(pieces);
      OpenDatagramGoesOn(w, pid, r.cc, r.last, r.tables, full, f);
      FrameReachesGroup(pid, r.cc, r.last, r.tables, full, f);
      PutAllConcat(w, pieces, next.Pieces(pid, full, frames[1..]));
      if |packets| < Group(full) {
        OpenRun(w1, next, pid, full, frames[1..]);
        assert w.pending + Flatten(packets) + Flatten(next.Packets(pid, full, frames[1..]))
            == w.pending + (Flatten(packets) + Flatten(next.Packets(pid, full, frames[1..])));
        FlattenConcat(packets, next.Packets(pid, full, frames[1..]));
      } else {
        DatagramsOnlyGrow(w1, next.Pieces(pid, full, frames[1..]));
      }
    }
  }

  /** From a fresh datagram on, over any number of frames: all datagrams hold exactly
      the packets that fit if and only if the filling ends on a flush, or no frame
      after the first has as many packets as fit.  In the second case nothing is
      sent after the first frame: what is open grows without bound. */
  lemma GroupingCondition(w: Wire, r: Run, pid: Byte, full: int, frames: seq<Frame>)
    requires r.Valid() && (forall f | f in frames :: f.Valid()) && full >= LENGTH && frames != []
    requires w.pending == [] && AllOfSize(w.datagrams, LENGTH * Group(full))
    ensures var w1 := w.PutAll(FramePieces(pid, r.cc, r.last, r.tables, full, frames[0]));
            var w' := w.PutAll(r.Pieces(pid, full, frames));
            var next := r.Next(pid, full, frames[0]);
      && (AllOfSize(w'.datagrams, LENGTH * Group(full)) <==> FillsUp(full) || next.Small(pid, full, frames[1..]))
      && (!FillsUp(full) && next.Small(pid, full, frames[1..]) ==>
            w' == Wire(w1.datagrams, w1.pending + Flatten(next.Packets(pid, full, frames[1..]))))
  {
    hide FramePieces, FramePackets, Run.Next, Group, FillsUp, Wire.Put, AllOfSize, Run.Small;
    var f := frames[0];
    var next := r.Next(pid, full, f);
    FrameIsGrouped(w, pid, r.cc, r.last, r.tables, full, f);
    PutAllConcat(w, FramePieces(pid, r.cc, r.last, r.tables, full, f), next.Pieces(pid, full, frames[1..]));
    if FillsUp(full) {
      RunIsGrouped(w, r, pid, full, frames);
    } else {
      OpenRun(w.PutAll(FramePieces(pid, r.cc, r.last, r.tables, full, f)), next, pid, full, frames[1..]);
    }
  }

  // ----- The sender over a run -----

  ghost function StateOf(s: Sender): Run
    reads s
  {
    Run(s.cc, s.pcr, s.View())
  }

  lemma {:induction false} AllGoThrough(packets: seq<Packet>, full: int, mtu: int, budget: nat)
    requires |AllPieces(packets, full, mtu)| <= budget
    ensures Through(packets, budget) == |packets|
    decreases |packets|
  {
    hide Packet.Header, Left, Flushes;
    if packets != [] {
      assert |InPieces(packets[0], true)| == |InPieces(packets[0], Flushes(mtu))|;
      AllGoThrough(packets[1..], full, Left(full, mtu), budget - |InPieces(packets[0], true)|);
    }
  }

  lemma NothingTaken(log: seq<Piece>, pieces: seq<Piece>, log': seq<Piece>, budget': nat)
    ensures Taken(log, 0, pieces, log', budget') ==> log' == log && budget' == 0
  {
    assert pieces[..0] == [] && log + [] == log;
    assert pieces == [] ==> log + pieces == log;
  }

  /** One frame, as a step of the run. */
  method PushFrame(s: Sender, f: Frame)
    requires s.View().Valid() && f.Valid()
    modifies s, s.out
    ensures var r := old(StateOf(s));
            var pieces := FramePieces(s.pid, r.cc, r.last, r.tables, s.out.mtu, f);
      && s.View().Valid()
      && Taken(old(s.out.log), old(s.out.budget), pieces, s.out.log, s.out.budget)
      && (|pieces| <= old(s.out.budget) ==> StateOf(s) == r.Next(s.pid, s.out.mtu, f))
      && (old(s.out.budget) == 0 ==> s.out.log == old(s.out.log) && s.out.budget == 0)
  {
    hide Taken, Cut, FillCount, LeftAfter, AllPieces, Whole, Through, LastStamp, Tables.Filling, Tables.After;
    ghost var r, budget, full := StateOf(s), s.out.budget, s.out.mtu;
    ghost var packets := Cut(s.pid, r.cc, Some(f.Lead(r.last)), f.data);
    ghost var log := s.out.log;
    var ret := s.PushData(f);
    NothingTaken(log, FramePieces(s.pid, r.cc, r.last, r.tables, full, f), s.out.log, s.out.budget);
    if |FramePieces(s.pid, r.cc, r.last, r.tables, full, f)| <= budget {
      AllGoThrough(packets, full, full, budget);
    }
  }

  lemma StoppedAtNothing(log: seq<Piece>, budget: nat, pieces: seq<Piece>, log': seq<Piece>, budget': nat)
    ensures Taken(log, budget, pieces, log', budget') && |pieces| > budget ==> budget' == 0
  {}

  /** The device gets one frame after the other.  The transport gets the pieces of
      the whole run, or as many of them as it takes. */
  method PushFrames(s: Sender, frames: seq<Frame>)
    requires s.View().Valid() && forall f | f in frames :: f.Valid()
    modifies s, s.out
    ensures var r := old(StateOf(s));
            var pieces := r.Pieces(s.pid, s.out.mtu, frames);
      && s.View().Valid()
      && Taken(old(s.out.log), old(s.out.budget), pieces, s.out.log, s.out.budget)
      && (|pieces| <= old(s.out.budget) ==> StateOf(s) == r.After(s.pid, s.out.mtu, frames))
  {
    hide Taken, FramePieces, Run.Next;
    ghost var r, log, budget := StateOf(s), s.out.log, s.out.budget;
    ghost var pid, full := s.pid, s.out.mtu;
    ghost var done, now := [], r;
    TakenNothing(log, budget);
    for i := 0 to |frames|
      invariant s.View().Valid() && Taken(log, budget, done, s.out.log, s.out.budget)
      invariant now.Valid() && (|done| <= budget ==> StateOf(s) == now)
      invariant r.Pieces(pid, full, frames) == done + now.Pieces(pid, full, frames[i..])
      invariant r.After(pid, full, frames) == now.After(pid, full, frames[i..])
    {
      ghost var log1, budget1 := s.out.log, s.out.budget;
      ghost var pieces := FramePieces(pid, now.cc, now.last, now.tables, full, frames[i]);
      assert frames[i..][1..] == frames[i + 1..];
      PushFrame(s, frames[i]);
      StoppedAtNothing(log, budget, done, log1, budget1);
      TakenStep(log, budget, done, log1, budget1, pieces, s.out.log, s.out.budget);
      done, now := done + pieces, now.Next(pid, full, frames[i]);
    }
    assert done + now.Pieces(pid, full, []) == done;
  }
}
