/** The transport under the multiplexer: it takes byte strings one after the
    other, and a string sent without the `more` flag ends a datagram. */
module Datagrams {
  import opened Bytes
  import opened TsPacket

  /** One call of the transport's send. */
  datatype Piece = Piece(bytes: seq<Byte>, more: bool, started: bool)

  /** What a refused send returns: 0 or a negative number. */
  type Refusal = r: int | r <= 0

  /** A transport that takes `budget` more pieces and refuses all the others. */
  class Transport {
    const mtu: nat
    const refusal: Refusal
    var budget: nat
    ghost var log: seq<Piece>

    constructor (mtu: nat, budget: nat, refusal: Refusal)
      ensures this.mtu == mtu && this.refusal == refusal && this.budget == budget && log == []
    {
      this.mtu, this.refusal, this.budget, log := mtu, refusal, budget, [];
    }

    method Send(bytes: seq<Byte>, more: bool, started: bool) returns (ret: int)
      modifies this
      ensures Taken(old(log), old(budget), [Piece(bytes, more, started)], log, budget)
      ensures ret == if old(budget) > 0 then |bytes| else refusal
    {
      if budget == 0 {
        ret := refusal;
        assert [Piece(bytes, more, started)][..0] == [];
      } else {
        budget := budget - 1;
        log := log + [Piece(bytes, more, started)];
        ret := |bytes|;
      }
    }
  }

  /** As many of the pieces were taken, in order, as the budget allowed. */
  ghost predicate Taken(log: seq<Piece>, budget: nat, pieces: seq<Piece>, log': seq<Piece>, budget': nat) {
    if |pieces| <= budget then
      log' == log + pieces && budget' == budget - |pieces|
    else
      log' == log + pieces[..budget] && budget' == 0
  }

  lemma TakenThen(log: seq<Piece>, budget: nat, a: seq<Piece>, log1: seq<Piece>, budget1: nat,
                  b: seq<Piece>, log2: seq<Piece>, budget2: nat)
    requires Taken(log, budget, a, log1, budget1) && Taken(log1, budget1, b, log2, budget2)
    ensures Taken(log, budget, a + b, log2, budget2)
  {
    if |a| + |b| <= budget {
      assert log + (a + b) == (log + a) + b;
    } else if |a| <= budget {
      assert (a + b)[..budget] == a + b[..budget - |a|];
    } else {
      assert b[..0] == [] && (a + b)[..budget] == a[..budget];
    }
  }

  /** A transport that refused once takes nothing more. */
  lemma TakenNone(log: seq<Piece>, pieces: seq<Piece>)
    ensures Taken(log, 0, pieces, log, 0)
  {
    assert pieces[..0] == [] && log + [] == log;
  }

  lemma TakenNothing(log: seq<Piece>, budget: nat)
    ensures Taken(log, budget, [], log, budget)
  {
    assert log + [] == log;
  }

  /** Appending one more step: either the transport still takes pieces, or it
      has stopped and the step is skipped. */
  lemma TakenStep(log: seq<Piece>, budget: nat, a: seq<Piece>, log1: seq<Piece>, budget1: nat,
                  b: seq<Piece>, log2: seq<Piece>, budget2: nat)
    requires Taken(log, budget, a, log1, budget1)
    requires if |a| <= budget then Taken(log1, budget1, b, log2, budget2) else log2 == log1 && budget2 == budget1
    ensures Taken(log, budget, a + b, log2, budget2)
    ensures |a| <= budget ==> budget1 == budget - |a|
  {
    if |a| > budget {
      TakenNone(log1, b);
    }
    TakenThen(log, budget, a, log1, budget1, b, log2, budget2);
  }

  // ----- What arrives -----

  datatype Wire = Wire(datagrams: seq<seq<Byte>>, pending: seq<Byte>)
  {
    function Put(p: Piece): Wire {
      if p.more then Wire(datagrams, pending + p.bytes) else Wire(datagrams + [pending + p.bytes], [])
    }

    function PutAll(pieces: seq<Piece>): Wire
      decreases |pieces|
    {
      if pieces == [] then this else Put(pieces[0]).PutAll(pieces[1..])
    }
  }

  lemma {:induction false} PutAllConcat(w: Wire, a: seq<Piece>, b: seq<Piece>)
    ensures w.PutAll(a + b) == w.PutAll(a).PutAll(b)
    decreases |a|
  {
    if a == [] {
      assert a + b == b;
    } else {
      assert (a + b)[1..] == a[1..] + b;
      PutAllConcat(w.Put(a[0]), a[1..], b);
    }
  }

  // ----- One packet in pieces -----

  function Opening(p: Packet): seq<Piece> {
    [Piece(p.Header(), true, p.pusi)] + Maybe(p.field) + Maybe(p.stuffing) + Maybe(p.pes)
  }

  function Maybe(bytes: seq<Byte>): seq<Piece> {
    if bytes == [] then [] else [Piece(bytes, true, false)]
  }

  /** Only the last piece of a packet may end the datagram. */
  function InPieces(p: Packet, flush: bool): (pieces: seq<Piece>)
    ensures |pieces| > 0
  {
    Opening(p) + [Piece(p.payload, !flush, p.pusi && !flush)]
  }

  lemma {:induction false} AllMore(w: Wire, pieces: seq<Piece>)
    requires forall i | 0 <= i < |pieces| :: pieces[i].more
    ensures w.PutAll(pieces) == Wire(w.datagrams, w.pending + Joined(pieces))
    decreases |pieces|
  {
    if pieces == [] {
      assert w.pending + [] == w.pending;
    } else {
      AllMore(w.Put(pieces[0]), pieces[1..]);
      assert w.pending + pieces[0].bytes + Joined(pieces[1..]) == w.pending + Joined(pieces);
    }
  }

  function Joined(pieces: seq<Piece>): seq<Byte> {
    if pieces == [] then [] else pieces[0].bytes + Joined(pieces[1..])
  }

  /** On the wire a packet in pieces is the packet in one piece. */
  lemma PiecesArriveWhole(w: Wire, p: Packet, flush: bool)
    ensures w.PutAll(InPieces(p, flush)) == w.Put(Piece(p.Content(), !flush, false))
  {
    hide Packet.Header;
    var last := Piece(p.payload, !flush, p.pusi && !flush);
    PutAllConcat(w, Opening(p), [last]);
    AllMore(w, Opening(p));
    OpeningJoined(p);
    assert w.pending + (p.Header() + p.field + p.stuffing + p.pes) + p.payload == w.pending + p.Content();
  }

  lemma {:induction false} JoinedConcat(a: seq<Piece>, b: seq<Piece>)
    ensures Joined(a + b) == Joined(a) + Joined(b)
  {
    if a == [] {
      assert a + b == b;
    } else {
      assert (a + b)[1..] == a[1..] + b;
      JoinedConcat(a[1..], b);
    }
  }

  lemma OpeningJoined(p: Packet)
    ensures Joined(Opening(p)) == p.Header() + p.field + p.stuffing + p.pes
  {
    hide Packet.Header;
    var h := [Piece(p.Header(), true, p.pusi)];
    JoinedConcat(h + Maybe(p.field) + Maybe(p.stuffing), Maybe(p.pes));
    JoinedConcat(h + Maybe(p.field), Maybe(p.stuffing));
    JoinedConcat(h, Maybe(p.field));
  }

  // ----- Grouping whole packets into datagrams -----

  /** Does a packet end the datagram, when `mtu` bytes of it are left? */
  predicate Flushes(mtu: int) {
    mtu < 2 * LENGTH
  }

  /** What is left of the datagram after a packet, or a new one. */
  function Left(full: int, mtu: int): int {
    if Flushes(mtu) then full else mtu - LENGTH
  }

  function LeftAfter(full: int, mtu: int, packets: nat): int
    decreases packets
  {
    if packets == 0 then mtu else LeftAfter(full, Left(full, mtu), packets - 1)
  }

  /** Packets handed over one by one in one piece each. */
  function Whole(packets: seq<seq<Byte>>, full: int, mtu: int): seq<Piece>
    decreases |packets|
  {
    if packets == [] then []
    else [Piece(packets[0], !Flushes(mtu), false)] + Whole(packets[1..], full, Left(full, mtu))
  }

  ghost predicate AreWhole(packets: seq<seq<Byte>>) {
    forall i | 0 <= i < |packets| :: |packets[i]| == LENGTH
  }

  ghost predicate AllOfSize(datagrams: seq<seq<Byte>>, size: int) {
    forall i | 0 <= i < |datagrams| :: |datagrams[i]| == size
  }

  function Group(full: int): int {
    full / LENGTH
  }

  lemma {:induction false} WholeConcat(a: seq<seq<Byte>>, b: seq<seq<Byte>>, full: int, mtu: int)
    ensures Whole(a + b, full, mtu) == Whole(a, full, mtu) + Whole(b, full, LeftAfter(full, mtu, |a|))
    decreases |a|
  {
    if a == [] {
      assert a + b == b;
    } else {
      assert (a + b)[1..] == a[1..] + b;
      WholeConcat(a[1..], b, full, Left(full, mtu));
    }
  }

  /** The packets waiting in a datagram after some more packets, when `group`
      packets fill it. */
  function Waiting(count: nat, packets: nat, group: nat): nat
    decreases packets
  {
    if packets == 0 then count else Waiting(if count + 1 == group then 0 else count + 1, packets - 1, group)
  }

  /** A packet is the last one of its datagram exactly when it completes the
      group; then the count starts again. */
  lemma FlushCompletesGroup(full: int, count: nat)
    requires full >= LENGTH && count < Group(full)
    ensures Flushes(full - LENGTH * count) <==> count + 1 == Group(full)
    ensures Left(full, full - LENGTH * count) == full - LENGTH * (if count + 1 == Group(full) then 0 else count + 1)
  {
    assert full == LENGTH * (full / LENGTH) + full % LENGTH;
  }

  /** Every datagram completed from here on holds exactly as many whole packets as
      fit, no byte is lost or reordered, and the packets not yet flushed are the
      remainder. */
  lemma {:induction false} DatagramsAreGroups(w: Wire, packets: seq<seq<Byte>>, full: int, count: nat)
    requires full >= LENGTH && count < Group(full) && AreWhole(packets)
    requires |w.pending| == LENGTH * count && AllOfSize(w.datagrams, LENGTH * Group(full))
    ensures var w' := w.PutAll(Whole(packets, full, full - LENGTH * count));
            var count' := Waiting(count, |packets|, Group(full));
      && AllOfSize(w'.datagrams, LENGTH * Group(full))
      && count' < Group(full) && |w'.pending| == LENGTH * count'
      && LeftAfter(full, full - LENGTH * count, |packets|) == full - LENGTH * count'
      && Flatten(w'.datagrams) + w'.pending == Flatten(w.datagrams) + w.pending + Flatten(packets)
    decreases |packets|
  {
    hide Flushes, Left, Group;
    var mtu := full - LENGTH * count;
    if packets != [] {
      var piece := Piece(packets[0], !Flushes(mtu), false);
      var pieces := Whole(packets, full, mtu);
      FlushCompletesGroup(full, count);
      PutKeepsBytes(w, piece);
      assert pieces[0] == piece && pieces[1..] == Whole(packets[1..], full, Left(full, mtu));
      DatagramsAreGroups(w.Put(piece), packets[1..], full, if count + 1 == Group(full) then 0 else count + 1);
      assert Flatten(w.datagrams) + w.pending + packets[0] + Flatten(packets[1..])
          == Flatten(w.datagrams) + w.pending + Flatten(packets);
    }
  }

  lemma PutKeepsBytes(w: Wire, p: Piece)
    ensures var w' := w.Put(p); Flatten(w'.datagrams) + w'.pending == Flatten(w.datagrams) + w.pending + p.bytes
  {
    if !p.more {
      FlattenConcat(w.datagrams, [w.pending + p.bytes]);
      assert Flatten([w.pending + p.bytes]) == w.pending + p.bytes;
    }
  }

  // ----- Completing the last datagram of a frame -----

  /** How many packets the filling adds: it stops when no more than one packet
      would fit. */
  function FillCount(mtu: int): nat {
    if mtu > LENGTH then (mtu - 1) / LENGTH else 0
  }

  lemma {:induction false} WaitingAfterFill(count: nat, packets: nat, group: nat)
    requires count + packets <= group && count < group
    ensures Waiting(count, packets, group) == if count + packets == group && packets > 0 then 0 else count + packets
    decreases packets
  {
    if packets > 1 {
      WaitingAfterFill(count + 1, packets - 1, group);
    }
  }

  /** The filling ends on a flush, unless packets divide the datagram evenly and
      more than one fits: then it stops one packet short. */
  lemma FillCompletesGroup(full: int, count: nat)
    requires full >= LENGTH && count < Group(full)
    ensures var n := FillCount(full - LENGTH * count);
      && n == (if full % LENGTH != 0 then Group(full) - count else Group(full) - count - 1)
      && Waiting(count, n, Group(full)) == (if full % LENGTH != 0 || full < 2 * LENGTH then 0 else Group(full) - 1)
  {
    assert full == LENGTH * (full / LENGTH) + full % LENGTH;
    WaitingAfterFill(count, FillCount(full - LENGTH * count), Group(full));
  }
}
