/** The multiplexer's sending loop: a frame is cut into transport packets, the
    packets are handed to the transport piece by piece, and the last pieces of
    some of them end a datagram. */
module Multiplexer {
  import opened Bytes
  import opened SmoothClock
  import opened TsPacket
  import opened Datagrams

  function AllPieces(packets: seq<Packet>, full: int, mtu: int): seq<Piece>
    decreases |packets|
  {
    if packets == [] then [] else InPieces(packets[0], Flushes(mtu)) + AllPieces(packets[1..], full, Left(full, mtu))
  }

  /** How many packets get through completely before the transport refuses. */
  function Through(packets: seq<Packet>, budget: nat): nat
    decreases |packets|
  {
    if packets == [] || |InPieces(packets[0], true)| > budget then 0
    else 1 + Through(packets[1..], budget - |InPieces(packets[0], true)|)
  }

  /** The last time stamp after a frame: the stamp plus 90, except that a sum
      wrapping to 0 is forgotten. */
  function LastStamp(lead: Lead): Tick {
    if lead.Pts() > 0 then lead.Pts() else lead.last
  }

  function Min(a: nat, b: nat): nat {
    if a < b then a else b
  }

  /** A four-bit counter. */
  type Counter = c: nat | c < 16

  // ----- The packets that complete a datagram -----

  /** The program tables, and the fourth byte of the null packet. */
  datatype Tables = Tables(pmt: seq<Byte>, pat: seq<Byte>, sdt: seq<Byte>, nulls: Byte)
  {
    predicate Valid() {
      |pmt| == LENGTH && |pat| == LENGTH && |sdt| == LENGTH
    }

    /** The i-th packet of a filling. */
    function Filler(i: nat): (packet: seq<Byte>)
      requires Valid()
      ensures |packet| == LENGTH
    {
      if i == 0 then NextCopy(pmt) else if i == 1 then NextCopy(pat) else if i == 2 then NextCopy(sdt)
      else NullPacket(NullAfter(nulls, i - 3))
    }

    function Filling(n: nat): (packets: seq<seq<Byte>>)
      requires Valid()
      ensures |packets| == n && AreWhole(packets)
    {
      seq(n, i requires 0 <= i => Filler(i))
    }

    /** After a filling: a table is counted on when it is tried, a null packet when
        it is accepted. */
    function After(tried: nat, accepted: nat): Tables
      requires Valid()
    {
      Tables(if tried > 0 then NextCopy(pmt) else pmt, if tried > 1 then NextCopy(pat) else pat,
             if tried > 2 then NextCopy(sdt) else sdt, if accepted > 3 then NullAfter(nulls, accepted - 3) else nulls)
    }
  }

  /** A table packet with its continuity counter moved on. */
  function NextCopy(raw: seq<Byte>): (copy: seq<Byte>)
    requires |raw| == LENGTH
    ensures |copy| == LENGTH
  {
    raw[3 := (raw[3] & 0xf0) | ((raw[3] + 1) & 0x0f)]
  }

  function NullPacket(flags: Byte): (packet: seq<Byte>)
    ensures |packet| == LENGTH
  {
    [SYNC, 0x1f, 0xff, flags] + Fill(0xff, LENGTH - 4)
  }

  function NullAfter(flags: Byte, n: nat): Byte
    decreases n
  {
    if n == 0 then flags else NullAfter((flags + 1) % 0x0f, n - 1)
  }

  lemma {:induction false} OneMoreNull(flags: Byte, n: nat)
    ensures NullAfter(flags, n + 1) == (NullAfter(flags, n) + 1) % 0x0f
    decreases n
  {
    if n > 0 {
      OneMoreNull((flags + 1) % 0x0f, n - 1);
    }
  }

  /** The first k packets of a filling went through. */
  ghost predicate FillState(t: Tables, full: int, mtu: int, k: nat, log: seq<Piece>, budget: nat,
                            log': seq<Piece>, budget': nat)
    requires t.Valid()
  {
    var pieces := Whole(t.Filling(FillCount(mtu)), full, mtu);
    && k <= FillCount(mtu) == |pieces| && budget == k + budget'
    && Taken(log, budget, pieces[..k], log', budget')
  }

  lemma {:induction false} WholeAt(packets: seq<seq<Byte>>, full: int, mtu: int, k: nat)
    requires k < |packets| && mtu - LENGTH * k > LENGTH
    ensures |Whole(packets, full, mtu)| == |packets|
    ensures Whole(packets, full, mtu)[k] == Piece(packets[k], !Flushes(mtu - LENGTH * k), false)
    decreases |packets|
  {
    WholeLength(packets, full, mtu);
    if k > 0 {
      WholeAt(packets[1..], full, mtu - LENGTH, k - 1);
    }
  }

  lemma OneInWhole(packets: seq<seq<Byte>>, full: int, mtu: int)
    requires |packets| <= 1
    ensures Whole(packets, full, mtu) == if packets == [] then [] else [Piece(packets[0], !Flushes(mtu), false)]
    ensures LeftAfter(full, mtu, |packets|) == if packets == [] then mtu else Left(full, mtu)
  {
    hide Flushes, Left;
    if packets != [] {
      assert LeftAfter(full, Left(full, mtu), 0) == Left(full, mtu);
    }
  }

  lemma {:induction false} WholeLength(packets: seq<seq<Byte>>, full: int, mtu: int)
    ensures |Whole(packets, full, mtu)| == |packets|
    decreases |packets|
  {
    if packets != [] {
      WholeLength(packets[1..], full, Left(full, mtu));
    }
  }

  lemma FillStarts(t: Tables, full: int, mtu: int, log: seq<Piece>, budget: nat)
    requires t.Valid()
    ensures FillState(t, full, mtu, 0, log, budget, log, budget)
  {
    hide Tables.Filling, Taken;
    WholeLength(t.Filling(FillCount(mtu)), full, mtu);
    TakenNothing(log, budget);
  }

  /** There is room for packet k of a filling exactly if it has one. */
  lemma RoomForMore(mtu: int, k: nat)
    ensures k < FillCount(mtu) <==> mtu - LENGTH * k > LENGTH
  {}

  lemma FillStep(t: Tables, full: int, mtu: int, k: nat, log: seq<Piece>, budget: nat,
                 log1: seq<Piece>, budget1: nat, log2: seq<Piece>, budget2: nat)
    requires t.Valid() && FillState(t, full, mtu, k, log, budget, log1, budget1) && mtu - LENGTH * k > LENGTH
    requires Taken(log1, budget1, [Piece(t.Filler(k), !Flushes(mtu - LENGTH * k), false)], log2, budget2)
    ensures if budget1 > 0 then FillState(t, full, mtu, k + 1, log, budget, log2, budget2)
            else k == budget < FillCount(mtu)
                 && Taken(log, budget, Whole(t.Filling(FillCount(mtu)), full, mtu), log2, budget2)
  {
    hide FillCount, Tables.Filler, Flushes;
    var pieces := Whole(t.Filling(FillCount(mtu)), full, mtu);
    RoomForMore(mtu, k);
    WholeAt(t.Filling(FillCount(mtu)), full, mtu, k);
    TakenThen(log, budget, pieces[..k], log1, budget1, [pieces[k]], log2, budget2);
    assert pieces[..k + 1] == pieces[..k] + [pieces[k]];
    RefusedFor(log, budget, pieces[..k + 1], log2, budget2, pieces);
  }

  lemma FillEnds(t: Tables, full: int, mtu: int, k: nat, log: seq<Piece>, budget: nat, log': seq<Piece>, budget': nat)
    requires t.Valid()
    ensures FillState(t, full, mtu, k, log, budget, log', budget') && mtu - LENGTH * k <= LENGTH ==>
              && k == FillCount(mtu) <= budget
              && Taken(log, budget, Whole(t.Filling(FillCount(mtu)), full, mtu), log', budget')
  {
    hide FillCount;
    RoomForMore(mtu, k);
    var pieces := Whole(t.Filling(FillCount(mtu)), full, mtu);
    assert pieces[..|pieces|] == pieces;
  }

  // ----- A whole frame -----

  /** A frame as it is pushed: its data, its stamp, and the packet of the KLV
      stream when there is one. */
  datatype Frame = Frame(data: seq<Byte>, stamp: Option<Tick>, random: bool, klv: Option<seq<Byte>>)
  {
    predicate Valid() {
      klv.Some? ==> |klv.value| == LENGTH
    }

    function Lead(last: Tick): Lead {
      TsPacket.Lead.Lead(stamp, random, last)
    }

    function Klv(): seq<seq<Byte>> {
      if klv.Some? then [klv.value] else []
    }
  }

  /** What a frame hands to the transport, in order. */
  function FramePieces(pid: Byte, cc: Counter, last: Tick, tables: Tables, full: int, f: Frame): seq<Piece>
    requires tables.Valid() && f.Valid()
  {
    var packets := Cut(pid, cc, Some(f.Lead(last)), f.data);
    var mtu := LeftAfter(full, full, |packets|);
    var left := LeftAfter(full, mtu, |f.Klv()|);
    AllPieces(packets, full, full) + Whole(f.Klv(), full, mtu) + Whole(tables.Filling(FillCount(left)), full, left)
  }

  class Sender {
    const pid: Byte
    const out: Transport
    var cc: Counter
    var pcr: Tick
    var pmt: seq<Byte>
    var pat: seq<Byte>
    var sdt: seq<Byte>
    var nulls: Byte

    constructor (pid: Byte, out: Transport, tables: Tables)
      ensures this.pid == pid && this.out == out && cc == 0 && pcr == 0 && View() == tables
    {
      this.pid, this.out, cc, pcr := pid, out, 0, 0;
      pmt, pat, sdt, nulls := tables.pmt, tables.pat, tables.sdt, tables.nulls;
    }

    ghost function View(): Tables
      reads this
    {
      Tables(pmt, pat, sdt, nulls)
    }

    /** Push a frame: its packets, the KLV packet, the tables and null packets.
        The result is 0, or what the transport refused with. */
    method PushData(f: Frame) returns (ret: int)
      requires f.Valid() && View().Valid()
      modifies this, out
      ensures var packets := Cut(pid, old(cc), Some(f.Lead(old(pcr))), f.data);
              var pieces := FramePieces(pid, old(cc), old(pcr), old(View()), out.mtu, f);
              var through := Through(packets, old(out.budget));
        && Taken(old(out.log), old(out.budget), pieces, out.log, out.budget)
        && ret == (if |pieces| <= old(out.budget) then 0 else out.refusal)
        && cc == (old(cc) + through) % 16
        && pcr == (if through > 0 then LastStamp(f.Lead(old(pcr))) else old(pcr))
        && View().Valid()
        && (|pieces| <= old(out.budget) ==>
              var n := FillCount(LeftAfter(out.mtu, LeftAfter(out.mtu, out.mtu, |packets|), |f.Klv()|));
              View() == old(View()).After(n, n))
    {
      hide Taken, Whole, AllPieces, Through, Cut, LeftAfter, FillCount, LastStamp, Tables.Filling, NextCopy, NullAfter,
           Flushes;
      ghost var log, budget := out.log, out.budget;
      ghost var packets := Cut(pid, cc, Some(f.Lead(pcr)), f.data);
      ghost var video := AllPieces(packets, out.mtu, out.mtu);
      var mtu;
      ret, mtu := PushFrame(f.data, f.stamp, f.random);
      ghost var left := LeftAfter(out.mtu, out.mtu, |packets|);
      ghost var klv := Whole(f.Klv(), out.mtu, left);
      ghost var log1, budget1 := out.log, out.budget;
      OneInWhole(f.Klv(), out.mtu, left);
      if ret > 0 && f.klv.Some? {
        var flush := Flushes(mtu);
        ret, mtu := SendWhole(f.klv.value, mtu);
        if ret > 0 && flush {
          mtu := out.mtu;
        }
      } else {
        TakenNothing(log1, budget1);
      }
      TakenStep(log, budget, video, log1, budget1, klv, out.log, out.budget);
      ghost var log2, budget2 := out.log, out.budget;
      ghost var rest := Whole(View().Filling(FillCount(LeftAfter(out.mtu, left, |f.Klv()|))), out.mtu,
                              LeftAfter(out.mtu, left, |f.Klv()|));
      WholeLength(View().Filling(FillCount(LeftAfter(out.mtu, left, |f.Klv()|))), out.mtu,
                  LeftAfter(out.mtu, left, |f.Klv()|));
      if ret > 0 {
        ret := FillData(mtu);
        if ret > 0 {
          ret := 0;
        }
      }
      TakenStep(log, budget, video + klv, log2, budget2, rest, out.log, out.budget);
    }

    /** Where a filling stands after k accepted packets, or after being refused. */
    ghost predicate Filled(t: Tables, mtu: int, k: nat, log: seq<Piece>, budget: nat, ret: int, left: int, length: int)
      requires t.Valid()
      reads this, out
    {
      if ret > 0 then
        && left == mtu - LENGTH * k && FillState(t, out.mtu, mtu, k, log, budget, out.log, out.budget)
        && View() == t.After(k, k)
        && (if k == 0 then length == 0 else ret == LENGTH && length == LENGTH * (k - 1))
      else
        && ret == out.refusal && k == budget < FillCount(mtu) && View() == t.After(k + 1, k)
        && Taken(log, budget, Whole(t.Filling(FillCount(mtu)), out.mtu, mtu), out.log, out.budget)
    }

    /** Complete the datagram with the tables and null packets. */
    method FillData(mtu: int) returns (ret: int)
      requires View().Valid()
      modifies this, out
      ensures var n := FillCount(mtu);
        && Taken(old(out.log), old(out.budget), Whole(old(View()).Filling(n), out.mtu, mtu), out.log, out.budget)
        && View() == old(View()).After(Min(n, old(out.budget) + 1), Min(n, old(out.budget)))
        && cc == old(cc) && pcr == old(pcr)
        && ret == if n <= old(out.budget) then (if n > 0 then LENGTH * (n - 1) else 0) else out.refusal
    {
      hide Taken, Whole, Tables.Filling, NextCopy, NullPacket, FillCount, FillState, Flushes;
      ghost var t, log, budget := View(), out.log, out.budget;
      ghost var k;
      var left, length;
      ret, left, length, k := SendTables(mtu);
      while ret > 0 && left > LENGTH
        invariant Filled(t, mtu, k, log, budget, ret, left, length)
        invariant ret > 0 && k < 3 ==> left <= LENGTH
        invariant cc == old(cc) && pcr == old(pcr)
        decreases left, ret
      {
        ghost var log3, budget3 := out.log, out.budget;
        length := length + ret;
        var packet := NullPacket(nulls);
        ret, left := SendWhole(packet, left);
        FillStep(t, out.mtu, mtu, k, log, budget, log3, budget3, out.log, out.budget);
        OneMoreNull(t.nulls, k - 3);
        if ret > 0 {
          k := k + 1;
          nulls := (nulls + 1) % 0x0f;
        }
      }
      FillEnds(t, out.mtu, mtu, k, log, budget, out.log, out.budget);
      if ret > 0 {
        ret := length;
      }
    }

    method SendTables(mtu: int) returns (ret: int, left: int, length: int, ghost k: nat)
      requires View().Valid()
      modifies this, out
      ensures Filled(old(View()), mtu, k, old(out.log), old(out.budget), ret, left, length)
      ensures ret > 0 && k < 3 ==> left <= LENGTH
      ensures cc == old(cc) && pcr == old(pcr)
    {
      hide Taken, Whole, Tables.Filling, NextCopy, NullPacket, FillCount, FillState, Flushes;
      ghost var t, log, budget := View(), out.log, out.budget;
      k, left, length, ret := 0, mtu, 0, 1;
      FillStarts(t, out.mtu, mtu, log, budget);
      if ret > 0 && left > LENGTH {
        ghost var log0, budget0 := out.log, out.budget;
        pmt := NextCopy(pmt);
        ret, left := SendWhole(pmt, left);
        FillStep(t, out.mtu, mtu, 0, log, budget, log0, budget0, out.log, out.budget);
        if ret > 0 {
          k := 1;
        }
      }
      if ret > 0 && left > LENGTH {
        ghost var log1, budget1 := out.log, out.budget;
        length := length + ret;
        pat := NextCopy(pat);
        ret, left := SendWhole(pat, left);
        FillStep(t, out.mtu, mtu, 1, log, budget, log1, budget1, out.log, out.budget);
        if ret > 0 {
          k := 2;
        }
      }
      if ret > 0 && left > LENGTH {
        ghost var log2, budget2 := out.log, out.budget;
        length := length + ret;
        sdt := NextCopy(sdt);
        ret, left := SendWhole(sdt, left);
        FillStep(t, out.mtu, mtu, 2, log, budget, log2, budget2, out.log, out.budget);
        if ret > 0 {
          k := 3;
        }
      }
    }

    /** One packet in one piece. */
    method SendWhole(packet: seq<Byte>, mtu: int) returns (ret: int, left: int)
      requires |packet| == LENGTH
      modifies out
      ensures Taken(old(out.log), old(out.budget), [Piece(packet, !Flushes(mtu), false)], out.log, out.budget)
      ensures if old(out.budget) > 0 then ret == LENGTH && left == mtu - LENGTH && out.budget == old(out.budget) - 1
              else ret == out.refusal && left == mtu && out.budget == 0
    {
      ret := out.Send(packet, !Flushes(mtu), false);
      left := if ret == LENGTH then mtu - ret else mtu;
    }

    /** The adaptation field: its flags, and stuffing up to `padding` bytes in all. */
    method SendField(flags: seq<Byte>, padding: int, room: int, mtu: int) returns (ret: int, buflength: int, left: int)
      requires flags != []
      modifies out
      ensures var size := Max(1 + |flags|, padding);
              var pieces := FieldPieces(flags, size);
        && Taken(old(out.log), old(out.budget), pieces, out.log, out.budget)
        && (if |pieces| <= old(out.budget)
            then ret > 0 && buflength - ret == room - size && left - ret == mtu - size
            else ret == out.refusal)
    {
      hide Octet, Taken;
      ghost var log, budget := out.log, out.budget;
      buflength, left := room, mtu;
      var size := 1 + |flags|;
      var paddinglength := padding - size;
      if paddinglength > 0 {
        size := size + paddinglength;
      } else {
        paddinglength := 0;
      }
      ret := out.Send([Octet(size - 1)] + flags, true, false);
      ghost var first, log1, budget1 := [Piece([Octet(size - 1)] + flags, true, false)], out.log, out.budget;
      if ret > 0 && paddinglength > 0 {
        buflength := buflength - ret;
        left := left - ret;
        ret := out.Send(Fill(0xff, paddinglength), true, false);
      } else {
        TakenNothing(log1, budget1);
      }
      TakenStep(log, budget, first, log1, budget1, Maybe(Fill(0xff, paddinglength)), out.log, out.budget);
    }

    /** The loop over a frame.  The transport gets the pieces of all the packets of
        the frame, or as many as it takes; the counter has advanced by the number
        of packets that went through. */
    method PushFrame(frame: seq<Byte>, stamp: Option<Tick>, random: bool) returns (ret: int, mtu: int)
      modifies this, out
      ensures var lead := Lead(stamp, random, old(pcr));
              var packets := Cut(pid, old(cc), Some(lead), frame);
              var pieces := AllPieces(packets, out.mtu, out.mtu);
              var through := Through(packets, old(out.budget));
        && Taken(old(out.log), old(out.budget), pieces, out.log, out.budget)
        && cc == (old(cc) + through) % 16
        && pcr == (if through > 0 then LastStamp(lead) else old(pcr))
        && View() == old(View())
        && (if |pieces| <= old(out.budget) then ret > 0 && mtu == LeftAfter(out.mtu, out.mtu, |packets|)
            else ret == out.refusal)
    {
      hide Taken, NextPacket, InPieces, Cut, AllPieces, Through, LeftAfter, Left, Flushes, Going, LastStamp, Lead.Pts;
      ghost var log, budget := out.log, out.budget;
      ghost var cc0: nat := cc;
      ghost var first := Lead(stamp, random, pcr);
      ghost var packets := Cut(pid, cc, Some(first), frame);
      ghost var pieces := AllPieces(packets, out.mtu, out.mtu);
      ghost var done, sent := [], 0;
      var lead := Some(Lead(stamp, random, pcr));
      var buffer := frame;
      ret := 1;
      mtu := out.mtu;
      TakenNothing(log, budget);
      GoingStarts(pid, cc, first, frame, out.mtu, budget);
      while buffer != [] && ret > 0
        invariant Taken(log, budget, done, out.log, out.budget)
        invariant pcr == if sent > 0 then LastStamp(first) else old(pcr)
        invariant cc == (cc0 + sent) % 16 && View() == old(View())
        invariant lead == if sent == 0 then Some(first) else None
        invariant ret > 0 ==>
          Going(pid, cc, lead, buffer, out.mtu, mtu, done, sent, budget, out.budget, pieces, packets)
        invariant ret <= 0 ==>
          ret == out.refusal && done == pieces && |pieces| > budget && sent == Through(packets, budget)
        decreases |buffer|, ret
      {
        ghost var log1, budget1 := out.log, out.budget;
        ghost var now := InPieces(NextPacket(pid, cc, lead, buffer), Flushes(mtu));
        GoingNext(pid, cc, lead, buffer, out.mtu, mtu, done, sent, budget, out.budget, pieces, packets);
        var flush := Flushes(mtu);
        ret, mtu := SendNext(lead, buffer, mtu);
        TakenThen(log, budget, done, log1, budget1, now, out.log, out.budget);
        if ret > 0 {
          TakenAll(log, budget, done + now, out.log, out.budget);
          done := done + now;
          mtu := mtu - ret;
          if flush {
            mtu := out.mtu;
          }
          buffer := buffer[ret..];
          if lead.Some? && lead.value.Pts() > 0 {
            pcr := lead.value.Pts();
          }
          LastStampIs(first);
          lead := None;
          CountOneMore(cc0 + sent);
          sent := sent + 1;
          var count: nat := cc;
          cc := (count + 1) % 16;
        } else {
          RefusedFor(log, budget, done + now, out.log, out.budget, pieces);
          done := pieces;
        }
      }
      if ret > 0 {
        GoingEnds(pid, cc, lead, out.mtu, mtu, done, sent, budget, out.budget, pieces, packets);
      }
    }

    /** One packet with the next part of the data. */
    method SendNext(lead: Option<Lead>, data: seq<Byte>, mtu: int) returns (ret: int, left: int)
      requires data != []
      modifies out
      ensures var p := NextPacket(pid, cc, lead, data);
        && Taken(old(out.log), old(out.budget), InPieces(p, Flushes(mtu)), out.log, out.budget)
        && (if |InPieces(p, Flushes(mtu))| <= old(out.budget)
            then ret == |p.payload| && left == mtu - (LENGTH - |p.payload|)
            else ret == out.refusal)
    {
      hide Taken, Lead.Flags, Lead.Pes, Octet, FieldPieces, TailPieces, NextPacket, Packet.Header, HeaderBytes;
      ghost var log, budget := out.log, out.budget;
      ghost var p := NextPacket(pid, cc, lead, data);
      NextPacketShape(pid, cc, lead, data);
      FieldPiecesOf(pid, cc, lead, data);
      left := mtu;
      var pusi := lead.Some?;
      var buflength := LENGTH;
      var reserved := HEADER_LENGTH + if pusi then PES_HEADER_LENGTH else 0;
      var paddinglength := 0;
      var adaptation := pusi && lead.value.stamp.Some?;
      if buflength - reserved > |data| {
        paddinglength := buflength - reserved - |data|;
        adaptation := true;
      }
      var header := HeaderBytes(pid, pusi, adaptation, cc);
      HeaderOf(p);
      ret := out.Send(header, true, pusi);
      ghost var done := [Piece(p.Header(), true, p.pusi)];
      ghost var log1, budget1 := out.log, out.budget;
      if ret > 0 && adaptation {
        var flags := if pusi then lead.value.Flags() else [0x00];
        ret, buflength, left := SendField(flags, paddinglength, buflength - ret, left - ret);
      } else {
        TakenNothing(log1, budget1);
      }
      TakenStep(log, budget, done, log1, budget1, Maybe(p.field) + Maybe(p.stuffing), out.log, out.budget);
      done := done + (Maybe(p.field) + Maybe(p.stuffing));
      assert ret > 0 <==> |done| <= budget;
      assert ret > 0 ==> buflength - ret == LENGTH - HEADER_LENGTH - |p.field| - |p.stuffing|;
      assert ret > 0 ==> left - ret == mtu - HEADER_LENGTH - |p.field| - |p.stuffing|;

      log1, budget1 := out.log, out.budget;
      if ret > 0 {
        ret, left := SendPayload(lead, data, buflength - ret, left - ret, mtu);
      }
      TakenStep(log, budget, done, log1, budget1, TailPieces(p, Flushes(mtu)), out.log, out.budget);
      PiecesInOrder(p, Flushes(mtu));
    }

    /** The PES header, if any, and the data that fills the packet up. */
    method SendPayload(lead: Option<Lead>, data: seq<Byte>, room: int, rest: int, mtu: int) returns (ret: int, left: int)
      requires data != [] && NextPacket(pid, cc, lead, data).pes == (if lead.Some? then lead.value.Pes() else [])
      requires var p := NextPacket(pid, cc, lead, data); room == |p.pes| + |p.payload| && p.payload == data[..|p.payload|]
      modifies out
      ensures var p := NextPacket(pid, cc, lead, data);
              var pieces := TailPieces(p, Flushes(mtu));
        && Taken(old(out.log), old(out.budget), pieces, out.log, out.budget)
        && (if |pieces| <= old(out.budget) then ret == |p.payload| && left == rest - |p.pes| else ret == out.refusal)
    {
      hide Taken, NextPacket, Lead.Pes;
      ghost var log, budget := out.log, out.budget;
      ghost var p := NextPacket(pid, cc, lead, data);
      NextPacketShape(pid, cc, lead, data);
      left := rest;
      var buflength := room;
      ret := 1;
      if lead.Some? {
        ret := out.Send(lead.value.Pes(), true, false);
        if ret > 0 {
          buflength := buflength - ret;
          left := left - ret;
        }
      } else {
        TakenNothing(log, budget);
      }
      ghost var log1, budget1 := out.log, out.budget;
      if ret > 0 {
        ret := out.Send(data[..buflength], !Flushes(mtu), lead.Some? && !Flushes(mtu));
      }
      ghost var last := [Piece(p.payload, !Flushes(mtu), lead.Some? && !Flushes(mtu))];
      TakenStep(log, budget, Maybe(p.pes), log1, budget1, last, out.log, out.budget);
    }
  }

  lemma AllPiecesNext(pid: Byte, cc: Counter, lead: Option<Lead>, data: seq<Byte>, full: int, mtu: int, budget: nat)
    requires data != []
    ensures var p := NextPacket(pid, cc, lead, data);
            var packets, rest := Cut(pid, cc, lead, data), Cut(pid, (cc + 1) % 16, None, data[|p.payload|..]);
            var pieces := InPieces(p, Flushes(mtu));
      && AllPieces(packets, full, mtu) == pieces + AllPieces(rest, full, Left(full, mtu))
      && LeftAfter(full, mtu, |packets|) == LeftAfter(full, Left(full, mtu), |rest|)
      && Through(packets, budget) == (if |pieces| <= budget then 1 + Through(rest, budget - |pieces|) else 0)
  {
    hide NextPacket, Packet.Header, Opening;
    var p := NextPacket(pid, cc, lead, data);
    var packets, rest := Cut(pid, cc, lead, data), Cut(pid, (cc + 1) % 16, None, data[|p.payload|..]);
    assert packets[0] == p && packets[1..] == rest;
  }

  /** Between two packets: what was sent and what is still to be sent make up
      the pieces of the frame, and so do the counts. */
  ghost predicate Going(pid: Byte, cc: Counter, lead: Option<Lead>, buffer: seq<Byte>, full: int, mtu: int,
                        done: seq<Piece>, sent: nat, budget: nat, budget': nat,
                        pieces: seq<Piece>, packets: seq<Packet>)
  {
    var rest := Cut(pid, cc, lead, buffer);
    && budget == |done| + budget'
    && pieces == done + AllPieces(rest, full, mtu)
    && Through(packets, budget) == sent + Through(rest, budget')
    && LeftAfter(full, full, |packets|) == LeftAfter(full, mtu, |rest|)
  }

  lemma GoingStarts(pid: Byte, cc: Counter, lead: Lead, frame: seq<Byte>, full: int, budget: nat)
    ensures var packets := Cut(pid, cc, Some(lead), frame);
            Going(pid, cc, Some(lead), frame, full, full, [], 0, budget, budget, AllPieces(packets, full, full), packets)
  {
    hide Cut, AllPieces, Through, LeftAfter;
  }

  /** Either the next packet goes through and the loop goes on, or the transport
      stops inside it. */
  lemma GoingNext(pid: Byte, cc: Counter, lead: Option<Lead>, buffer: seq<Byte>, full: int, mtu: int,
                  done: seq<Piece>, sent: nat, budget: nat, budget': nat, pieces: seq<Piece>, packets: seq<Packet>)
    requires buffer != []
    ensures var p := NextPacket(pid, cc, lead, buffer);
            var now := InPieces(p, Flushes(mtu));
            0 < |p.payload| <= |buffer| &&
            (Going(pid, cc, lead, buffer, full, mtu, done, sent, budget, budget', pieces, packets) ==>
              && done + now <= pieces && budget' == budget - |done|
              && Left(full, mtu) == (if Flushes(mtu) then full else mtu - LENGTH)
              && (if |now| <= budget' then
                    Going(pid, (cc + 1) % 16, None, buffer[|p.payload|..], full, Left(full, mtu), done + now, sent + 1,
                          budget, budget' - |now|, pieces, packets)
                  else
                    |done + now| > budget && sent == Through(packets, budget)))
  {
    hide NextPacket, InPieces, Cut, AllPieces, Through, LeftAfter;
    AllPiecesNext(pid, cc, lead, buffer, full, mtu, budget');
    var p := NextPacket(pid, cc, lead, buffer);
    var now := InPieces(p, Flushes(mtu));
    var later := AllPieces(Cut(pid, (cc + 1) % 16, None, buffer[|p.payload|..]), full, Left(full, mtu));
    assert done + (now + later) == done + now + later;
  }

  lemma GoingEnds(pid: Byte, cc: Counter, lead: Option<Lead>, full: int, mtu: int,
                  done: seq<Piece>, sent: nat, budget: nat, budget': nat, pieces: seq<Piece>, packets: seq<Packet>)
    ensures Going(pid, cc, lead, [], full, mtu, done, sent, budget, budget', pieces, packets) ==>
              && done == pieces && |pieces| <= budget && sent == Through(packets, budget)
              && mtu == LeftAfter(full, full, |packets|)
  {
    assert done + [] == done;
  }

  lemma TakenAll(log: seq<Piece>, budget: nat, pieces: seq<Piece>, log': seq<Piece>, budget': nat)
    ensures Taken(log, budget, pieces, log', budget') && |pieces| <= budget ==> budget' == budget - |pieces|
  {}

  /** A transport that stopped inside a prefix also stopped inside the whole. */
  lemma RefusedFor(log: seq<Piece>, budget: nat, a: seq<Piece>, log': seq<Piece>, budget': nat, pieces: seq<Piece>)
    ensures Taken(log, budget, a, log', budget') && |a| > budget && a <= pieces ==>
              Taken(log, budget, pieces, log', budget') && |pieces| > budget
  {
    if |a| > budget && a <= pieces {
      assert pieces[..budget] == a[..budget];
    }
  }

  lemma CountOneMore(n: nat)
    ensures (n % 16 + 1) % 16 == (n + 1) % 16
  {}

  lemma LastStampIs(lead: Lead)
    ensures LastStamp(lead) == if lead.Pts() > 0 then lead.Pts() else lead.last
  {}

  function TailPieces(p: Packet, flush: bool): seq<Piece> {
    Maybe(p.pes) + [Piece(p.payload, !flush, p.pusi && !flush)]
  }

  function FieldPieces(flags: seq<Byte>, size: int): seq<Piece>
    requires size > |flags|
  {
    [Piece([Octet(size - 1)] + flags, true, false)] + Maybe(Fill(0xff, size - 1 - |flags|))
  }

  lemma HeaderOf(p: Packet)
    ensures p.Header() == HeaderBytes(p.pid, p.pusi, p.field != [], p.cc)
  {
    hide Octet;
  }

  lemma PiecesInOrder(p: Packet, flush: bool)
    ensures InPieces(p, flush)
         == [Piece(p.Header(), true, p.pusi)] + (Maybe(p.field) + Maybe(p.stuffing)) + TailPieces(p, flush)
  {
    hide Packet.Header;
  }

  lemma FieldShape(pid: Byte, cc: nat, lead: Option<Lead>, data: seq<Byte>)
    requires data != []
    ensures var p := NextPacket(pid, cc, lead, data);
            var flags := if lead.Some? then lead.value.Flags() else [0x00];
            var room := LENGTH - HEADER_LENGTH - |p.pes|;
            var size := Max(1 + |flags|, room - |data|);
      && (p.field != [] <==> (lead.Some? && lead.value.stamp.Some?) || |data| < room)
      && (p.field == [] ==> p.stuffing == [])
      && (p.field != [] ==> p.field == [Octet(size - 1)] + flags && p.stuffing == Fill(0xff, size - 1 - |flags|))
  {
    hide Lead.Flags, Lead.Pes, Octet, Fill;
  }

  lemma FieldPiecesOf(pid: Byte, cc: nat, lead: Option<Lead>, data: seq<Byte>)
    requires data != []
    ensures var p := NextPacket(pid, cc, lead, data);
            var flags := if lead.Some? then lead.value.Flags() else [0x00];
            var room := LENGTH - HEADER_LENGTH - |p.pes|;
      && (p.field != [] <==> (lead.Some? && lead.value.stamp.Some?) || |data| < room)
      && (p.field == [] ==> p.stuffing == [])
      && (p.field != [] ==>
            && |p.field| + |p.stuffing| == Max(1 + |flags|, room - |data|)
            && FieldPieces(flags, |p.field| + |p.stuffing|) == Maybe(p.field) + Maybe(p.stuffing))
  {
    hide Lead.Flags, Lead.Pes, Octet, NextPacket;
    FieldShape(pid, cc, lead, data);
  }
}
