/** What a receiver of the program tables gets, over whole runs of the multiplexer:
    each table again and again, counted on, and from the PAT the way to the video. */
module TableReception {
  import opened Bytes
  import opened TsPacket
  import opened Datagrams
  import opened Multiplexer
  import opened Streams
  import opened Reception
  import Crc32
  import Klv
  import MetaReception
  import Psi

  // ----- The packets of one pid -----

  predicate IsOf(pid: bv16, packet: seq<Byte>) {
    |packet| == LENGTH && packet[0] == SYNC && PidOf(packet) == pid
  }

  function Kept(pid: bv16, packet: seq<Byte>): seq<seq<Byte>> {
    if IsOf(pid, packet) then [packet] else []
  }

  /** The packets that a receiver of the pid keeps, in order. */
  function OfPid(pid: bv16, packets: seq<seq<Byte>>): seq<seq<Byte>> {
    if packets == [] then [] else Kept(pid, packets[0]) + OfPid(pid, packets[1..])
  }

  lemma {:induction false} OfPidConcat(pid: bv16, a: seq<seq<Byte>>, b: seq<seq<Byte>>)
    ensures OfPid(pid, a + b) == OfPid(pid, a) + OfPid(pid, b)
  {
    hide Kept;
    if a == [] {
      assert a + b == b;
    } else {
      OfPidConcat(pid, a[1..], b);
      assert (a + b)[0] == a[0] && (a + b)[1..] == a[1..] + b;
      var one := Kept(pid, a[0]);
      assert one + (OfPid(pid, a[1..]) + OfPid(pid, b)) == (one + OfPid(pid, a[1..])) + OfPid(pid, b);
    }
  }

  lemma OfPidOne(pid: bv16, packet: seq<Byte>)
    ensures OfPid(pid, [packet]) == if IsOf(pid, packet) then [packet] else []
  {
    hide IsOf;
    assert OfPid(pid, [packet][1..]) == [];
  }

  lemma {:induction false} OfVideo(pid: bv16, video: Byte, cc: Counter, lead: Option<Lead>, data: seq<Byte>)
    ensures var list := ContentList(Cut(video, cc, lead, data));
      && OfPid(pid, list) == (if video as bv16 == pid then list else [])
      && (list == [] <==> data == [])
    decreases |data|
  {
    hide NextPacket, Packet.Content, PidOf, Lead.Pes, Parse;
    if data != [] {
      var p := NextPacket(video, cc, lead, data);
      var rest := ContentList(Cut(video, (cc + 1) % 16, None, data[|p.payload|..]));
      PacketParsesBack(video, cc, lead, data);
      OfVideo(pid, video, (cc + 1) % 16, None, data[|p.payload|..]);
      MetaReception.ContentListNext(video, cc, lead, data);
      OfPidConcat(pid, [p.Content()], rest);
      OfPidOne(pid, p.Content());
    }
  }

  // ----- The tables of a filling -----

  /** The low byte of the pid of each table, in the order of a filling. */
  function Low(pid: nat, which: nat): Byte {
    if which == 0 then Octet(pid) else if which == 1 then 0x00 else 0x11
  }

  function Table(t: Tables, which: nat): (raw: seq<Byte>)
    requires t.Valid()
    ensures |raw| == LENGTH
  {
    if which == 0 then t.pmt else if which == 1 then t.pat else t.sdt
  }

  lemma NullIsOther(low: Byte, flags: Byte)
    ensures !IsOf(low as bv16, NullPacket(flags))
  {
    NullIsForeign(low, flags);
  }

  lemma FillerIsOf(t: Tables, pid: nat, low: Byte, i: nat)
    requires t.Valid() && Headed(t, pid)
    ensures IsOf(low as bv16, t.Filler(i)) <==> i < 3 && Low(pid, i) == low
  {
    hide NextCopy, NullPacket, NullAfter, Octet, PidOf;
    if i >= 3 {
      NullIsOther(low, NullAfter(t.nulls, i - 3));
    } else {
      CopyKeepsHead(Table(t, i));
      HeadedPacket(NextCopy(Table(t, i)), Low(pid, i), low);
    }
  }

  function TableIf(t: Tables, pid: nat, low: Byte, n: nat, i: nat): seq<seq<Byte>>
    requires t.Valid()
  {
    if i < n && i < 3 && Low(pid, i) == low then [t.Filler(i)] else []
  }

  lemma {:induction false} FillingOfPid(t: Tables, pid: nat, low: Byte, n: nat)
    requires t.Valid() && Headed(t, pid)
    ensures OfPid(low as bv16, t.Filling(n))
         == TableIf(t, pid, low, n, 0) + TableIf(t, pid, low, n, 1) + TableIf(t, pid, low, n, 2)
  {
    hide Tables.Filler, IsOf, Headed, Low;
    if n > 0 {
      FillingOfPid(t, pid, low, n - 1);
      assert t.Filling(n) == t.Filling(n - 1) + [t.Filler(n - 1)];
      OfPidConcat(low as bv16, t.Filling(n - 1), [t.Filler(n - 1)]);
      OfPidOne(low as bv16, t.Filler(n - 1));
      FillerIsOf(t, pid, low, n - 1);
    }
  }

  // ----- The tables of a run -----

  /** Nothing else of the frame has the pid of the table: no video, no metadata, and
      no other table that its filling gets to. */
  predicate FrameAlone(pid: nat, which: nat, f: Frame, n: nat) {
    && (f.data == [] || Octet(pid + 1) != Low(pid, which))
    && (f.klv.None? || !IsOf(Low(pid, which) as bv16, f.klv.value))
    && FillAlone(pid, which, n)
  }

  predicate FillAlone(pid: nat, which: nat, n: nat) {
    forall i: nat | i < n && i < 3 && i != which :: Low(pid, i) != Low(pid, which)
  }

  lemma OfKlv(pid: bv16, f: Frame)
    ensures OfPid(pid, f.Klv()) == if f.klv.None? || !IsOf(pid, f.klv.value) then [] else [f.klv.value]
  {
    hide IsOf;
    if f.klv.Some? {
      OfPidOne(pid, f.klv.value);
    }
  }

  lemma SameLow(a: Byte, b: Byte)
    ensures a as bv16 == b as bv16 <==> a == b
  {}

  lemma FrameTables(r: Run, pid: nat, full: int, f: Frame, which: nat)
    requires r.Valid() && f.Valid() && Headed(r.tables, pid) && which < 3
    ensures var video, n := Octet(pid + 1), FillOf(r, Octet(pid + 1), full, f);
            var packets := FramePackets(video, r.cc, r.last, r.tables, full, f);
            var own := if which < n then [NextCopy(Table(r.tables, which))] else [];
            var kept := OfPid(Low(pid, which) as bv16, packets);
      && (FrameAlone(pid, which, f, n) ==> kept == own)
      && (!FrameAlone(pid, which, f, n) ==> |kept| > |own|)
  {
    hide FramePackets, FrameAlone, FillOf, ContentList, Cut, Tables.Filling, OfPid, TableIf, Headed, NextCopy, Low, Octet,
         FillAlone, Table;
    var video, n, low := Octet(pid + 1), FillOf(r, Octet(pid + 1), full, f), Low(pid, which) as bv16;
    var list := ContentList(Cut(video, r.cc, Some(f.Lead(r.last)), f.data));
    FrameParts(r, pid, full, f, which);
    FillingOfPid(r.tables, pid, Low(pid, which), n);
    FillTables(r.tables, pid, n, which);
    Joined(OfPid(low, list), OfPid(low, f.Klv()), OfPid(low, r.tables.Filling(n)),
           if which < n then [NextCopy(Table(r.tables, which))] else [], FillAlone(pid, which, n));
  }

  /** What is kept of the three parts of a frame. */
  lemma FrameParts(r: Run, pid: nat, full: int, f: Frame, which: nat)
    requires r.Valid() && f.Valid()
    ensures var video, n, low := Octet(pid + 1), FillOf(r, Octet(pid + 1), full, f), Low(pid, which) as bv16;
            var list := ContentList(Cut(video, r.cc, Some(f.Lead(r.last)), f.data));
      && OfPid(low, FramePackets(video, r.cc, r.last, r.tables, full, f))
         == OfPid(low, list) + OfPid(low, f.Klv()) + OfPid(low, r.tables.Filling(n))
      && (FrameAlone(pid, which, f, n)
          <==> OfPid(low, list) == [] && OfPid(low, f.Klv()) == [] && FillAlone(pid, which, n))
  {
    hide Cut, ContentList, Tables.Filling, FillCount, FillLeft, OfPid, IsOf, Low, Octet, FillAlone;
    var video, low := Octet(pid + 1), Low(pid, which);
    var list, fill := ContentList(Cut(video, r.cc, Some(f.Lead(r.last)), f.data)),
                      r.tables.Filling(FillOf(r, video, full, f));
    OfPidConcat(low as bv16, list + f.Klv(), fill);
    OfPidConcat(low as bv16, list, f.Klv());
    OfVideo(low as bv16, video, r.cc, Some(f.Lead(r.last)), f.data);
    OfKlv(low as bv16, f);
    SameLow(video, low);
  }

  lemma Joined(a: seq<seq<Byte>>, b: seq<seq<Byte>>, c: seq<seq<Byte>>, own: seq<seq<Byte>>, alone: bool)
    requires if alone then c == own else |c| > |own|
    ensures if a == [] && b == [] && alone then a + b + c == own else |a + b + c| > |own|
  {
    assert |a + b + c| == |a| + |b| + |c|;
    assert a == [] && b == [] ==> a + b + c == c;
  }

  lemma FillTables(t: Tables, pid: nat, n: nat, which: nat)
    requires t.Valid() && which < 3
    ensures var low := Low(pid, which);
            var kept := TableIf(t, pid, low, n, 0) + TableIf(t, pid, low, n, 1) + TableIf(t, pid, low, n, 2);
            var own := if which < n then [NextCopy(Table(t, which))] else [];
      if FillAlone(pid, which, n) then kept == own else |kept| > |own|
  {
    hide NextCopy, Low;
    var low := Low(pid, which);
    var a, b, c := TableIf(t, pid, low, n, 0), TableIf(t, pid, low, n, 1), TableIf(t, pid, low, n, 2);
    assert |a + b + c| == |a| + |b| + |c|;
  }

  /** How many fillings of a run get to the table. */
  function Reached(r: Run, pid: Byte, full: int, frames: seq<Frame>, which: nat): nat
    requires r.Valid() && forall f | f in frames :: f.Valid()
    decreases |frames|
  {
    if frames == [] then 0
    else (if which < FillOf(r, pid, full, frames[0]) then 1 else 0)
         + Reached(r.Next(pid, full, frames[0]), pid, full, frames[1..], which)
  }

  predicate Alone(r: Run, pid: nat, full: int, frames: seq<Frame>, which: nat)
    requires r.Valid() && forall f | f in frames :: f.Valid()
    decreases |frames|
  {
    frames == []
    || (FrameAlone(pid, which, frames[0], FillOf(r, Octet(pid + 1), full, frames[0]))
        && Alone(r.Next(Octet(pid + 1), full, frames[0]), pid, full, frames[1..], which))
  }

  /** A table sent n times. */
  function CopyList(raw: seq<Byte>, n: nat): (copies: seq<seq<Byte>>)
    requires |raw| == LENGTH
    ensures |copies| == n
    decreases n
  {
    if n == 0 then [] else [NextCopy(raw)] + CopyList(NextCopy(raw), n - 1)
  }

  lemma CounterValue(b: Byte, c: Byte)
    requires c & 0x0f == ((b & 0x0f) + 1) & 0x0f
    ensures Value(c & 0x0f) == (Value(b & 0x0f) + 1) % 16
  {
    var low := b & 0x0f;
    assert low <= 0x0f && (low as int + 1) < 0x100;
    assert (low + 1) as int == low as int + 1;
    assert low < 0x0f ==> (low + 1) & 0x0f == low + 1;
  }

  /** The continuity counter of a packet. */
  function CountOf(packet: seq<Byte>): nat
    requires |packet| == LENGTH
  {
    Value(packet[3] & 0x0f)
  }

  /** The same packet up to its continuity counter. */
  predicate SameBut(a: seq<Byte>, b: seq<Byte>)
    requires |a| == |b| == LENGTH
  {
    a[..3] == b[..3] && a[3] & 0xf0 == b[3] & 0xf0 && a[4..] == b[4..]
  }

  lemma NextCount(raw: seq<Byte>)
    requires |raw| == LENGTH
    ensures SameBut(NextCopy(raw), raw) && CountOf(NextCopy(raw)) == (CountOf(raw) + 1) % 16
  {
    hide Value, NextCopy, Psi.SectionIsSound;
    TableIsRepeated(raw);
    CounterValue(raw[3], NextCopy(raw)[3]);
  }

  lemma SameButAll(a: seq<Byte>, b: seq<Byte>, c: seq<Byte>)
    requires |a| == |b| == |c| == LENGTH && SameBut(a, b) && SameBut(b, c)
    ensures SameBut(a, c)
  {}

  /** The copies count on from 1 above the counter of the table, modulo 16, and are
      otherwise the table. */
  lemma {:induction false} CopiesCountOn(raw: seq<Byte>, n: nat, i: nat)
    requires |raw| == LENGTH && i < n
    ensures var copy := CopyList(raw, n)[i];
      && |copy| == LENGTH && SameBut(copy, raw) && CountOf(copy) == (CountOf(raw) + i + 1) % 16
    decreases n
  {
    hide CountOf, SameBut, NextCopy;
    var next := NextCopy(raw);
    NextCount(raw);
    if i > 0 {
      CopiesCountOn(next, n - 1, i - 1);
      SameButAll(CopyList(raw, n)[i], next, raw);
      Modulo(CountOf(raw), i);
    }
  }

  lemma Modulo(c: nat, i: nat)
    ensures ((c + 1) % 16 + i) % 16 == (c + i + 1) % 16
  {}

  /** Over any run, a receiver of the pid of a table gets the table once for each
      filling that gets to it, counted on from one to the next, if and only if no
      other packet of the run has that pid. */
  lemma {:induction false} TablesCountOn(r: Run, pid: nat, full: int, frames: seq<Frame>, which: nat)
    requires r.Valid() && Headed(r.tables, pid) && which < 3 && forall f | f in frames :: f.Valid()
    ensures var video := Octet(pid + 1);
            var kept := OfPid(Low(pid, which) as bv16, r.Packets(video, full, frames));
            var n := Reached(r, video, full, frames, which);
      && |kept| >= n
      && (|kept| == n <==> Alone(r, pid, full, frames, which))
      && (kept == CopyList(Table(r.tables, which), n) <==> Alone(r, pid, full, frames, which))
    decreases |frames|
  {
    hide FrameAlone, FramePackets, FillOf, Run.Next, Headed, NextCopy, Octet, Low, OfPid, CopyList, Table,
         Run.Packets, Reached, Alone;
    NothingKept(Low(pid, which) as bv16, Table(r.tables, which));
    if frames != [] {
      var video, low, f := Octet(pid + 1), Low(pid, which), frames[0];
      var packets := FramePackets(video, r.cc, r.last, r.tables, full, f);
      var next := r.Next(video, full, f);
      var rest := next.Packets(video, full, frames[1..]);
      RunUnfolds(r, pid, full, frames, which);
      FrameTables(r, pid, full, f, which);
      NextIsHeaded(r, pid, full, f);
      TablesCountOn(next, pid, full, frames[1..], which);
      OfPidConcat(low as bv16, packets, rest);
      NextTable(r, video, full, f, which);
      CountOneMore(Table(r.tables, which), which < FillOf(r, video, full, f), OfPid(low as bv16, packets),
                   OfPid(low as bv16, rest), Reached(next, video, full, frames[1..], which),
                   FrameAlone(pid, which, f, FillOf(r, video, full, f)), Alone(next, pid, full, frames[1..], which));
    } else {
      NoRun(r, pid, full, which);
    }
  }

  lemma NoRun(r: Run, pid: nat, full: int, which: nat)
    requires r.Valid()
    ensures r.Packets(Octet(pid + 1), full, []) == [] && Alone(r, pid, full, [], which)
    ensures Reached(r, Octet(pid + 1), full, [], which) == 0
  {}

  lemma RunUnfolds(r: Run, pid: nat, full: int, frames: seq<Frame>, which: nat)
    requires r.Valid() && frames != [] && forall f | f in frames :: f.Valid()
    ensures var video, f := Octet(pid + 1), frames[0];
            var next := r.Next(video, full, f);
      && r.Packets(video, full, frames)
         == FramePackets(video, r.cc, r.last, r.tables, full, f) + next.Packets(video, full, frames[1..])
      && Reached(r, video, full, frames, which)
         == Reached(next, video, full, frames[1..], which) + (if which < FillOf(r, video, full, f) then 1 else 0)
      && (Alone(r, pid, full, frames, which)
          <==> FrameAlone(pid, which, f, FillOf(r, video, full, f)) && Alone(next, pid, full, frames[1..], which))
  {
    hide FrameAlone, FramePackets, FillOf, Run.Next, Octet;
  }

  lemma NothingKept(pid: bv16, raw: seq<Byte>)
    requires |raw| == LENGTH
    ensures OfPid(pid, []) == [] == CopyList(raw, 0)
  {}

  /** A list of copies goes on, or is disturbed, by what is kept of one frame. */
  lemma CountOneMore(raw: seq<Byte>, sent: bool, now: seq<seq<Byte>>, later: seq<seq<Byte>>, n: nat, one: bool, all: bool)
    requires |raw| == LENGTH
    requires var own := if sent then [NextCopy(raw)] else []; if one then now == own else |now| > |own|
    requires |later| >= n && (|later| == n <==> all)
    requires later == CopyList(if sent then NextCopy(raw) else raw, n) <==> all
    ensures var m := n + if sent then 1 else 0;
      && |now + later| >= m
      && (|now + later| == m <==> one && all)
      && (now + later == CopyList(raw, m) <==> one && all)
  {
    hide NextCopy;
    if one && !sent {
      assert now + later == later;
    }
    if one && sent {
      assert (now + later)[1..] == later;
      assert CopyList(raw, n + 1)[1..] == CopyList(NextCopy(raw), n);
    }
  }

  /** Where the low bytes of the three tables and of the video are apart, as for the
      pid 0x41 that a stream has by default, only the metadata could disturb a table. */
  lemma {:induction false} LowPidsApart(r: Run, pid: nat, full: int, frames: seq<Frame>, which: nat)
    requires r.Valid() && which < 3
    requires forall f | f in frames :: f.Valid() && (f.klv.None? || !IsOf(Low(pid, which) as bv16, f.klv.value))
    requires Octet(pid) !in {0x00, 0x11} && Octet(pid + 1) !in {0x00, 0x11}
    ensures Alone(r, pid, full, frames, which)
    decreases |frames|
  {
    hide IsOf, Octet, Run.Next, FillOf;
    if frames != [] {
      Klv.Neighbours(pid);
      LowPidsApart(r.Next(Octet(pid + 1), full, frames[0]), pid, full, frames[1..], which);
    }
  }

  lemma NextTable(r: Run, video: Byte, full: int, f: Frame, which: nat)
    requires r.Valid() && f.Valid() && which < 3
    ensures var table := Table(r.tables, which);
            Table(r.Next(video, full, f).tables, which)
            == if which < FillOf(r, video, full, f) then NextCopy(table) else table
  {
    hide Cut, FillCount, FillLeft, NextCopy, NullAfter, LastStamp;
  }

  // ----- From the PAT to the video -----

  lemma SameBytes(copy: seq<Byte>, raw: seq<Byte>)
    requires |copy| == |raw| == LENGTH && SameBut(copy, raw)
    ensures copy[1] == raw[1] && copy[2] == raw[2] && forall i | 4 <= i < LENGTH :: copy[i] == raw[i]
    ensures forall i, j | 4 <= i <= j <= LENGTH :: copy[i..j] == raw[i..j]
  {
    assert forall i | 4 <= i < LENGTH :: copy[i] == copy[4..][i - 4] == raw[i];
    assert copy[1] == copy[..3][1] == raw[1] && copy[2] == copy[..3][2] == raw[2];
  }

  lemma SamePat(copy: seq<Byte>, raw: seq<Byte>)
    requires |copy| == |raw| == LENGTH && SameBut(copy, raw)
    ensures Psi.ParsePat(copy) == Psi.ParsePat(raw)
  {
    hide Psi.Length12, Crc32.Crc, Psi.ParsePrograms, SameBut;
    SameBytes(copy, raw);
  }

  lemma SamePmt(copy: seq<Byte>, raw: seq<Byte>)
    requires |copy| == |raw| == LENGTH && SameBut(copy, raw)
    ensures Psi.ParsePmt(copy) == Psi.ParsePmt(raw)
  {
    hide Psi.Length12, Psi.Pid13, Crc32.Crc, Psi.ParseEntries, SameBut;
    SameBytes(copy, raw);
  }

  /** The PMT of a stream, rewritten if it has metadata. */
  function CreatedPmt(pid: nat, h264: bool, klv: Option<bv16>): (pmt: seq<Byte>)
    ensures |pmt| == LENGTH
  {
    var pmt := Psi.PmtPacket(pid, h264);
    if klv.None? then pmt else Psi.KlvPmtPacket(pmt, Psi.START, klv.value)
  }

  /** What a PMT should say: program 1, with the clock and the video on one pid, and
      the metadata stream if there is one. */
  function Announced(pid: nat, h264: bool, klv: Option<bv16>): Psi.Pmt {
    var video := Psi.Entry(if h264 then Psi.H264_TYPE else 0x03, Octet(pid + 1) as bv16, []);
    if klv.None? then Psi.Pmt(1, Octet(pid + 1) as bv16, [], [video])
    else Psi.Pmt(1, Octet(pid + 1) as bv16, Psi.PointerDescriptor(),
                 [video, Psi.Entry(0x15, klv.value, Psi.MetadataDescriptor())])
  }

  lemma PmtIsAnnounced(pid: nat, h264: bool, klv: Option<bv16>)
    requires klv.None? || klv.value < 0x2000
    ensures Psi.ParsePmt(CreatedPmt(pid, h264, klv)) == Some(Announced(pid, h264, klv))
  {
    hide Psi.ParsePmt, Psi.PmtPacket, Psi.KlvPmtPacket, Psi.PointerDescriptor, Psi.MetadataDescriptor, Octet;
    Psi.VideoPmtParses(pid, h264);
    if klv.Some? {
      var low := Octet(pid + 1) as bv16;
      Psi.KlvStreamIsAdded(Psi.PmtPacket(pid, h264), klv.value, 1, low,
                           Psi.Entry(if h264 then Psi.H264_TYPE else 0x03, low, []));
    }
  }

  /** What is received of a table that is sent n times. */
  lemma CopyIsSame(raw: seq<Byte>, n: nat, i: nat)
    requires |raw| == LENGTH && i < n
    ensures var copy := CopyList(raw, n)[i];
      && |copy| == LENGTH && Psi.ParsePat(copy) == Psi.ParsePat(raw) && Psi.ParsePmt(copy) == Psi.ParsePmt(raw)
  {
    hide Psi.ParsePat, Psi.ParsePmt, SameBut, PidOf, CountOf;
    CopiesCountOn(raw, n, i);
    SamePat(CopyList(raw, n)[i], raw);
    SamePmt(CopyList(raw, n)[i], raw);
  }

  /** A receiver that starts from the PAT.  With the tables of a stream, over any run in
      which no other packet has the pid of the PAT or of the PMT: every packet of pid 0
      is a PAT with program 1 and one pid for its PMT, every packet of that pid is a PMT
      that names the pid of the video, with or without metadata, and both come as often
      as fillings get to them. */
  lemma VideoIsFound(r: Run, pid: nat, h264: bool, klv: Option<bv16>, full: int, frames: seq<Frame>, i: nat)
    requires r.Valid() && Headed(r.tables, pid) && (forall f | f in frames :: f.Valid())
    requires klv.None? || klv.value < 0x2000
    requires r.tables.pat == Psi.PatPacket(pid) && r.tables.pmt == CreatedPmt(pid, h264, klv)
    requires Alone(r, pid, full, frames, 0) && Alone(r, pid, full, frames, 1)
    ensures var packets := r.Packets(Octet(pid + 1), full, frames);
            var pats, pmts := OfPid(0, packets), OfPid(Octet(pid) as bv16, packets);
      && |pats| == Reached(r, Octet(pid + 1), full, frames, 1) && |pmts| == Reached(r, Octet(pid + 1), full, frames, 0)
      && (i < |pats| ==> |pats[i]| == LENGTH && Psi.ParsePat(pats[i]) == Some([(1, Octet(pid) as bv16)]))
      && (i < |pmts| ==> |pmts[i]| == LENGTH && Psi.ParsePmt(pmts[i]) == Some(Announced(pid, h264, klv)))
  {
    hide Psi.ParsePat, Psi.ParsePmt, Psi.PatPacket, CreatedPmt, Announced, Octet, OfPid, Reached, Alone, CopyList, Headed;
    var video := Octet(pid + 1);
    TablesCountOn(r, pid, full, frames, 0);
    TablesCountOn(r, pid, full, frames, 1);
    Psi.PatParses(pid);
    PmtIsAnnounced(pid, h264, klv);
    if i < Reached(r, video, full, frames, 1) {
      CopyIsSame(r.tables.pat, Reached(r, video, full, frames, 1), i);
    }
    if i < Reached(r, video, full, frames, 0) {
      CopyIsSame(r.tables.pmt, Reached(r, video, full, frames, 0), i);
    }
  }
}
