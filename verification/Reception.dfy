/** What a receiver of the video stream gets, over whole runs of the multiplexer:
    the frames, as long as no table shares their pid, and their time stamps. */
module Reception {
  import opened Bytes
  import opened SmoothClock
  import opened TsPacket
  import opened Datagrams
  import opened Multiplexer
  import opened Streams
  import Crc32
  import Klv
  import Psi

  // ----- The other packets of a run -----

  /** The packets of a frame that are not of the video stream. */
  function Others(r: Run, pid: Byte, full: int, f: Frame): seq<seq<Byte>>
    requires r.Valid() && f.Valid()
  {
    f.Klv() + r.tables.Filling(FillOf(r, pid, full, f))
  }

  function FillOf(r: Run, pid: Byte, full: int, f: Frame): nat
    requires f.Valid()
  {
    FillCount(FillLeft(full, |Cut(pid, r.cc, Some(f.Lead(r.last)), f.data)|, |f.Klv()|))
  }

  /** A whole packet that starts a unit of the stream. */
  ghost predicate Starts(pid: bv16, packet: seq<Byte>) {
    |packet| == LENGTH && packet[0] == SYNC && PidOf(packet) == pid && packet[1] & 0x40 != 0
  }

  ghost predicate AreForeign(pid: bv16, packets: seq<seq<Byte>>) {
    forall i | 0 <= i < |packets| :: Foreign(pid, packets[i])
  }

  ghost predicate AreSettled(pid: bv16, packets: seq<seq<Byte>>) {
    forall i | 0 <= i < |packets| :: Foreign(pid, packets[i]) || Starts(pid, packets[i])
  }

  ghost predicate AllForeign(r: Run, pid: Byte, full: int, frames: seq<Frame>)
    requires r.Valid() && forall f | f in frames :: f.Valid()
    decreases |frames|
  {
    frames == []
    || (AreForeign(pid as bv16, Others(r, pid, full, frames[0]))
        && AllForeign(r.Next(pid, full, frames[0]), pid, full, frames[1..]))
  }

  /** The units a receiver should get: the PES header and the data of every frame
      that has data. */
  function Frames(r: Run, pid: Byte, full: int, frames: seq<Frame>): seq<seq<Byte>>
    requires r.Valid() && forall f | f in frames :: f.Valid()
    decreases |frames|
  {
    if frames == [] then []
    else
      (if frames[0].data == [] then [] else [frames[0].Lead(r.last).Pes() + frames[0].data])
      + Frames(r.Next(pid, full, frames[0]), pid, full, frames[1..])
  }

  // ----- Without a foreign table in the stream -----

  lemma FramePacketsSplit(r: Run, pid: Byte, full: int, f: Frame)
    requires r.Valid() && f.Valid()
    ensures FramePackets(pid, r.cc, r.last, r.tables, full, f)
         == ContentList(Cut(pid, r.cc, Some(f.Lead(r.last)), f.data)) + Others(r, pid, full, f)
  {
    hide Cut, Tables.Filling, FillCount, FillLeft, ContentList;
  }

  /** The bytes of a frame, and of the packets of other streams that follow it. */
  lemma FrameBytes(r: Run, pid: Byte, full: int, f: Frame)
    requires r.Valid() && f.Valid()
    ensures Flatten(FramePackets(pid, r.cc, r.last, r.tables, full, f))
         == Contents(Cut(pid, r.cc, Some(f.Lead(r.last)), f.data)) + Flatten(Others(r, pid, full, f))
  {
    hide Cut, Others, ContentList, Contents, FramePackets;
    var video := Cut(pid, r.cc, Some(f.Lead(r.last)), f.data);
    VideoPacketsAreWhole(pid, r.cc, Some(f.Lead(r.last)), f.data);
    FramePacketsSplit(r, pid, full, f);
    FlattenConcat(ContentList(video), Others(r, pid, full, f));
  }

  function OpenUnit(open: Option<seq<Byte>>): seq<seq<Byte>> {
    if open.Some? then [open.value] else []
  }

  /** One frame and the packets after it, in a stream that goes on. */
  lemma FrameInStream(r: Run, pid: Byte, full: int, f: Frame, open: Option<seq<Byte>>, rest: seq<seq<Byte>>)
    requires r.Valid() && f.Valid() && AreForeign(pid as bv16, Others(r, pid, full, f))
    requires |Flatten(rest)| % LENGTH == 0
    ensures var packets := FramePackets(pid, r.cc, r.last, r.tables, full, f);
            var next := r.Next(pid, full, f);
            var unit := f.Lead(r.last).Pes() + f.data;
      && |Flatten(packets + rest)| % LENGTH == 0
      && Units(pid as bv16, r.cc, open, Flatten(packets + rest))
         == if f.data == [] then Units(pid as bv16, next.cc, open, Flatten(rest))
            else Following(open, Units(pid as bv16, next.cc, Some(unit), Flatten(rest)))
  {
    hide FramePackets, Cut, Contents, Others, Foreign, Lead.Pes, Units, Following, Run.Next, CounterAfter, Flatten;
    var packets := FramePackets(pid, r.cc, r.last, r.tables, full, f);
    var lead := f.Lead(r.last);
    var video := Cut(pid, r.cc, Some(lead), f.data);
    var others := Others(r, pid, full, f);
    var tail := Flatten(others) + Flatten(rest);
    FrameBytes(r, pid, full, f);
    FlattenConcat(packets, rest);
    assert Contents(video) + Flatten(others) + Flatten(rest) == Contents(video) + tail;
    NextCounterIs(r, pid, full, f);
    if f.data == [] {
      NoPackets(pid, r.cc, Some(lead));
      assert Contents(video) + tail == tail;
      ForeignPacketsAreSkipped(pid as bv16, r.cc, open, others, Flatten(rest));
    } else {
      ForeignPacketsAreSkipped(pid as bv16, CounterAfter(pid, r.cc, Some(lead), f.data), Some(lead.Pes() + f.data),
                               others, Flatten(rest));
      FrameComesBack(pid, r.cc, lead, f.data, open, tail);
    }
  }

  lemma NextCounterIs(r: Run, pid: Byte, full: int, f: Frame)
    requires r.Valid() && f.Valid()
    ensures r.Next(pid, full, f).cc == CounterAfter(pid, r.cc, Some(f.Lead(r.last)), f.data)
    ensures f.data == [] ==> r.Next(pid, full, f).cc == r.cc
  {
    hide FillCount, FillLeft, Tables.After, LastStamp, NextPacket;
  }

  /** Over any run of frames, from any counter: a receiver of the video stream gets
      exactly the PES header and the data of every frame, whole and in order, out
      of the packets sent; packets of other streams do not disturb it. */
  lemma {:induction false} RunComesBack(r: Run, pid: Byte, full: int, frames: seq<Frame>, open: Option<seq<Byte>>)
    requires r.Valid() && (forall f | f in frames :: f.Valid()) && AllForeign(r, pid, full, frames)
    ensures |Flatten(r.Packets(pid, full, frames))| % LENGTH == 0
    ensures Units(pid as bv16, r.cc, open, Flatten(r.Packets(pid, full, frames)))
         == Some(OpenUnit(open) + Frames(r, pid, full, frames))
    decreases |frames|
  {
    hide FramePackets, Foreign, Others, Lead.Pes, Run.Next, Units, Following, OpenUnit, Flatten;
    if frames == [] {
      EndOfStream(pid as bv16, r.cc, open);
    } else {
      var f := frames[0];
      var unit := f.Lead(r.last).Pes() + f.data;
      var next := r.Next(pid, full, f);
      if f.data == [] {
        RunComesBack(next, pid, full, frames[1..], open);
        assert [] + Frames(next, pid, full, frames[1..]) == Frames(next, pid, full, frames[1..]);
      } else {
        RunComesBack(next, pid, full, frames[1..], Some(unit));
        OpenThenMore(open, [unit] + Frames(next, pid, full, frames[1..]));
        OneOpen(unit);
      }
      FrameInStream(r, pid, full, f, open, next.Packets(pid, full, frames[1..]));
    }
  }

  lemma OneOpen(unit: seq<Byte>)
    ensures OpenUnit(Some(unit)) == [unit]
  {}

  lemma EndOfStream(pid: bv16, cc: nat, open: Option<seq<Byte>>)
    ensures Units(pid, cc, open, Flatten([])) == Some(OpenUnit(open) + [])
    ensures |Flatten<Byte>([])| == 0
  {
    assert OpenUnit(open) + [] == OpenUnit(open);
  }

  lemma NoPackets(pid: Byte, cc: Counter, lead: Option<Lead>)
    ensures Cut(pid, cc, lead, []) == [] && Contents([]) == []
  {}

  lemma OpenThenMore(open: Option<seq<Byte>>, units: seq<seq<Byte>>)
    ensures Following(open, Some(units)) == Some(OpenUnit(open) + units)
  {
    assert [] + units == units;
  }

  // ----- With a table in the stream -----

  /** How many packets start a unit of the stream. */
  ghost function StartCount(pid: bv16, packets: seq<seq<Byte>>): nat {
    if packets == [] then 0 else (if Starts(pid, packets[0]) then 1 else 0) + StartCount(pid, packets[1..])
  }

  lemma {:induction false} StartCountConcat(pid: bv16, a: seq<seq<Byte>>, b: seq<seq<Byte>>)
    ensures StartCount(pid, a + b) == StartCount(pid, a) + StartCount(pid, b)
  {
    hide Starts;
    if a == [] {
      assert a + b == b;
    } else {
      assert (a + b)[1..] == a[1..] + b;
      StartCountConcat(pid, a[1..], b);
    }
  }

  /** A receiver that does not fail gives as many units as packets start one. */
  lemma {:induction false} UnitsAreCounted(pid: bv16, cc: nat, open: Option<seq<Byte>>, packets: seq<seq<Byte>>)
    requires AreWhole(packets)
    ensures |Flatten(packets)| % LENGTH == 0
    ensures var units := Units(pid, cc, open, Flatten(packets));
            units.Some? ==> |units.value| == |OpenUnit(open)| + StartCount(pid, packets)
    decreases |packets|
  {
    hide PidOf;
    if packets != [] {
      var stream, tail := Flatten(packets), Flatten(packets[1..]);
      assert stream[..LENGTH] == packets[0] && stream[LENGTH..] == tail;
      var p := Parse(packets[0]);
      if PidOf(packets[0]) != pid || packets[0][0] != SYNC || p.None? {
        UnitsAreCounted(pid, cc, open, packets[1..]);
      } else if p.value.pusi {
        UnitsAreCounted(pid, (cc + 1) % 16, Some(p.value.payload), packets[1..]);
      } else if open.Some? {
        UnitsAreCounted(pid, (cc + 1) % 16, Some(open.value + p.value.payload), packets[1..]);
      } else {
        UnitsAreCounted(pid, cc, open, packets[1..]);
      }
    }
  }

  lemma {:induction false} VideoStarts(pid: Byte, cc: Counter, lead: Option<Lead>, data: seq<Byte>)
    ensures StartCount(pid as bv16, ContentList(Cut(pid, cc, lead, data))) == if lead.Some? && data != [] then 1 else 0
    decreases |data|
  {
    hide NextPacket, Packet.Content, PidOf, Lead.Pes;
    if data != [] {
      var p := NextPacket(pid, cc, lead, data);
      var later := Cut(pid, (cc + 1) % 16, None, data[|p.payload|..]);
      PacketParsesBack(pid, cc, lead, data);
      VideoStarts(pid, (cc + 1) % 16, None, data[|p.payload|..]);
      var list := ContentList(Cut(pid, cc, lead, data));
      assert Cut(pid, cc, lead, data) == [p] + later;
      assert ([p] + later)[1..] == later;
      assert list[0] == p.Content() && list[1..] == ContentList(later);
    }
  }

  /** Every other packet of the run is of another stream, or starts a unit. */
  ghost predicate AllSettled(r: Run, pid: Byte, full: int, frames: seq<Frame>)
    requires r.Valid() && forall f | f in frames :: f.Valid()
    decreases |frames|
  {
    frames == []
    || (AreSettled(pid as bv16, Others(r, pid, full, frames[0]))
        && AllSettled(r.Next(pid, full, frames[0]), pid, full, frames[1..]))
  }

  lemma {:induction false} SettledStarts(pid: bv16, packets: seq<seq<Byte>>)
    requires AreSettled(pid, packets)
    ensures AreWhole(packets)
    ensures StartCount(pid, packets) > 0 <==> !AreForeign(pid, packets)
  {
    hide PidOf;
    if packets != [] {
      var rest := packets[1..];
      SettledStarts(pid, rest);
      forall i | 0 < i < |packets| ensures packets[i] == rest[i - 1] {}
      if AreForeign(pid, rest) && !Starts(pid, packets[0]) {
        assert AreForeign(pid, packets);
      }
    }
  }

  lemma FrameStarts(r: Run, pid: Byte, full: int, f: Frame)
    requires r.Valid() && f.Valid()
    ensures StartCount(pid as bv16, FramePackets(pid, r.cc, r.last, r.tables, full, f))
         == (if f.data == [] then 0 else 1) + StartCount(pid as bv16, Others(r, pid, full, f))
  {
    hide Cut, Others, ContentList, FramePackets, StartCount;
    FramePacketsSplit(r, pid, full, f);
    VideoStarts(pid, r.cc, Some(f.Lead(r.last)), f.data);
    StartCountConcat(pid as bv16, ContentList(Cut(pid, r.cc, Some(f.Lead(r.last)), f.data)), Others(r, pid, full, f));
  }

  lemma NoStarts(pid: bv16)
    ensures StartCount(pid, []) == 0
  {}

  lemma {:induction false} RunStarts(r: Run, pid: Byte, full: int, frames: seq<Frame>)
    requires r.Valid() && (forall f | f in frames :: f.Valid()) && AllSettled(r, pid, full, frames)
    ensures AreWhole(r.Packets(pid, full, frames))
    ensures StartCount(pid as bv16, r.Packets(pid, full, frames)) >= |Frames(r, pid, full, frames)|
    ensures !AllForeign(r, pid, full, frames) ==>
              StartCount(pid as bv16, r.Packets(pid, full, frames)) > |Frames(r, pid, full, frames)|
    decreases |frames|
  {
    hide FramePackets, Foreign, Starts, Others, Lead.Pes, Run.Next, StartCount;
    if frames == [] {
      NoStarts(pid as bv16);
    } else {
      var f, next := frames[0], r.Next(pid, full, frames[0]);
      var packets := FramePackets(pid, r.cc, r.last, r.tables, full, f);
      RunStarts(next, pid, full, frames[1..]);
      FrameStarts(r, pid, full, f);
      FramePacketsAreWhole(pid, r.cc, r.last, r.tables, full, f);
      SettledStarts(pid as bv16, Others(r, pid, full, f));
      StartCountConcat(pid as bv16, packets, next.Packets(pid, full, frames[1..]));
    }
  }

  /** The frames come back exactly if no other packet of the run belongs to the video
      stream, where all such packets start a unit: one that does is a unit too many,
      or makes the receiver fail. */
  lemma ComesBackIfForeign(r: Run, pid: Byte, full: int, frames: seq<Frame>, open: Option<seq<Byte>>)
    requires r.Valid() && (forall f | f in frames :: f.Valid()) && AllSettled(r, pid, full, frames)
    ensures |Flatten(r.Packets(pid, full, frames))| % LENGTH == 0
    ensures Units(pid as bv16, r.cc, open, Flatten(r.Packets(pid, full, frames)))
              == Some(OpenUnit(open) + Frames(r, pid, full, frames))
            <==> AllForeign(r, pid, full, frames)
  {
    hide Units, AllForeign, AllSettled, Frames, StartCount, OpenUnit, Flatten, AreWhole;
    if AllForeign(r, pid, full, frames) {
      RunComesBack(r, pid, full, frames, open);
    } else {
      RunStarts(r, pid, full, frames);
      UnitsAreCounted(pid as bv16, r.cc, open, r.Packets(pid, full, frames));
    }
  }

  // ----- The tables as they are created -----

  /** The first bytes of the tables of a stream, which no repetition changes: the pid,
      and that there is no adaptation field. */
  predicate Headed(t: Tables, pid: nat)
    requires t.Valid()
  {
    && t.pmt[..3] == [SYNC, 0x40, Octet(pid)]
    && t.pat[..3] == [SYNC, 0x40, 0x00]
    && t.sdt[..3] == [SYNC, 0x40, 0x11]
    && t.pat[3] & 0xf0 == 0x10 && t.sdt[3] & 0xf0 == 0x10
  }

  lemma HeadedFrom(pmt: seq<Byte>, pat: seq<Byte>, sdt: seq<Byte>, nulls: Byte, pid: nat)
    requires |pmt| == |pat| == |sdt| == LENGTH
    requires pmt[..4] == [SYNC, 0x40, Octet(pid), 0x10]
    requires pat[..4] == [SYNC, 0x40, 0x00, 0x10] && sdt[..4] == [SYNC, 0x40, 0x11, 0x10]
    ensures Headed(Tables(pmt, pat, sdt, nulls), pid)
  {
    hide Octet;
    assert pat[..3] == pat[..4][..3] && pmt[..3] == pmt[..4][..3] && sdt[..3] == sdt[..4][..3];
    assert pat[3] == pat[..4][3] && sdt[3] == sdt[..4][3];
  }

  lemma CreatedTablesAreHeaded(pid: nat, h264: bool, name: seq<Byte>, klv: Option<bv16>, nulls: Byte)
    requires |name| == 9
    ensures var pmt := Psi.PmtPacket(pid, h264);
            Headed(Tables(if klv.None? then pmt else Psi.KlvPmtPacket(pmt, Psi.START, klv.value),
                          Psi.PatPacket(pid), Psi.SdtPacket(name, h264), nulls), pid)
  {
    hide Headed, Octet, Psi.PatPacket, Psi.PmtPacket, Psi.SdtPacket, Psi.KlvPmtPacket;
    Psi.PatHeader(pid);
    Psi.PmtHeader(pid, h264);
    Psi.SdtHeader(name, h264);
    var pmt := Psi.PmtPacket(pid, h264);
    if klv.None? {
      HeadedFrom(pmt, Psi.PatPacket(pid), Psi.SdtPacket(name, h264), nulls, pid);
    } else {
      var r := Psi.KlvPmtPacket(pmt, Psi.START, klv.value);
      Psi.KlvBytes(pmt, klv.value);
      assert r[..4] == r[..Psi.START + 1][..4] == pmt[..4];
      HeadedFrom(r, Psi.PatPacket(pid), Psi.SdtPacket(name, h264), nulls, pid);
    }
  }

  lemma CounterBits(b: Byte)
    ensures ((b & 0xf0) | ((b + 1) & 0x0f)) & 0x0f == ((b & 0x0f) + 1) & 0x0f
    ensures ((b & 0xf0) | ((b + 1) & 0x0f)) & 0xf0 == b & 0xf0
  {}

  /** A table that is sent again has the next continuity counter, is otherwise the
      same, and its section is sound if it was. */
  lemma TableIsRepeated(raw: seq<Byte>)
    requires |raw| == LENGTH
    ensures var copy := NextCopy(raw);
      && copy[3] & 0x0f == ((raw[3] & 0x0f) + 1) & 0x0f && copy[3] & 0xf0 == raw[3] & 0xf0
      && copy[..3] == raw[..3] && copy[4..] == raw[4..]
      && Psi.SectionIsSound(copy) == Psi.SectionIsSound(raw)
  {
    hide Psi.Length12, Crc32.Crc;
    CounterBits(raw[3]);
    var copy := NextCopy(raw);
    assert copy[6] == raw[6] && copy[7] == raw[7];
    var end := Psi.START + 3 + Psi.SectionLength(raw);
    assert end <= LENGTH ==> copy[Psi.START..end] == raw[Psi.START..end];
  }

  lemma NullPid(pid: Byte)
    ensures ((0x1f as bv8 & 0x1f) as bv16 << 8) | (0xff as bv8 as bv16) != pid as bv16
  {}

  lemma NullIsForeign(pid: Byte, flags: Byte)
    ensures Foreign(pid as bv16, NullPacket(flags))
  {
    NullPid(pid);
  }

  lemma HeadedPacket(packet: seq<Byte>, low: Byte, video: Byte)
    requires |packet| == LENGTH && packet[..3] == [SYNC, 0x40, low]
    ensures if low == video then Starts(video as bv16, packet) else Foreign(video as bv16, packet)
  {
    var head := packet[..3];
    assert packet[0] == head[0] && packet[1] == head[1] && packet[2] == head[2];
    PidBits(0x40, low);
    SamePid(low, video);
  }

  lemma SamePid(a: Byte, b: Byte)
    ensures a as bv16 == b as bv16 ==> a == b
  {}

  lemma HeadedStays(t: Tables, pid: nat, n: nat)
    requires t.Valid() && Headed(t, pid)
    ensures Headed(t.After(n, n), pid)
  {
    hide NullAfter, Octet;
    CopyKeepsHead(t.pmt);
    CopyKeepsHead(t.pat);
    CopyKeepsHead(t.sdt);
  }

  lemma CopyKeepsHead(raw: seq<Byte>)
    requires |raw| == LENGTH
    ensures NextCopy(raw)[..3] == raw[..3] && NextCopy(raw)[3] & 0xf0 == raw[3] & 0xf0
  {
    CounterBits(raw[3]);
  }

  /** The filling has the PAT second and the SDT third. */
  predicate Clashes(video: Byte, i: nat) {
    (video == 0x00 && i == 1) || (video == 0x11 && i == 2)
  }

  lemma FillingSettles(t: Tables, pid: nat, n: nat, i: nat)
    requires t.Valid() && Headed(t, pid) && i < n
    ensures var video, p := Octet(pid + 1), t.Filling(n)[i];
            if Clashes(video, i) then Starts(video as bv16, p) else Foreign(video as bv16, p)
  {
    hide NextCopy, NullPacket, NullAfter, Foreign, Starts, Octet;
    var video := Octet(pid + 1);
    CopyKeepsHead(t.pmt);
    CopyKeepsHead(t.pat);
    CopyKeepsHead(t.sdt);
    Klv.Neighbours(pid);
    if i == 0 {
      HeadedPacket(NextCopy(t.pmt), Octet(pid), video);
    } else if i == 1 {
      HeadedPacket(NextCopy(t.pat), 0x00, video);
    } else if i == 2 {
      HeadedPacket(NextCopy(t.sdt), 0x11, video);
    } else {
      NullIsForeign(video, NullAfter(t.nulls, i - 3));
    }
  }

  /** No filling gets to a table that has the pid of the video stream. */
  predicate NoClash(r: Run, pid: Byte, full: int, frames: seq<Frame>)
    requires r.Valid() && forall f | f in frames :: f.Valid()
    decreases |frames|
  {
    frames == []
    || (FillOf(r, pid, full, frames[0]) <= (if pid == 0x00 then 1 else 2)
        && NoClash(r.Next(pid, full, frames[0]), pid, full, frames[1..]))
  }

  ghost predicate ForeignKlv(pid: Byte, f: Frame) {
    f.klv.Some? ==> Foreign(pid as bv16, f.klv.value)
  }

  lemma FrameSettles(r: Run, pid: nat, full: int, f: Frame)
    requires r.Valid() && f.Valid() && Headed(r.tables, pid) && ForeignKlv(Octet(pid + 1), f)
    ensures var video := Octet(pid + 1); var others := Others(r, video, full, f);
      && AreSettled(video as bv16, others)
      && (AreForeign(video as bv16, others)
          <==> video !in {0x00, 0x11} || FillOf(r, video, full, f) <= (if video == 0x00 then 1 else 2))
  {
    hide Foreign, Starts, FillOf, Octet, Headed, Tables.Filling;
    var video := Octet(pid + 1);
    var n := FillOf(r, video, full, f);
    var fill := r.tables.Filling(n);
    FillSettles(r.tables, pid, n);
    assert AreForeign(video as bv16, f.Klv());
    forall i | 0 <= i < n ensures (f.Klv() + fill)[|f.Klv()| + i] == fill[i] {}
  }

  lemma FillSettles(t: Tables, pid: nat, n: nat)
    requires t.Valid() && Headed(t, pid)
    ensures var video := Octet(pid + 1);
      && AreSettled(video as bv16, t.Filling(n))
      && (AreForeign(video as bv16, t.Filling(n)) <==> video !in {0x00, 0x11} || n <= (if video == 0x00 then 1 else 2))
  {
    hide Foreign, Starts, Octet, Headed, Tables.Filling;
    var video := Octet(pid + 1);
    var fill := t.Filling(n);
    forall i | 0 <= i < n
      ensures if Clashes(video, i) then Starts(video as bv16, fill[i]) else Foreign(video as bv16, fill[i])
    {
      FillingSettles(t, pid, n, i);
    }
    if n > 1 && video == 0x00 {
      NotBoth(video as bv16, fill[1]);
    }
    if n > 2 && video == 0x11 {
      NotBoth(video as bv16, fill[2]);
    }
  }

  lemma NotBoth(pid: bv16, packet: seq<Byte>)
    ensures Starts(pid, packet) ==> !Foreign(pid, packet)
  {}

  lemma NextIsHeaded(r: Run, pid: nat, full: int, f: Frame)
    requires r.Valid() && f.Valid() && Headed(r.tables, pid)
    ensures Headed(r.Next(Octet(pid + 1), full, f).tables, pid)
  {
    hide Cut, FillCount, FillLeft, LastStamp, Octet, Headed, Tables.After;
    var video := Octet(pid + 1);
    var packets := Cut(video, r.cc, Some(f.Lead(r.last)), f.data);
    HeadedStays(r.tables, pid, FillCount(FillLeft(full, |packets|, |f.Klv()|)));
  }

  lemma {:induction false} RunSettles(r: Run, pid: nat, full: int, frames: seq<Frame>)
    requires r.Valid() && Headed(r.tables, pid)
    requires forall f | f in frames :: f.Valid() && ForeignKlv(Octet(pid + 1), f)
    ensures var video := Octet(pid + 1);
      && AllSettled(r, video, full, frames)
      && (AllForeign(r, video, full, frames) <==> video !in {0x00, 0x11} || NoClash(r, video, full, frames))
    decreases |frames|
  {
    hide AreForeign, AreSettled, FillOf, Octet, Headed, Others, ForeignKlv, Run.Next;
    if frames != [] {
      FrameSettles(r, pid, full, frames[0]);
      NextIsHeaded(r, pid, full, frames[0]);
      RunSettles(r.Next(Octet(pid + 1), full, frames[0]), pid, full, frames[1..]);
    }
  }

  /** With the tables of a stream, repeated any number of times, a receiver gets
      exactly the frames if and only if the pid of the video stream, the eight low
      bits of the configured one plus one, is not that of the PAT or of the SDT, or
      no filling of the run gets to that table. */
  lemma CreatedRunComesBack(r: Run, pid: nat, full: int, frames: seq<Frame>, open: Option<seq<Byte>>)
    requires r.Valid() && Headed(r.tables, pid)
    requires forall f | f in frames :: f.Valid() && ForeignKlv(Octet(pid + 1), f)
    ensures var video := Octet(pid + 1);
      && |Flatten(r.Packets(video, full, frames))| % LENGTH == 0
      && (Units(video as bv16, r.cc, open, Flatten(r.Packets(video, full, frames)))
            == Some(OpenUnit(open) + Frames(r, video, full, frames))
          <==> video !in {0x00, 0x11} || NoClash(r, video, full, frames))
  {
    hide Units, AllForeign, AllSettled, Frames, OpenUnit, Flatten, Headed, NoClash, Octet;
    RunSettles(r, pid, full, frames);
    ComesBackIfForeign(r, Octet(pid + 1), full, frames, open);
  }

  // ----- Time stamps in the stream -----

  /** The PES header of a unit starts a video stream, ends where its length says, and
      carries the stamp plus one millisecond, and the one of the frame before. */
  lemma UnitCarriesTimes(lead: Lead)
    ensures ReadTimeStamp(lead.Pes()[9..14]) == Wrap(lead.Pcr() + 90)
    ensures ReadTimeStamp(lead.Pes()[14..19]) == lead.last
    ensures lead.Pes()[..4] == [0x00, 0x00, 0x01, 0xe0] && 9 + Value(lead.Pes()[8]) == |lead.Pes()|
  {
    hide TimeStamp, ReadTimeStamp;
    TimeStampReadsBack(0x10, lead.Pts());
    TimeStampReadsBack(0x10, lead.last);
    assert lead.Pes()[9..14] == TimeStamp(0x10, lead.Pts());
    assert lead.Pes()[14..19] == TimeStamp(0x10, lead.last);
  }

  lemma FlagBits(random: bool, back: bool)
    ensures var b: Byte := 0x10 | (if random then 0x40 else 0x00) | (if back then 0x80 else 0x00);
      && (b & 0x10 != 0) && ((b & 0x40 != 0) <==> random) && ((b & 0x80 != 0) <==> back)
  {}

  /** A PCR goes out with the frame. */
  predicate SendsPcr(f: Frame) {
    f.data != [] && f.Lead(0).Pcr() != 0
  }

  /** No frame sends a packet of the video stream. */
  predicate AllEmpty(frames: seq<Frame>) {
    forall f | f in frames :: f.data == []
  }

  /** A frame with data and no PCR leaves 90 ticks behind, a frame without data
      nothing. */
  lemma {:induction false} LastWithoutPcr(r: Run, pid: Byte, full: int, frames: seq<Frame>)
    requires r.Valid() && forall f | f in frames :: f.Valid() && !SendsPcr(f)
    ensures r.After(pid, full, frames).last == if AllEmpty(frames) then r.last else 90
    decreases |frames|
  {
    hide Tables.After, FillCount, FillLeft, NextPacket;
    if frames != [] {
      LastWithoutPcr(r.Next(pid, full, frames[0]), pid, full, frames[1..]);
      assert frames == [frames[0]] + frames[1..];
      assert AllEmpty(frames) <==> frames[0].data == [] && AllEmpty(frames[1..]);
      assert frames[0].data != [] ==> |Cut(pid, r.cc, Some(frames[0].Lead(r.last)), frames[0].data)| > 0;
    }
  }

  lemma LastOfPcr(r: Run, pid: Byte, full: int, f: Frame)
    requires r.Valid() && f.Valid() && SendsPcr(f) && f.Lead(0).Pcr() + 90 < MODULUS
    ensures r.Next(pid, full, f).last == f.Lead(0).Pcr() + 90
  {
    hide Tables.After, FillCount, FillLeft, NextPacket;
    assert |Cut(pid, r.cc, Some(f.Lead(r.last)), f.data)| > 0;
  }

  /** What the adaptation field of a frame with a PCR says. */
  lemma FieldOfPcr(pid: Byte, cc: Counter, last: Tick, f: Frame)
    requires SendsPcr(f)
    ensures var field := NextPacket(pid, cc, Some(f.Lead(last)), f.data).field;
      && |field| == 8
      && field[1] & 0x10 != 0 && ReadPcrBase(field[2..8]) == f.Lead(0).Pcr()
      && (field[1] & 0x80 != 0 <==> f.Lead(0).Pcr() < last)
      && (field[1] & 0x40 != 0 <==> f.random)
  {
    hide PcrBytes, ReadPcrBase, Octet, Lead.Pes;
    var lead := f.Lead(last);
    PcrReadsBack(lead.Pcr());
    FlagBits(f.random, lead.Pcr() < lead.last);
    var field := NextPacket(pid, cc, Some(lead), f.data).field;
    assert field[2..8] == PcrBytes(lead.Pcr());
  }

  /** Two PCRs of a run with none between them, away from the wrap: the second is
      sent as it is, and marked as a discontinuity exactly when it is below the first
      plus 90 ticks, or, if a frame without PCR was sent between them, below 90.  So
      a lower PCR goes out unmarked exactly behind such a frame. */
  lemma LowerPcrIsAnnounced(r: Run, pid: Byte, full: int, f: Frame, between: seq<Frame>, g: Frame)
    requires r.Valid() && f.Valid() && g.Valid() && forall b | b in between :: b.Valid() && !SendsPcr(b)
    requires SendsPcr(f) && SendsPcr(g) && f.Lead(0).Pcr() + 90 < MODULUS
    ensures var next := r.Next(pid, full, f).After(pid, full, between);
            var field := NextPacket(pid, next.cc, Some(g.Lead(next.last)), g.data).field;
            var first, second := f.Lead(0).Pcr(), g.Lead(0).Pcr();
      && |field| == 8 && field[1] & 0x10 != 0 && ReadPcrBase(field[2..8]) == second
      && (field[1] & 0x80 != 0 <==> second < (if AllEmpty(between) then first + 90 else 90))
      && (second < first ==> (field[1] & 0x80 == 0 <==> !AllEmpty(between) && second >= 90))
      && (field[1] & 0x40 != 0 <==> g.random)
  {
    hide PcrBytes, ReadPcrBase, NextPacket, Run.Next, Run.After, AllEmpty;
    var next := r.Next(pid, full, f).After(pid, full, between);
    LastOfPcr(r, pid, full, f);
    LastWithoutPcr(r.Next(pid, full, f), pid, full, between);
    FieldOfPcr(pid, next.cc, next.last, g);
  }
}
