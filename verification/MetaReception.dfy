/** What a receiver of the metadata stream gets over whole runs of the multiplexer:
    one PES a frame, as long as no table and no null packet shares its pid. */
module MetaReception {
  import opened Bytes
  import opened TsPacket
  import opened Datagrams
  import opened Multiplexer
  import opened Streams
  import opened Reception
  import opened Klv

  // ----- The bytes a receiver takes -----

  /** What a packet of the stream brings; one that does not parse counts, too. */
  function PacketLoad(pid: bv16, packet: seq<Byte>): nat {
    if |packet| != LENGTH || packet[0] != SYNC || PidOf(packet) != pid then 0
    else
      match Parse(packet)
      case None => 1
      case Some(p) => |p.payload|
  }

  function Load(pid: bv16, packets: seq<seq<Byte>>): nat {
    if packets == [] then 0 else PacketLoad(pid, packets[0]) + Load(pid, packets[1..])
  }

  lemma {:induction false} LoadConcat(pid: bv16, a: seq<seq<Byte>>, b: seq<seq<Byte>>)
    ensures Load(pid, a + b) == Load(pid, a) + Load(pid, b)
  {
    hide PacketLoad;
    if a == [] {
      assert a + b == b;
    } else {
      assert (a + b)[1..] == a[1..] + b;
      LoadConcat(pid, a[1..], b);
    }
  }

  lemma FlattenFirst(first: seq<Byte>, rest: seq<seq<Byte>>)
    ensures Flatten([first] + rest) == first + Flatten(rest)
  {
    assert ([first] + rest)[1..] == rest;
  }

  lemma FlattenOpen(open: Option<seq<Byte>>)
    ensures |Flatten(OpenUnit(open))| == if open.Some? then |open.value| else 0
  {}

  /** A receiver that does not fail gives exactly the bytes that were brought. */
  lemma {:induction false} UnitsAreLoaded(pid: bv16, cc: nat, open: Option<seq<Byte>>, packets: seq<seq<Byte>>)
    requires AreWhole(packets)
    ensures |Flatten(packets)| % LENGTH == 0
    ensures var units := Units(pid, cc, open, Flatten(packets));
            units.Some? ==> |Flatten(units.value)| == |Flatten(OpenUnit(open))| + Load(pid, packets)
    decreases |packets|
  {
    hide PidOf, Parse;
    FlattenOpen(open);
    if packets != [] {
      var stream, tail := Flatten(packets), Flatten(packets[1..]);
      assert stream[..LENGTH] == packets[0] && stream[LENGTH..] == tail;
      var p := Parse(packets[0]);
      if PidOf(packets[0]) != pid || packets[0][0] != SYNC || p.None? {
        UnitsAreLoaded(pid, cc, open, packets[1..]);
      } else if p.value.pusi {
        UnitsAreLoaded(pid, (cc + 1) % 16, Some(p.value.payload), packets[1..]);
        FlattenOpen(Some(p.value.payload));
        var later := Units(pid, (cc + 1) % 16, Some(p.value.payload), tail);
        if open.Some? && later.Some? {
          FlattenFirst(open.value, later.value);
        }
      } else if open.Some? {
        UnitsAreLoaded(pid, (cc + 1) % 16, Some(open.value + p.value.payload), packets[1..]);
        FlattenOpen(Some(open.value + p.value.payload));
      } else {
        UnitsAreLoaded(pid, cc, open, packets[1..]);
      }
    }
  }

  // ----- The packets of a run -----

  /** The frames bring the packets of the metadata stream, counted on from `cc`. */
  ghost predicate Tagged(frames: seq<Frame>, pid: bv16, cc: Counter, key: seq<Byte>, cells: seq<Option<Cell>>)
    requires |key| == KEY_LENGTH
    decreases |frames|
  {
    && |frames| == |cells|
    && (frames != [] ==>
          && frames[0].klv == (match cells[0] case None => None case Some(c) => Some(KlvPacket(pid, cc, key, c)))
          && Tagged(frames[1..], pid, CounterBehind(cc, cells[0]), key, cells[1..]))
  }

  function CounterBehind(cc: Counter, cell: Option<Cell>): Counter {
    if cell.None? then cc else (cc + 1) % 16
  }

  function PesOf(key: seq<Byte>, cell: Option<Cell>): seq<seq<Byte>>
    requires |key| == KEY_LENGTH
  {
    if cell.None? then [] else [Pes(key, cell.value)]
  }

  /** The units a receiver should get. */
  function PesList(key: seq<Byte>, cells: seq<Option<Cell>>): seq<seq<Byte>>
    requires |key| == KEY_LENGTH
  {
    if cells == [] then [] else PesOf(key, cells[0]) + PesList(key, cells[1..])
  }

  function FillPackets(r: Run, video: Byte, full: int, f: Frame): seq<seq<Byte>>
    requires r.Valid() && f.Valid()
  {
    r.tables.Filling(FillOf(r, video, full, f))
  }

  ghost predicate AllFillForeign(r: Run, video: Byte, full: int, frames: seq<Frame>, pid: bv16)
    requires r.Valid() && forall f | f in frames :: f.Valid()
    decreases |frames|
  {
    frames == []
    || (AreForeign(pid, FillPackets(r, video, full, frames[0]))
        && AllFillForeign(r.Next(video, full, frames[0]), video, full, frames[1..], pid))
  }

  lemma {:induction false} VideoIsForeign(pid: bv16, video: Byte, cc: Counter, lead: Option<Lead>, data: seq<Byte>)
    requires video as bv16 != pid
    ensures AreForeign(pid, ContentList(Cut(video, cc, lead, data)))
    decreases |data|
  {
    hide NextPacket, Packet.Content, PidOf, Lead.Pes, Parse;
    if data != [] {
      var p := NextPacket(video, cc, lead, data);
      var rest := ContentList(Cut(video, (cc + 1) % 16, None, data[|p.payload|..]));
      PacketParsesBack(video, cc, lead, data);
      VideoIsForeign(pid, video, (cc + 1) % 16, None, data[|p.payload|..]);
      ContentListNext(video, cc, lead, data);
      assert ContentList(Cut(video, cc, lead, data)) == [p.Content()] + rest;
    }
  }

  lemma ContentListNext(video: Byte, cc: Counter, lead: Option<Lead>, data: seq<Byte>)
    requires data != []
    ensures var p := NextPacket(video, cc, lead, data);
            ContentList(Cut(video, cc, lead, data))
            == [p.Content()] + ContentList(Cut(video, (cc + 1) % 16, None, data[|p.payload|..]))
  {
    hide NextPacket, Packet.Content;
    var p := NextPacket(video, cc, lead, data);
    var later := Cut(video, (cc + 1) % 16, None, data[|p.payload|..]);
    assert ([p] + later)[1..] == later;
  }

  lemma {:induction false} ForeignLoad(pid: bv16, packets: seq<seq<Byte>>)
    requires AreForeign(pid, packets)
    ensures Load(pid, packets) == 0
  {
    hide PidOf;
    if packets != [] {
      var rest := packets[1..];
      assert forall i | 0 <= i < |rest| :: rest[i] == packets[i + 1];
      ForeignLoad(pid, rest);
    }
  }

  // ----- Without a clash -----

  lemma KlvPacketIsTaken(pid: bv16, cc: Counter, key: seq<Byte>, c: Cell, open: Option<seq<Byte>>, tail: seq<Byte>)
    requires |key| == KEY_LENGTH && pid < 0x2000 && |tail| % LENGTH == 0
    ensures var packet := KlvPacket(pid, cc, key, c);
      && |packet + tail| % LENGTH == 0
      && Units(pid, cc, open, packet + tail) == Following(open, Units(pid, (cc + 1) % 16, Some(Pes(key, c)), tail))
  {
    hide KlvPacket, Pes, Parse, PidOf, Following;
    var packet := KlvPacket(pid, cc, key, c);
    PacketParses(pid, cc, key, c);
    var stream := packet + tail;
    assert stream[..LENGTH] == packet && stream[LENGTH..] == tail;
  }

  lemma FrameParts(r: Run, video: Byte, full: int, f: Frame, rest: seq<seq<Byte>>)
    requires r.Valid() && f.Valid()
    ensures var packets := FramePackets(video, r.cc, r.last, r.tables, full, f);
            var own := ContentList(Cut(video, r.cc, Some(f.Lead(r.last)), f.data));
      Flatten(packets + rest)
      == Flatten(own) + (Flatten(f.Klv()) + (Flatten(FillPackets(r, video, full, f)) + Flatten(rest)))
  {
    hide ContentList, Cut, FillPackets, FramePackets, Others, Flatten;
    var own := ContentList(Cut(video, r.cc, Some(f.Lead(r.last)), f.data));
    var fill := FillPackets(r, video, full, f);
    FramePacketsSplit(r, video, full, f);
    OthersSplit(r, video, full, f);
    FlattenConcat(own + (f.Klv() + fill), rest);
    FlattenConcat(own, f.Klv() + fill);
    FlattenConcat(f.Klv(), fill);
    assert Flatten(own) + (Flatten(f.Klv()) + Flatten(fill)) + Flatten(rest)
        == Flatten(own) + (Flatten(f.Klv()) + (Flatten(fill) + Flatten(rest)));
  }

  lemma OthersSplit(r: Run, video: Byte, full: int, f: Frame)
    requires r.Valid() && f.Valid()
    ensures Others(r, video, full, f) == f.Klv() + FillPackets(r, video, full, f)
  {}

  lemma FrameInMetaStream(r: Run, video: Byte, full: int, f: Frame, pid: bv16, cc: Counter, key: seq<Byte>,
                          cell: Option<Cell>, open: Option<seq<Byte>>, rest: seq<seq<Byte>>)
    requires r.Valid() && f.Valid() && |key| == KEY_LENGTH && pid < 0x2000 && video as bv16 != pid
    requires f.klv == match cell case None => None case Some(c) => Some(KlvPacket(pid, cc, key, c))
    requires AreForeign(pid, FillPackets(r, video, full, f)) && |Flatten(rest)| % LENGTH == 0
    ensures var packets := FramePackets(video, r.cc, r.last, r.tables, full, f);
      && |Flatten(packets + rest)| % LENGTH == 0
      && Units(pid, cc, open, Flatten(packets + rest))
         == match cell
            case None => Units(pid, cc, open, Flatten(rest))
            case Some(c) => Following(open, Units(pid, (cc + 1) % 16, Some(Pes(key, c)), Flatten(rest)))
  {
    hide FramePackets, Cut, ContentList, FillPackets, Foreign, Units, Following, KlvPacket, Pes, Lead.Pes;
    var own, fill := ContentList(Cut(video, r.cc, Some(f.Lead(r.last)), f.data)), FillPackets(r, video, full, f);
    var tail := Flatten(fill) + Flatten(rest);
    FrameParts(r, video, full, f, rest);
    VideoIsForeign(pid, video, r.cc, Some(f.Lead(r.last)), f.data);
    match cell
    case None =>
      assert Flatten(f.Klv()) + tail == tail;
      ForeignPacketsAreSkipped(pid, cc, open, fill, Flatten(rest));
      ForeignPacketsAreSkipped(pid, cc, open, own, tail);
    case Some(c) =>
      assert Flatten(f.Klv()) == f.klv.value;
      ForeignPacketsAreSkipped(pid, (cc + 1) % 16, Some(Pes(key, c)), fill, Flatten(rest));
      KlvPacketIsTaken(pid, cc, key, c, open, tail);
      ForeignPacketsAreSkipped(pid, cc, open, own, Flatten(f.Klv()) + tail);
  }

  lemma {:induction false} MetaComesBack(r: Run, video: Byte, full: int, frames: seq<Frame>, pid: bv16, cc: Counter,
                                         key: seq<Byte>, cells: seq<Option<Cell>>, open: Option<seq<Byte>>)
    requires r.Valid() && (forall f | f in frames :: f.Valid()) && AllFillForeign(r, video, full, frames, pid)
    requires |key| == KEY_LENGTH && pid < 0x2000 && video as bv16 != pid && Tagged(frames, pid, cc, key, cells)
    ensures |Flatten(r.Packets(video, full, frames))| % LENGTH == 0
    ensures Units(pid, cc, open, Flatten(r.Packets(video, full, frames)))
         == Some(OpenUnit(open) + PesList(key, cells))
    decreases |frames|
  {
    hide FramePackets, AreForeign, FillPackets, KlvPacket, Pes, Lead.Pes, Run.Next, Units, Following, OpenUnit, Flatten;
    if frames == [] {
      EndOfStream(pid, cc, open);
    } else {
      var next, rest := r.Next(video, full, frames[0]), PesList(key, cells[1..]);
      match cells[0] {
        case None =>
          MetaComesBack(next, video, full, frames[1..], pid, cc, key, cells[1..], open);
          assert [] + rest == rest;
        case Some(c) =>
          MetaComesBack(next, video, full, frames[1..], pid, (cc + 1) % 16, key, cells[1..], Some(Pes(key, c)));
          OpenThenMore(open, [Pes(key, c)] + rest);
          OneOpen(Pes(key, c));
      }
      FrameInMetaStream(r, video, full, frames[0], pid, cc, key, cells[0], open, next.Packets(video, full, frames[1..]));
    }
  }

  // ----- With a clash -----

  ghost predicate AreLoaded(pid: bv16, packets: seq<seq<Byte>>) {
    forall i | 0 <= i < |packets| :: Foreign(pid, packets[i]) || PacketLoad(pid, packets[i]) > 0
  }

  lemma {:induction false} LoadIfNotForeign(pid: bv16, packets: seq<seq<Byte>>)
    requires AreLoaded(pid, packets)
    ensures Load(pid, packets) > 0 <==> !AreForeign(pid, packets)
  {
    hide PidOf, Parse;
    if packets != [] {
      var rest := packets[1..];
      assert forall i | 0 <= i < |rest| :: rest[i] == packets[i + 1];
      LoadIfNotForeign(pid, rest);
      forall i | 0 < i < |packets| ensures packets[i] == rest[i - 1] {}
      if AreForeign(pid, rest) && Foreign(pid, packets[0]) {
        assert AreForeign(pid, packets);
      }
    }
  }

  lemma FrameLoad(r: Run, video: Byte, full: int, f: Frame, pid: bv16, cc: Counter, key: seq<Byte>, cell: Option<Cell>)
    requires r.Valid() && f.Valid() && |key| == KEY_LENGTH && pid < 0x2000 && video as bv16 != pid
    requires f.klv == match cell case None => None case Some(c) => Some(KlvPacket(pid, cc, key, c))
    ensures Load(pid, FramePackets(video, r.cc, r.last, r.tables, full, f))
         == |Flatten(PesOf(key, cell))| + Load(pid, FillPackets(r, video, full, f))
  {
    hide FramePackets, Cut, ContentList, FillPackets, Others, KlvPacket, Pes, Lead.Pes, PidOf, Parse, Foreign, AreForeign;
    var own, fill := ContentList(Cut(video, r.cc, Some(f.Lead(r.last)), f.data)), FillPackets(r, video, full, f);
    FramePacketsSplit(r, video, full, f);
    OthersSplit(r, video, full, f);
    LoadConcat(pid, own, f.Klv() + fill);
    LoadConcat(pid, f.Klv(), fill);
    VideoIsForeign(pid, video, r.cc, Some(f.Lead(r.last)), f.data);
    ForeignLoad(pid, own);
    match cell
    case None =>
    case Some(c) =>
      PacketParses(pid, cc, key, c);
      FlattenFirst(Pes(key, c), []);
      assert Flatten<Byte>([]) == [] && [Pes(key, c)] + [] == [Pes(key, c)];
      assert f.Klv()[1..] == [];
  }

  ghost predicate AllLoaded(r: Run, video: Byte, full: int, frames: seq<Frame>, pid: bv16)
    requires r.Valid() && forall f | f in frames :: f.Valid()
    decreases |frames|
  {
    frames == []
    || (AreLoaded(pid, FillPackets(r, video, full, frames[0]))
        && AllLoaded(r.Next(video, full, frames[0]), video, full, frames[1..], pid))
  }

  lemma {:induction false} RunLoad(r: Run, video: Byte, full: int, frames: seq<Frame>, pid: bv16, cc: Counter,
                                   key: seq<Byte>, cells: seq<Option<Cell>>)
    requires r.Valid() && (forall f | f in frames :: f.Valid()) && AllLoaded(r, video, full, frames, pid)
    requires |key| == KEY_LENGTH && pid < 0x2000 && video as bv16 != pid && Tagged(frames, pid, cc, key, cells)
    ensures AreWhole(r.Packets(video, full, frames))
    ensures Load(pid, r.Packets(video, full, frames)) >= |Flatten(PesList(key, cells))|
    ensures !AllFillForeign(r, video, full, frames, pid) ==>
              Load(pid, r.Packets(video, full, frames)) > |Flatten(PesList(key, cells))|
    decreases |frames|
  {
    hide FramePackets, FillPackets, KlvPacket, Pes, Lead.Pes, Run.Next, Load, AreForeign, AreLoaded, PesOf, Flatten;
    if frames == [] {
      NoLoad(pid);
    } else {
      var f, next := frames[0], r.Next(video, full, frames[0]);
      var packets := FramePackets(video, r.cc, r.last, r.tables, full, f);
      RunLoad(next, video, full, frames[1..], pid, CounterBehind(cc, cells[0]), key, cells[1..]);
      FrameLoad(r, video, full, f, pid, cc, key, cells[0]);
      FramePacketsAreWhole(video, r.cc, r.last, r.tables, full, f);
      LoadIfNotForeign(pid, FillPackets(r, video, full, f));
      LoadConcat(pid, packets, next.Packets(video, full, frames[1..]));
      FlattenConcat(PesOf(key, cells[0]), PesList(key, cells[1..]));
    }
  }

  lemma NoLoad(pid: bv16)
    ensures Load(pid, []) == 0 && |Flatten<Byte>([])| == 0
  {}

  /** The PES come back exactly if no packet of a filling belongs to the stream. */
  lemma ComesBackIfNoFill(r: Run, video: Byte, full: int, frames: seq<Frame>, pid: bv16, cc: Counter,
                          key: seq<Byte>, cells: seq<Option<Cell>>, open: Option<seq<Byte>>)
    requires r.Valid() && (forall f | f in frames :: f.Valid()) && AllLoaded(r, video, full, frames, pid)
    requires |key| == KEY_LENGTH && pid < 0x2000 && video as bv16 != pid && Tagged(frames, pid, cc, key, cells)
    ensures |Flatten(r.Packets(video, full, frames))| % LENGTH == 0
    ensures Units(pid, cc, open, Flatten(r.Packets(video, full, frames))) == Some(OpenUnit(open) + PesList(key, cells))
            <==> AllFillForeign(r, video, full, frames, pid)
  {
    hide Units, AllFillForeign, AllLoaded, Tagged, PesList, Load, OpenUnit, Flatten, AreWhole;
    if AllFillForeign(r, video, full, frames, pid) {
      MetaComesBack(r, video, full, frames, pid, cc, key, cells, open);
    } else {
      RunLoad(r, video, full, frames, pid, cc, key, cells);
      UnitsAreLoaded(pid, cc, open, r.Packets(video, full, frames));
      FlattenConcat(OpenUnit(open), PesList(key, cells));
    }
  }

  // ----- The pids -----

  /** The filling has the PAT second, the SDT third and null packets behind. */
  predicate Shares(pid: bv16, i: nat) {
    (pid == 0 && i == 1) || (pid == 0x11 && i == 2) || (pid == 0x1fff && i >= 3)
  }

  /** How many packets of a filling come before the first that has the pid. */
  function Before(pid: bv16): nat {
    if pid == 0 then 1 else if pid == 0x11 then 2 else 3
  }

  lemma ControlBits(b: Byte)
    ensures b & 0xf0 == 0x10 ==> (b >> 4) & 0x3 == 0x1
  {}

  /** A table with its header brings its payload to a receiver of its pid. */
  lemma TableLoads(packet: seq<Byte>, low: Byte, pid: bv16)
    requires |packet| == LENGTH && packet[..3] == [SYNC, 0x40, low]
    ensures if low as bv16 == pid then packet[3] & 0xf0 == 0x10 ==> PacketLoad(pid, packet) > 0 else Foreign(pid, packet)
  {
    var head := packet[..3];
    assert packet[0] == head[0] && packet[1] == head[1] && packet[2] == head[2];
    PidBits(0x40, low);
    ControlBits(packet[3]);
  }

  lemma NullBits()
    ensures ((0x1f as bv8 & 0x1f) as bv16 << 8) | (0xff as bv8 as bv16) == 0x1fff
  {}

  lemma NullLoads(flags: Byte, pid: bv16)
    ensures if pid == 0x1fff then PacketLoad(pid, NullPacket(flags)) > 0 else Foreign(pid, NullPacket(flags))
  {
    NullBits();
    Full();
    var packet := NullPacket(flags);
    assert packet[4] == 0xff;
  }

  lemma Full()
    ensures Value(0xff) == 255
  {}

  lemma TwoApart(x: nat)
    ensures Octet(x + 2) != Octet(x)
  {
    OctetValue(x);
    OctetValue(x + 2);
  }

  lemma SmallPids()
    ensures 0x00 as Byte as bv16 == 0 && 0x11 as Byte as bv16 == 0x11
  {}

  lemma PmtIsOther(pid: nat)
    ensures Octet(pid) as bv16 != KlvPid(pid)
  {
    hide Octet, Psi.Pid13;
    LowBits(Octet((pid + 2) / 0x100), Octet(pid + 2));
    ByteBits(Octet(pid));
    TwoApart(pid);
  }

  lemma FillingLoads(t: Tables, pid: nat, n: nat, i: nat)
    requires t.Valid() && Headed(t, pid) && i < n
    ensures var klv, p := KlvPid(pid), t.Filling(n)[i];
            if Shares(klv, i) then PacketLoad(klv, p) > 0 else Foreign(klv, p)
  {
    hide NextCopy, NullPacket, NullAfter, Foreign, PacketLoad, Octet, KlvPid;
    var klv := KlvPid(pid);
    CopyKeepsHead(t.pmt);
    CopyKeepsHead(t.pat);
    CopyKeepsHead(t.sdt);
    SmallPids();
    if i == 0 {
      PmtIsOther(pid);
      TableLoads(NextCopy(t.pmt), Octet(pid), klv);
    } else if i == 1 {
      TableLoads(NextCopy(t.pat), 0x00, klv);
    } else if i == 2 {
      TableLoads(NextCopy(t.sdt), 0x11, klv);
    } else {
      NullLoads(NullAfter(t.nulls, i - 3), klv);
    }
  }

  lemma LoadedIsNotForeign(pid: bv16, packet: seq<Byte>)
    ensures PacketLoad(pid, packet) > 0 ==> !Foreign(pid, packet)
  {}

  lemma FillIsLoaded(t: Tables, pid: nat, n: nat)
    requires t.Valid() && Headed(t, pid)
    ensures var klv := KlvPid(pid);
      && AreLoaded(klv, t.Filling(n))
      && (AreForeign(klv, t.Filling(n)) <==> klv !in {0, 0x11, 0x1fff} || n <= Before(klv))
  {
    hide Foreign, PacketLoad, Octet, Headed, Tables.Filling, KlvPid;
    var klv := KlvPid(pid);
    var fill := t.Filling(n);
    forall i | 0 <= i < n
      ensures if Shares(klv, i) then PacketLoad(klv, fill[i]) > 0 else Foreign(klv, fill[i])
    {
      FillingLoads(t, pid, n, i);
    }
    if klv in {0, 0x11, 0x1fff} && n > Before(klv) {
      LoadedIsNotForeign(klv, fill[Before(klv)]);
    }
  }

  /** No filling gets to a packet that has the pid of the metadata stream. */
  predicate NoMetaClash(r: Run, video: Byte, full: int, frames: seq<Frame>, pid: bv16)
    requires r.Valid() && forall f | f in frames :: f.Valid()
    decreases |frames|
  {
    frames == []
    || (FillOf(r, video, full, frames[0]) <= Before(pid)
        && NoMetaClash(r.Next(video, full, frames[0]), video, full, frames[1..], pid))
  }

  lemma {:induction false} RunIsLoaded(r: Run, pid: nat, full: int, frames: seq<Frame>)
    requires r.Valid() && Headed(r.tables, pid) && forall f | f in frames :: f.Valid()
    ensures var klv, video := KlvPid(pid), Octet(pid + 1);
      && AllLoaded(r, video, full, frames, klv)
      && (AllFillForeign(r, video, full, frames, klv)
          <==> klv !in {0, 0x11, 0x1fff} || NoMetaClash(r, video, full, frames, klv))
    decreases |frames|
  {
    hide AreForeign, AreLoaded, FillOf, Octet, Headed, KlvPid, Run.Next;
    if frames != [] {
      FillIsLoaded(r.tables, pid, FillOf(r, Octet(pid + 1), full, frames[0]));
      NextIsHeaded(r, pid, full, frames[0]);
      RunIsLoaded(r.Next(Octet(pid + 1), full, frames[0]), pid, full, frames[1..]);
    }
  }

  /** With the tables of a stream, repeated any number of times, and frames that bring
      the packets of the metadata stream: its receiver gets exactly their PES if and only
      if its pid, the configured one plus two in 13 bits, is not that of the PAT, of the
      SDT or of null packets, or no filling of the run gets to such a packet. */
  lemma MetaRunComesBack(r: Run, pid: nat, full: int, frames: seq<Frame>, cc: Counter, key: seq<Byte>,
                         cells: seq<Option<Cell>>, open: Option<seq<Byte>>)
    requires r.Valid() && Headed(r.tables, pid) && forall f | f in frames :: f.Valid()
    requires |key| == KEY_LENGTH && Tagged(frames, KlvPid(pid), cc, key, cells)
    ensures var klv, video := KlvPid(pid), Octet(pid + 1);
      && |Flatten(r.Packets(video, full, frames))| % LENGTH == 0
      && (Units(klv, cc, open, Flatten(r.Packets(video, full, frames))) == Some(OpenUnit(open) + PesList(key, cells))
          <==> klv !in {0, 0x11, 0x1fff} || NoMetaClash(r, video, full, frames, klv))
  {
    hide Units, AllFillForeign, AllLoaded, Tagged, PesList, OpenUnit, Flatten, Headed, NoMetaClash, Octet, KlvPid;
    VideoIsOther(pid);
    RunIsLoaded(r, pid, full, frames);
    ComesBackIfNoFill(r, Octet(pid + 1), full, frames, KlvPid(pid), cc, key, cells, open);
  }
}
