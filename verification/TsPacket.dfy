/** The 188-byte packets of the MPEG transport stream: how a frame is cut into
    them, and how a receiver that follows section 2.4.3 of ISO/IEC 13818-1 puts
    it together again. */
module TsPacket {
  import opened Bytes
  import opened SmoothClock

  const LENGTH: nat := 188
  const HEADER_LENGTH: nat := 4
  const PES_HEADER_LENGTH: nat := 19
  const SYNC: Byte := 0x47

  // ----- The sender's packets -----

  function HeaderBytes(pid: Byte, pusi: bool, adaptation: bool, cc: nat): (h: seq<Byte>)
    ensures |h| == HEADER_LENGTH
  {
    [SYNC, if pusi then 0x40 else 0x00, pid, (if adaptation then 0x30 else 0x10) | Octet(cc)]
  }

  /** One packet, in the pieces that are handed to the transport. */
  datatype Packet = Packet(
    pid: Byte, pusi: bool, cc: nat,
    field: seq<Byte>,     // the adaptation field up to its stuffing, or nothing
    stuffing: seq<Byte>,
    pes: seq<Byte>,       // the PES header, first packet of a frame only
    payload: seq<Byte>)
  {
    function Header(): (h: seq<Byte>)
      ensures |h| == HEADER_LENGTH
    {
      HeaderBytes(pid, pusi, field != [], cc)
    }

    function Content(): seq<Byte> {
      Header() + field + stuffing + pes + payload
    }
  }

  /** What the first packet of a frame carries besides the data. */
  datatype Lead = Lead(stamp: Option<Tick>, random: bool, last: Tick)
  {
    /** The PCR sent with the frame, 0 for none. */
    function Pcr(): Tick {
      if stamp.Some? then stamp.value else 0
    }

    /** One millisecond after the PCR. */
    function Pts(): Tick {
      Wrap(Pcr() + 90)
    }

    function Pes(): (h: seq<Byte>)
      ensures |h| == PES_HEADER_LENGTH
    {
      [0x00, 0x00, 0x01, 0xe0, 0x00, 0x00, 0x80, 0xc0, 0x0a] + TimeStamp(0x10, Pts()) + TimeStamp(0x10, last)
    }

    /** The field starting the adaptation field: its flags and the PCR. */
    function Flags(): (f: seq<Byte>)
      ensures |f| == 1 || |f| == 7
    {
      if Pcr() == 0 then
        [0x00]
      else
        [0x10 | (if random then 0x40 else 0x00) | (if Pcr() < last then 0x80 else 0x00)] + PcrBytes(Pcr())
    }
  }

  /** A 33-bit time stamp in five bytes, its top bits below the given prefix. */
  function TimeStamp(prefix: Byte, t: Tick): (bytes: seq<Byte>)
    ensures |bytes| == 5
  {
    [prefix | Octet(t / 0x4000_0000 % 8 * 2 + 1), Octet(t / 0x40_0000), Octet(t / 0x8000 % 0x80 * 2 + 1),
     Octet(t / 0x80), Octet(t % 0x80 * 2 + 1)]
  }

  function PcrBytes(t: Tick): (bytes: seq<Byte>)
    ensures |bytes| == 6
  {
    [Octet(t / 0x200_0000), Octet(t / 0x2_0000), Octet(t / 0x200), Octet(t / 2), Octet(t % 2 * 0x80 + 0x7e), 0x00]
  }

  /** The packet that takes the next part of `data`. */
  function NextPacket(pid: Byte, cc: nat, lead: Option<Lead>, data: seq<Byte>): (p: Packet)
    requires data != []
    ensures 0 < |p.payload| <= |data|
  {
    var pes := if lead.Some? then lead.value.Pes() else [];
    var room := LENGTH - HEADER_LENGTH - |pes|;
    if (lead.Some? && lead.value.stamp.Some?) || |data| < room then
      var flags := if lead.Some? then lead.value.Flags() else [0x00];
      var size := Max(1 + |flags|, room - |data|);
      Packet(pid, lead.Some?, cc, [Octet(size - 1)] + flags, Fill(0xff, size - 1 - |flags|), pes, data[..room - size])
    else
      Packet(pid, lead.Some?, cc, [], [], pes, data[..room])
  }

  function Max(a: int, b: int): int {
    if a < b then b else a
  }

  /** All the packets of a frame. */
  function Cut(pid: Byte, cc: nat, lead: Option<Lead>, data: seq<Byte>): seq<Packet>
    decreases |data|
  {
    if data == [] then
      []
    else
      var p := NextPacket(pid, cc, lead, data);
      [p] + Cut(pid, (cc + 1) % 16, None, data[|p.payload|..])
  }

  function Contents(packets: seq<Packet>): seq<Byte> {
    if packets == [] then [] else packets[0].Content() + Contents(packets[1..])
  }

  // ----- The receiver -----

  datatype Parsed = Parsed(pid: bv16, pusi: bool, cc: nat, payload: seq<Byte>)

  /** One packet, after section 2.4.3.2: the adaptation field is skipped by its
      length byte. */
  function Parse(packet: seq<Byte>): Option<Parsed>
    requires |packet| == LENGTH
  {
    var control := (packet[3] >> 4) & 0x3;
    var skip := if control & 0x2 == 0 then 0 else 1 + Value(packet[4]);
    if packet[0] != SYNC || control == 0 || HEADER_LENGTH + skip > LENGTH then
      None
    else
      Some(Parsed(PidOf(packet),
                  packet[1] & 0x40 != 0, Value(packet[3] & 0x0f),
                  if control & 0x1 == 0 then [] else packet[HEADER_LENGTH + skip..]))
  }

  function PidOf(packet: seq<Byte>): bv16
    requires |packet| == LENGTH
  {
    ((packet[1] & 0x1f) as bv16 << 8) | packet[2] as bv16
  }

  /** The payload units of one elementary stream, in order: a packet with the
      start indicator opens a unit, the others continue it.  Packets of other
      streams are skipped.  A lost synchronisation byte, a continuity counter out
      of step or the lack of a start make it fail. */
  function Units(pid: bv16, cc: nat, open: Option<seq<Byte>>, stream: seq<Byte>): Option<seq<seq<Byte>>>
    requires |stream| % LENGTH == 0
    decreases |stream|
  {
    if stream == [] then
      Some(if open.Some? then [open.value] else [])
    else if stream[0] != SYNC then
      None
    else if PidOf(stream[..LENGTH]) != pid then
      Units(pid, cc, open, stream[LENGTH..])
    else
      match Parse(stream[..LENGTH])
      case None => None
      case Some(p) =>
        if p.cc != cc || (open.None? && !p.pusi) then
          None
        else if p.pusi then
          Following(open, Units(pid, (cc + 1) % 16, Some(p.payload), stream[LENGTH..]))
        else
          Units(pid, (cc + 1) % 16, Some(open.value + p.payload), stream[LENGTH..])
  }

  /** The units after one that was open so far. */
  function Following(open: Option<seq<Byte>>, units: Option<seq<seq<Byte>>>): Option<seq<seq<Byte>>> {
    if units.None? || open.None? then units else Some([open.value] + units.value)
  }

  // ----- Every packet is whole, and parses back -----

  /** The packets of a frame: whole, counted on from `cc`, and only the first one
      with the start indicator. */
  lemma {:induction false} PacketAt(pid: Byte, cc: nat, lead: Option<Lead>, data: seq<Byte>, i: nat)
    requires cc < 16 && i < |Cut(pid, cc, lead, data)|
    ensures var p := Cut(pid, cc, lead, data)[i];
      && |p.Content()| == LENGTH && p.pid == pid && p.cc == (cc + i) % 16
      && p.pusi == (i == 0 && lead.Some?)
    decreases i
  {
    hide NextPacket, Packet.Content, Lead.Pes;
    var p := NextPacket(pid, cc, lead, data);
    if i == 0 {
      PacketIsWhole(pid, cc, lead, data);
      NextPacketShape(pid, cc, lead, data);
    } else {
      PacketAt(pid, (cc + 1) % 16, None, data[|p.payload|..], i - 1);
      NextCounter(cc, i);
    }
  }

  lemma NextCounter(cc: nat, i: nat)
    requires i > 0
    ensures ((cc + 1) % 16 + (i - 1)) % 16 == (cc + i) % 16
  {}

  lemma NextPacketShape(pid: Byte, cc: nat, lead: Option<Lead>, data: seq<Byte>)
    requires data != []
    ensures var p := NextPacket(pid, cc, lead, data);
      && p.pid == pid && p.cc == cc && p.pusi == lead.Some?
      && p.pes == (if lead.Some? then lead.value.Pes() else [])
      && p.payload == data[..|p.payload|]
      && HEADER_LENGTH + |p.field| + |p.stuffing| + |p.pes| + |p.payload| == LENGTH
      && (p.field != [] ==> Value(p.field[0]) == |p.field| + |p.stuffing| - 1)
      && (p.field == [] ==> p.stuffing == [])
  {
    hide Lead.Pes, Lead.Flags, Octet, Value;
    var p := NextPacket(pid, cc, lead, data);
    if p.field != [] {
      OctetValue(|p.field| + |p.stuffing| - 1);
    }
  }

  /** A packet has an adaptation field exactly if it is stamped or the data do not fill
      it, and takes as much of the data as the smallest such field leaves room for. */
  lemma PacketIsFull(pid: Byte, cc: nat, lead: Option<Lead>, data: seq<Byte>)
    requires data != []
    ensures var p := NextPacket(pid, cc, lead, data);
            var stamped := lead.Some? && lead.value.stamp.Some?;
            var room := LENGTH - HEADER_LENGTH - if lead.Some? then PES_HEADER_LENGTH else 0;
            var least := if stamped && lead.value.stamp.value != 0 then 8 else if stamped || |data| < room then 2 else 0;
      && (p.field != [] <==> stamped || |data| < room)
      && |p.field| == least
      && |p.payload| == (if |data| < room - least then |data| else room - least)
  {
    hide Lead.Pes, Octet, Lead.Flags;
    if lead.Some? {
      FlagsLength(lead.value);
    }
  }

  lemma FlagsLength(lead: Lead)
    ensures |lead.Flags()| == if lead.stamp.Some? && lead.stamp.value != 0 then 7 else 1
  {
    hide PcrBytes;
  }

  /** The packets of data that go on behind the first packet: each takes 184 bytes, and
      one byte short of that are sent as 182 and 1. */
  lemma {:induction false} PacketsOfRest(pid: Byte, cc: nat, data: seq<Byte>)
    ensures |Cut(pid, cc, None, data)|
         == |data| / 184 + (if |data| % 184 == 0 then 0 else if |data| % 184 == 183 then 2 else 1)
    decreases |data|
  {
    hide NextPacket;
    if data != [] {
      var p := NextPacket(pid, cc, None, data);
      PacketIsFull(pid, cc, None, data);
      PacketsOfRest(pid, (cc + 1) % 16, data[|p.payload|..]);
      OneFull(|data|);
    }
  }

  lemma OneFull(n: nat)
    ensures n >= 184 ==> (n - 184) / 184 == n / 184 - 1 && (n - 184) % 184 == n % 184
    ensures n < 184 ==> n / 184 == 0 && n % 184 == n
  {}

  lemma PacketIsWhole(pid: Byte, cc: nat, lead: Option<Lead>, data: seq<Byte>)
    requires data != []
    ensures |NextPacket(pid, cc, lead, data).Content()| == LENGTH
  {
    hide NextPacket, Packet.Header;
    NextPacketShape(pid, cc, lead, data);
  }

  lemma HeaderBits(c: Byte)
    requires c < 16
    ensures ((0x30 | c) >> 4) & 0x3 == 0x3 && (0x30 | c) & 0x0f == c
    ensures ((0x10 | c) >> 4) & 0x3 == 0x1 && (0x10 | c) & 0x0f == c
  {}

  lemma SmallOctet(x: nat)
    requires x < 16
    ensures Octet(x) < 16 && Value(Octet(x)) == x
  {
    OctetValue(x);
  }

  lemma PidBits(flags: Byte, pid: Byte)
    requires flags == 0x00 || flags == 0x40
    ensures (((flags & 0x1f) as bv16) << 8) | (pid as bv16) == pid as bv16
    ensures (flags & 0x40 != 0) == (flags == 0x40)
  {}

  /** The receiver finds the counter, the start indicator and exactly the PES
      header followed by the data, whatever the adaptation field is. */
  lemma PacketParsesBack(pid: Byte, cc: nat, lead: Option<Lead>, data: seq<Byte>)
    requires data != [] && cc < 16
    ensures var p := NextPacket(pid, cc, lead, data);
      && |p.Content()| == LENGTH
      && p.payload == data[..|p.payload|] && p.pes == (if lead.Some? then lead.value.Pes() else [])
      && p.pusi == lead.Some?
      && p.Content()[0] == SYNC && PidOf(p.Content()) == pid as bv16
      && Parse(p.Content()) == Some(Parsed(pid as bv16, p.pusi, cc, p.pes + p.payload))
  {
    hide NextPacket, Lead.Pes, Octet, Value;
    var p := NextPacket(pid, cc, lead, data);
    NextPacketShape(pid, cc, lead, data);
    ContentParsesBack(p);
  }

  lemma ContentParsesBack(p: Packet)
    requires p.cc < 16
    requires HEADER_LENGTH + |p.field| + |p.stuffing| + |p.pes| + |p.payload| == LENGTH
    requires if p.field == [] then p.stuffing == [] else Value(p.field[0]) == |p.field| + |p.stuffing| - 1
    ensures |p.Content()| == LENGTH
    ensures p.Content()[0] == SYNC && PidOf(p.Content()) == p.pid as bv16
    ensures Parse(p.Content()) == Some(Parsed(p.pid as bv16, p.pusi, p.cc, p.pes + p.payload))
  {
    hide Octet, Value, Packet.Content;
    var c := p.Content();
    var cc := Octet(p.cc);
    SmallOctet(p.cc);
    HeaderBits(cc);
    PidBits(if p.pusi then 0x40 else 0x00, p.pid);
    ContentSlices(p);
    var control := (c[3] >> 4) & 0x3;
    if p.field == [] {
      assert control == 0x1;
    } else {
      assert control == 0x3 && control & 0x2 != 0;
      assert 1 + Value(c[4]) == |p.field| + |p.stuffing|;
    }
  }

  lemma ContentSlices(p: Packet)
    ensures var c, h := p.Content(), p.Header();
      && |c| == HEADER_LENGTH + |p.field| + |p.stuffing| + |p.pes| + |p.payload|
      && c[0] == h[0] && c[1] == h[1] && c[2] == h[2] && c[3] == h[3]
      && c[HEADER_LENGTH + |p.field| + |p.stuffing|..] == p.pes + p.payload
      && (p.field != [] ==> c[HEADER_LENGTH] == p.field[0])
      && (p.field + p.stuffing == [] ==> c[HEADER_LENGTH..] == p.pes + p.payload)
  {
    hide Packet.Header;
    assert p.Content() == p.Header() + (p.field + p.stuffing) + (p.pes + p.payload);
  }

  // ----- A frame comes back as one unit -----

  lemma ContentsAreWhole(pid: Byte, cc: nat, lead: Option<Lead>, data: seq<Byte>)
    ensures |Contents(Cut(pid, cc, lead, data))| == LENGTH * |Cut(pid, cc, lead, data)|
    decreases |data|
  {
    if data != [] {
      var p := NextPacket(pid, cc, lead, data);
      PacketIsWhole(pid, cc, lead, data);
      ContentsAreWhole(pid, (cc + 1) % 16, None, data[|p.payload|..]);
    }
  }

  function CounterAfter(pid: Byte, cc: nat, lead: Option<Lead>, data: seq<Byte>): nat {
    (cc + |Cut(pid, cc, lead, data)|) % 16
  }

  /** What a receiver does with one packet of the stream. */
  lemma OnePacket(pid: Byte, cc: nat, lead: Option<Lead>, data: seq<Byte>, open: Option<seq<Byte>>, tail: seq<Byte>)
    requires cc < 16 && data != [] && |tail| % LENGTH == 0 && (open.Some? || lead.Some?)
    ensures var p := NextPacket(pid, cc, lead, data);
      && |p.Content() + tail| % LENGTH == 0
      && Units(pid as bv16, cc, open, p.Content() + tail)
         == if lead.Some? then Following(open, Units(pid as bv16, (cc + 1) % 16, Some(p.pes + p.payload), tail))
            else Units(pid as bv16, (cc + 1) % 16, Some(open.value + p.payload), tail)
  {
    hide NextPacket, Parse, PidOf, Lead.Pes, Packet.Content, Following;
    var p := NextPacket(pid, cc, lead, data);
    PacketParsesBack(pid, cc, lead, data);
    var stream := p.Content() + tail;
    assert stream[..LENGTH] == p.Content() && stream[LENGTH..] == tail;
    assert p.pes == [] ==> p.pes + p.payload == p.payload;
  }

  lemma CounterOfCut(pid: Byte, cc: nat, lead: Option<Lead>, data: seq<Byte>)
    requires cc < 16 && data != []
    ensures var later := data[|NextPacket(pid, cc, lead, data).payload|..];
            CounterAfter(pid, cc, lead, data) == CounterAfter(pid, (cc + 1) % 16, None, later)
  {
    hide NextPacket;
    var later := data[|NextPacket(pid, cc, lead, data).payload|..];
    assert |Cut(pid, cc, lead, data)| == 1 + |Cut(pid, (cc + 1) % 16, None, later)|;
    NextCounter(cc, |Cut(pid, cc, lead, data)|);
  }

  lemma WholeTail(n: nat, contents: seq<Byte>, rest: seq<Byte>)
    requires |contents| == LENGTH * n && |rest| % LENGTH == 0
    ensures |contents + rest| % LENGTH == 0
  {}

  lemma ContentsOfCut(pid: Byte, cc: nat, lead: Option<Lead>, data: seq<Byte>)
    requires data != []
    ensures var p := NextPacket(pid, cc, lead, data);
            Contents(Cut(pid, cc, lead, data))
            == p.Content() + Contents(Cut(pid, (cc + 1) % 16, None, data[|p.payload|..]))
  {
    hide NextPacket, Packet.Content;
    var p := NextPacket(pid, cc, lead, data);
    var packets := Cut(pid, (cc + 1) % 16, None, data[|p.payload|..]);
    assert ([p] + packets)[1..] == packets;
  }

  /** The first packet of a cut, and the rest of it. */
  lemma FirstOfCut(pid: Byte, cc: nat, lead: Option<Lead>, data: seq<Byte>, rest: seq<Byte>)
    requires cc < 16 && data != [] && |rest| % LENGTH == 0
    ensures var p := NextPacket(pid, cc, lead, data); var later := data[|p.payload|..];
            var tail := Contents(Cut(pid, (cc + 1) % 16, None, later)) + rest;
      && Contents(Cut(pid, cc, lead, data)) + rest == p.Content() + tail && |tail| % LENGTH == 0
      && CounterAfter(pid, cc, lead, data) == CounterAfter(pid, (cc + 1) % 16, None, later)
      && p.pes == (if lead.Some? then lead.value.Pes() else []) && p.payload + later == data
  {
    hide NextPacket, Lead.Pes, Packet.Content, Cut, Contents, CounterAfter;
    var p := NextPacket(pid, cc, lead, data);
    var later := data[|p.payload|..];
    var packets := Cut(pid, (cc + 1) % 16, None, later);
    NextPacketShape(pid, cc, lead, data);
    ContentsAreWhole(pid, (cc + 1) % 16, None, later);
    WholeTail(|packets|, Contents(packets), rest);
    ContentsOfCut(pid, cc, lead, data);
    CounterOfCut(pid, cc, lead, data);
    assert p.Content() + Contents(packets) + rest == p.Content() + (Contents(packets) + rest);
  }

  lemma {:induction false} ContinuedUnit(pid: Byte, cc: nat, open: seq<Byte>, data: seq<Byte>, rest: seq<Byte>)
    requires cc < 16 && |rest| % LENGTH == 0
    ensures |Contents(Cut(pid, cc, None, data)) + rest| % LENGTH == 0
    ensures Units(pid as bv16, cc, Some(open), Contents(Cut(pid, cc, None, data)) + rest)
         == Units(pid as bv16, CounterAfter(pid, cc, None, data), Some(open + data), rest)
    decreases |data|
  {
    if data == [] {
      hide Units;
      assert open + data == open && Contents(Cut(pid, cc, None, data)) + rest == rest;
    } else {
      hide NextPacket, Units, Lead.Pes, Packet.Content, Cut, Contents, CounterAfter;
      var p := NextPacket(pid, cc, None, data);
      var later := data[|p.payload|..];
      FirstOfCut(pid, cc, None, data, rest);
      ContinuedUnit(pid, (cc + 1) % 16, open + p.payload, later, rest);
      OnePacket(pid, cc, None, data, Some(open), Contents(Cut(pid, (cc + 1) % 16, None, later)) + rest);
      assert open + p.payload + later == open + data;
    }
  }

  /** Whatever comes before and after, the packets of a frame come back as one
      unit: the PES header and every byte of the frame, once and in order. */
  lemma FrameComesBack(pid: Byte, cc: nat, lead: Lead, frame: seq<Byte>, open: Option<seq<Byte>>, rest: seq<Byte>)
    requires cc < 16 && |rest| % LENGTH == 0 && frame != []
    ensures |Contents(Cut(pid, cc, Some(lead), frame)) + rest| % LENGTH == 0
    ensures Units(pid as bv16, cc, open, Contents(Cut(pid, cc, Some(lead), frame)) + rest)
         == Following(open, Units(pid as bv16, CounterAfter(pid, cc, Some(lead), frame), Some(lead.Pes() + frame), rest))
  {
    hide NextPacket, Units, Following, Lead.Pes, Packet.Content, Cut, Contents, CounterAfter;
    var p := NextPacket(pid, cc, Some(lead), frame);
    var later := frame[|p.payload|..];
    FirstOfCut(pid, cc, Some(lead), frame, rest);
    ContinuedUnit(pid, (cc + 1) % 16, p.pes + p.payload, later, rest);
    OnePacket(pid, cc, Some(lead), frame, open, Contents(Cut(pid, (cc + 1) % 16, None, later)) + rest);
    assert p.pes + p.payload + later == lead.Pes() + frame;
  }

  /** A whole packet of another stream. */
  ghost predicate Foreign(pid: bv16, packet: seq<Byte>) {
    |packet| == LENGTH && packet[0] == SYNC && PidOf(packet) != pid
  }

  lemma ForeignPacketIsSkipped(pid: bv16, cc: nat, open: Option<seq<Byte>>, packet: seq<Byte>, tail: seq<Byte>)
    requires Foreign(pid, packet) && |tail| % LENGTH == 0
    ensures |packet + tail| % LENGTH == 0
    ensures Units(pid, cc, open, packet + tail) == Units(pid, cc, open, tail)
  {
    hide Parse, PidOf, Following;
    var stream := packet + tail;
    assert stream[..LENGTH] == packet && stream[LENGTH..] == tail;
  }

  lemma {:induction false} ForeignPacketsAreSkipped(pid: bv16, cc: nat, open: Option<seq<Byte>>,
                                                    packets: seq<seq<Byte>>, rest: seq<Byte>)
    requires forall i | 0 <= i < |packets| :: Foreign(pid, packets[i])
    requires |rest| % LENGTH == 0
    ensures |Flatten(packets) + rest| % LENGTH == 0
    ensures Units(pid, cc, open, Flatten(packets) + rest) == Units(pid, cc, open, rest)
    decreases |packets|
  {
    hide Units, Foreign;
    if packets == [] {
      assert Flatten(packets) + rest == rest;
    } else {
      var tail := Flatten(packets[1..]) + rest;
      ForeignPacketsAreSkipped(pid, cc, open, packets[1..], rest);
      ForeignPacketIsSkipped(pid, cc, open, packets[0], tail);
      assert Flatten(packets) + rest == packets[0] + tail;
    }
  }

  // ----- Time stamps come back -----

  function ReadTimeStamp(b: seq<Byte>): nat
    requires |b| == 5
  {
    Value(b[0]) / 2 % 8 * 0x4000_0000 + Value(b[1]) * 0x40_0000 + Value(b[2]) / 2 * 0x8000
      + Value(b[3]) * 0x80 + Value(b[4]) / 2
  }

  function ReadPcrBase(b: seq<Byte>): nat
    requires |b| == 6
  {
    Value(b[0]) * 0x200_0000 + Value(b[1]) * 0x2_0000 + Value(b[2]) * 0x200 + Value(b[3]) * 2 + Value(b[4]) / 0x80
  }

  lemma PrefixBits(c: Byte)
    requires c < 8
    ensures Value(0x10 | c) == 16 + Value(c)
    ensures Value(0x20 | c) == 32 + Value(c)
  {}

  lemma DivideTwice(t: nat)
    ensures t / 0x80 / 0x100 == t / 0x8000
    ensures t / 0x8000 / 0x80 == t / 0x40_0000
    ensures t / 0x40_0000 / 0x100 == t / 0x4000_0000
  {}

  lemma TimeParts(t: Tick)
    ensures t == t / 0x4000_0000 % 8 * 0x4000_0000 + t / 0x40_0000 % 0x100 * 0x40_0000
               + t / 0x8000 % 0x80 * 0x8000 + t / 0x80 % 0x100 * 0x80 + t % 0x80
  {
    DivideTwice(t);
    var a, b, c := t / 0x80, t / 0x8000, t / 0x40_0000;
    assert a == 0x100 * b + a % 0x100;
    assert b == 0x80 * c + b % 0x80;
    assert c == 0x100 * (t / 0x4000_0000) + c % 0x100;
  }

  lemma TopOctet(prefix: Byte, t: Tick)
    requires prefix == 0x10 || prefix == 0x20
    ensures Value(prefix | Octet(t / 0x4000_0000 % 8 * 2 + 1)) / 2 % 8 == t / 0x4000_0000 % 8
  {
    var top := t / 0x4000_0000 % 8 * 2 + 1;
    assert top < 8;
    SmallOctet(top);
    assert Octet(top) < 8;
    PrefixBits(Octet(top));
  }

  lemma MarkedOctet(x: nat)
    requires x < 0x80
    ensures Value(Octet(x * 2 + 1)) / 2 == x
  {
    OctetValue(x * 2 + 1);
  }

  lemma LastPcrOctet(x: nat)
    requires x < 2
    ensures Value(Octet(x * 0x80 + 0x7e)) / 0x80 == x
  {
    OctetValue(x * 0x80 + 0x7e);
  }

  /** The 33-bit field of a PES header, of either kind. */
  lemma TimeStampReadsBack(prefix: Byte, t: Tick)
    requires prefix == 0x10 || prefix == 0x20
    ensures ReadTimeStamp(TimeStamp(prefix, t)) == t
  {
    hide Octet, Value;
    TopOctet(prefix, t);
    var b := TimeStamp(prefix, t);
    assert Value(b[1]) == t / 0x40_0000 % 0x100 by { OctetValue(t / 0x40_0000); }
    assert Value(b[2]) / 2 == t / 0x8000 % 0x80 by { MarkedOctet(t / 0x8000 % 0x80); }
    assert Value(b[3]) == t / 0x80 % 0x100 by { OctetValue(t / 0x80); }
    assert Value(b[4]) / 2 == t % 0x80 by { MarkedOctet(t % 0x80); }
    TimeParts(t);
  }

  lemma DivideTwicePcr(t: nat)
    ensures t / 2 / 0x100 == t / 0x200
    ensures t / 0x200 / 0x100 == t / 0x2_0000
    ensures t / 0x2_0000 / 0x100 == t / 0x200_0000
  {}

  lemma PcrParts(t: Tick)
    ensures t == t / 0x200_0000 % 0x100 * 0x200_0000 + t / 0x2_0000 % 0x100 * 0x2_0000 + t / 0x200 % 0x100 * 0x200
               + t / 2 % 0x100 * 2 + t % 2
  {
    DivideTwicePcr(t);
    var a, b, c := t / 2, t / 0x200, t / 0x2_0000;
    assert a == 0x100 * b + a % 0x100;
    assert b == 0x100 * c + b % 0x100;
    assert c == 0x100 * (t / 0x200_0000) + c % 0x100;
  }

  lemma PcrReadsBack(t: Tick)
    ensures ReadPcrBase(PcrBytes(t)) == t
  {
    hide Octet, Value;
    var b := PcrBytes(t);
    assert Value(b[0]) == t / 0x200_0000 % 0x100 by { OctetValue(t / 0x200_0000); }
    assert Value(b[1]) == t / 0x2_0000 % 0x100 by { OctetValue(t / 0x2_0000); }
    assert Value(b[2]) == t / 0x200 % 0x100 by { OctetValue(t / 0x200); }
    assert Value(b[3]) == t / 2 % 0x100 by { OctetValue(t / 2); }
    assert Value(b[4]) / 0x80 == t % 2 by { LastPcrOctet(t % 2); }
    PcrParts(t);
  }
}
