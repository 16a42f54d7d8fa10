/** The metadata stream: one packet a frame with the flags of the buffer and the
    sending time as a KLV local set, in a PES that fills the rest of the packet, and
    a receiver that walks it by its length fields. */
module Klv {
  import opened Bytes
  import opened SmoothClock
  import opened TsPacket
  import opened Datagrams
  import opened Multiplexer
  import Psi

  const KEY_LENGTH: nat := 16
  const TAG_FLAGS: Byte := 1
  const TAG_TIMESTAMP: Byte := 2
  const PES_LENGTH: nat := 52

  // ----- Numbers in bytes -----

  function Shifted(x: nat, bytes: nat): nat {
    if bytes == 0 then x else Shifted(x, bytes - 1) / 0x100
  }

  /** The low n bytes of a number, the highest one first. */
  function Octets(x: nat, n: nat): (bytes: seq<Byte>)
    ensures |bytes| == n
  {
    if n == 0 then [] else Octets(x / 0x100, n - 1) + [Octet(x)]
  }

  function Number(bytes: seq<Byte>): nat {
    if bytes == [] then 0 else Number(bytes[..|bytes| - 1]) * 0x100 + Value(bytes[|bytes| - 1])
  }

  function Limit(n: nat): nat {
    if n == 0 then 1 else Limit(n - 1) * 0x100
  }

  lemma {:induction false} OctetsReadBack(x: nat, n: nat)
    requires x < Limit(n)
    ensures Number(Octets(x, n)) == x
  {
    hide Octet, Value;
    if n > 0 {
      OctetsReadBack(x / 0x100, n - 1);
      OctetValue(x);
    }
  }

  /** Write the bytes of a number, from the highest one on. */
  method PutNumber(raw: array<Byte>, start: nat, x: nat, n: nat) returns (offset: nat)
    requires start + n <= raw.Length
    modifies raw
    ensures offset == start + n
    ensures raw[..offset] == old(raw[..start]) + Octets(x, n)
  {
    hide Octet;
    offset := start;
    for i := n downto 0
      invariant offset == start + (n - i)
      invariant raw[..offset] == old(raw[..start]) + Octets(Shifted(x, i), n - i)
    {
      raw[offset] := Octet(Shifted(x, i));
      offset := offset + 1;
      assert raw[..offset] == raw[..offset - 1] + [raw[offset - 1]];
    }
  }

  // ----- The packet -----

  /** What a packet tells: the time stamp of the video frame, the number of the cell,
      and the two values of the set. */
  datatype Cell = Cell(pts: Tick, sequence: Byte, flags: nat, timestamp: nat)

  function PesHeader(pts: Tick): (bytes: seq<Byte>)
    ensures |bytes| == 14
  {
    [0x00, 0x00, 0x01, 0xfc, 0x00, 0x2e, 0x84, 0x80, 0x05] + TimeStamp(0x20, pts)
  }

  function CellHeader(sequence: Byte): (bytes: seq<Byte>)
    ensures |bytes| == 5
  {
    [0x00, sequence, 0xdf, 0x00, 0x21]
  }

  function Set(flags: nat, timestamp: nat): (bytes: seq<Byte>)
    ensures |bytes| == 16
  {
    ([TAG_FLAGS, 0x04] + Octets(flags, 4)) + ([TAG_TIMESTAMP, 0x08] + Octets(timestamp, 8))
  }

  function Pes(key: seq<Byte>, c: Cell): (bytes: seq<Byte>)
    requires |key| == KEY_LENGTH
    ensures |bytes| == PES_LENGTH
  {
    PesHeader(c.pts) + CellHeader(c.sequence) + key + [0x10] + Set(c.flags, c.timestamp)
  }

  /** The adaptation field is stuffing and takes what the PES leaves. */
  function Header(pid: bv16, cc: nat): (bytes: seq<Byte>)
    ensures |bytes| == LENGTH - PES_LENGTH
  {
    [SYNC, 0x40 | ((pid >> 8) & 0x1f) as Byte, (pid & 0xff) as Byte, 0x30 | (Octet(cc) & 0x0f), 0x83, 0x00]
    + Fill(0xff, 130)
  }

  function KlvPacket(pid: bv16, cc: nat, key: seq<Byte>, c: Cell): (packet: seq<Byte>)
    requires |key| == KEY_LENGTH
    ensures |packet| == LENGTH
  {
    Header(pid, cc) + Pes(key, c)
  }

  /** The length and the entries of the set. */
  method PutSet(raw: array<Byte>, start: nat, flags: nat, timestamp: nat) returns (offset: nat)
    requires start + 17 <= raw.Length
    modifies raw
    ensures offset == start + 17
    ensures raw[..offset] == old(raw[..start]) + ([0x10] + Set(flags, timestamp))
  {
    hide Octets;
    ghost var before := raw[..start];
    offset := Psi.Put(raw, start, [2 + 4 + 2 + 8]);
    offset := Psi.Put(raw, offset, [TAG_FLAGS, 4]);
    offset := PutNumber(raw, offset, flags, 4);
    offset := Psi.Put(raw, offset, [TAG_TIMESTAMP, 8]);
    offset := PutNumber(raw, offset, timestamp, 8);
    assert raw[..offset] == before + ([0x10] + Set(flags, timestamp));
  }

  class Metadata {
    const pid: bv16
    const key: seq<Byte>
    const out: Transport
    var cc: Counter
    var sequence: Byte

    constructor (pid: bv16, key: seq<Byte>, out: Transport)
      ensures this.pid == pid && this.key == key && this.out == out && cc == 0 && sequence == 0
    {
      this.pid, this.key, this.out, cc, sequence := pid, key, out, 0, 0;
    }

    /** Send the packet of a frame.  The counter goes on only if it was taken, the
        number of the cell always. */
    method Push(pts: Tick, flags: nat, timestamp: nat, mtu: int) returns (ret: int)
      requires |key| == KEY_LENGTH
      modifies this, out
      ensures var packet := KlvPacket(pid, old(cc), key, Cell(pts, old(sequence), flags, timestamp));
        && Taken(old(out.log), old(out.budget), [Piece(packet, !Flushes(mtu), false)], out.log, out.budget)
      ensures ret == if old(out.budget) > 0 then LENGTH else out.refusal
      ensures cc == if old(out.budget) > 0 then (old(cc) + 1) % 16 else old(cc)
      ensures sequence == old(sequence) + 1
    {
      hide Taken, KlvPacket, Flushes;
      var packet := BuildKlv(pts, flags, timestamp);
      sequence := sequence + 1;
      ret := out.Send(packet[..], !Flushes(mtu), false);
      if ret == LENGTH {
        var count: nat := cc;
        cc := (count + 1) % 16;
      }
    }

    method BuildKlv(pts: Tick, flags: nat, timestamp: nat) returns (packet: array<Byte>)
      requires |key| == KEY_LENGTH
      ensures fresh(packet) && packet[..] == KlvPacket(pid, cc, key, Cell(pts, sequence, flags, timestamp))
    {
      hide Pes, Header;
      var pes := BuildPes(pts, flags, timestamp);
      packet := BuildPacket(pid, cc, pes[..]);
    }

    method BuildPes(pts: Tick, flags: nat, timestamp: nat) returns (raw: array<Byte>)
      requires |key| == KEY_LENGTH
      ensures fresh(raw) && raw[..] == Pes(key, Cell(pts, sequence, flags, timestamp))
    {
      hide PesHeader, CellHeader, Set, Octet;
      var offset, cell;
      ghost var h, c;
      raw, offset, cell, h, c := OpenPes(pts, flags, timestamp);
      ghost var rest := key + ([0x10] + Set(flags, timestamp));
      PutLength(raw, cell, offset - cell - 2);
      PutLength(raw, 4, offset - 6);
      CellLength();
      PesLength();
      LengthsInPlace(h, c, rest);
    }

    /** The PES before its two lengths are known. */
    method OpenPes(pts: Tick, flags: nat, timestamp: nat)
      returns (raw: array<Byte>, offset: nat, cell: nat, ghost h: seq<Byte>, ghost c: seq<Byte>)
      requires |key| == KEY_LENGTH
      ensures fresh(raw) && raw.Length == PES_LENGTH == offset && cell == 17 && |h| == 14 && |c| == 5
      ensures raw[..] == h + c + (key + ([0x10] + Set(flags, timestamp)))
      ensures h[4 := 0x00][5 := 0x2e] == PesHeader(pts) && c[3 := 0x00][4 := 0x21] == CellHeader(sequence)
    {
      hide PesHeader, CellHeader, Set;
      raw := new Byte[PES_LENGTH](_ => 0x00);
      offset := PutPesHeader(raw, pts);
      h := raw[..offset];
      offset, cell := PutCellHeader(raw, offset, sequence);
      c := raw[14..19];
      assert raw[..offset] == h + c;
      offset := Psi.Put(raw, offset, key);
      offset := PutSet(raw, offset, flags, timestamp);
      assert raw[..] == raw[..offset];
    }
  }

  /** A length in two bytes. */
  method PutLength(raw: array<Byte>, offset: nat, length: nat)
    requires offset + 2 <= raw.Length
    modifies raw
    ensures raw[..] == old(raw[..])[offset := Octet(length / 0x100)][offset + 1 := Octet(length)]
  {
    raw[offset], raw[offset + 1] := Octet(length / 0x100), Octet(length);
  }

  lemma LengthsInPlace(h: seq<Byte>, c: seq<Byte>, rest: seq<Byte>)
    requires |h| == 14 && |c| == 5
    ensures (h + c + rest)[17 := 0x00][18 := 0x21][4 := 0x00][5 := 0x2e]
         == h[4 := 0x00][5 := 0x2e] + c[3 := 0x00][4 := 0x21] + rest
  {}

  /** The PES header, its length still open. */
  method PutPesHeader(raw: array<Byte>, pts: Tick) returns (offset: nat)
    requires raw.Length >= 14
    modifies raw
    ensures offset == 14
    ensures raw[..offset][4 := 0x00][5 := 0x2e] == PesHeader(pts)
  {
    hide TimeStamp;
    offset := Psi.Put(raw, 0, [0x00, 0x00, 0x01, 0xfc]);
    ghost var open := raw[4..6];
    assert raw[..offset + 2] == [0x00, 0x00, 0x01, 0xfc] + open;
    offset := Psi.Put(raw, offset + 2, [0x84, 0x80, 0x05]);
    offset := Psi.Put(raw, offset, TimeStamp(0x20, pts));
  }

  /** The header of the cell, the length after `cell` still open. */
  method PutCellHeader(raw: array<Byte>, start: nat, sequence: Byte) returns (offset: nat, cell: nat)
    requires start + 5 <= raw.Length
    modifies raw
    ensures cell == start + 3 && offset == cell + 2
    ensures raw[..start] == old(raw[..start])
    ensures raw[start..offset][3 := 0x00][4 := 0x21] == CellHeader(sequence)
  {
    ghost var before := raw[..start];
    offset := Psi.Put(raw, start, [0x00, sequence, 0xdf]);
    cell := offset;
    offset := offset + 2;
    assert raw[..cell] == before + [0x00, sequence, 0xdf];
    assert raw[start..cell] == [0x00, sequence, 0xdf];
  }

  /** The packet with its header and adaptation field around a PES. */
  method BuildPacket(pid: bv16, cc: Counter, pes: seq<Byte>) returns (packet: array<Byte>)
    requires |pes| == PES_LENGTH
    ensures fresh(packet) && packet[..] == Header(pid, cc) + pes
  {
    hide Octet;
    packet := new Byte[LENGTH](_ => 0x00);
    var afl := LENGTH - 5 - |pes|;
    StuffingLength();
    var offset := Psi.Put(packet, 0, [SYNC, 0x40 | ((pid >> 8) & 0x1f) as Byte, (pid & 0xff) as Byte,
                                      0x30 | (Octet(cc) & 0x0f), Octet(afl)]);
    if afl > 0 {
      offset := Psi.Put(packet, offset, [0x00]);
      offset := Psi.Put(packet, offset, Fill(0xff, afl - 1));
    }
    assert packet[..offset] == Header(pid, cc);
    offset := Psi.Put(packet, offset, pes);
    assert packet[..] == packet[..offset];
  }

  lemma StuffingLength()
    ensures Octet(131) == 0x83
  {
    LowOctet(131);
  }

  lemma CellLength()
    ensures Octet(33 / 0x100) == 0x00 && Octet(33) == 0x21
  {
    hide Octet;
    LowOctet(33 / 0x100);
    LowOctet(33);
  }

  lemma PesLength()
    ensures Octet(46 / 0x100) == 0x00 && Octet(46) == 0x2e
  {
    hide Octet;
    LowOctet(46 / 0x100);
    LowOctet(46);
  }

  // ----- The receiver -----

  datatype Unit = Unit(pts: nat, sequence: Byte, key: seq<Byte>, entries: seq<(Byte, seq<Byte>)>)

  /** One PES with one complete cell, by its length fields: the header, the cell, the
      key, and the entries of the set. */
  function ParsePes(pes: seq<Byte>): Option<Unit> {
    if |pes| < 9 || pes[..4] != [0x00, 0x00, 0x01, 0xfc] || Number(pes[4..6]) != |pes| - 6 || pes[7] != 0x80 then
      None
    else
      var cell := 9 + Value(pes[8]);
      if cell < 14 || cell + 5 > |pes| || Number(pes[cell + 3..cell + 5]) != |pes| - cell - 5 then
        None
      else
        match ParseSet(pes[cell + 5..])
        case None => None
        case Some((key, entries)) => Some(Unit(ReadTimeStamp(pes[9..14]), pes[cell + 1], key, entries))
  }

  function ParseSet(bytes: seq<Byte>): Option<(seq<Byte>, seq<(Byte, seq<Byte>)>)> {
    if |bytes| < KEY_LENGTH + 1 || Value(bytes[KEY_LENGTH]) != |bytes| - KEY_LENGTH - 1 then
      None
    else
      match Psi.ParseDescriptors(bytes[KEY_LENGTH + 1..])
      case None => None
      case Some(entries) => Some((bytes[..KEY_LENGTH], entries))
  }

  lemma {:induction false} FirstDescriptor(tag: Byte, length: Byte, content: seq<Byte>, rest: seq<Byte>)
    requires Value(length) == |content| && Psi.ParseDescriptors(rest).Some?
    ensures Psi.ParseDescriptors([tag, length] + content + rest)
         == Some([(tag, content)] + Psi.ParseDescriptors(rest).value)
  {
    hide Value;
    var bytes := [tag, length] + content + rest;
    assert bytes[2 + |content|..] == rest && bytes[2..2 + |content|] == content;
    assert bytes[1] == length;
  }

  lemma SmallValues()
    ensures Value(0x04) == 4 && Value(0x08) == 8 && Value(0x10) == 16 && Value(0x05) == 5 && Value(0x83) == 131
    ensures Value(0x00) == 0 && Value(0x2e) == 46 && Value(0x21) == 33
  {}

  lemma NoDescriptors()
    ensures Psi.ParseDescriptors([]) == Some([])
  {}

  lemma SetParses(flags: nat, timestamp: nat)
    ensures Psi.ParseDescriptors(Set(flags, timestamp))
         == Some([(TAG_FLAGS, Octets(flags, 4)), (TAG_TIMESTAMP, Octets(timestamp, 8))])
  {
    hide Octets, Value, Psi.ParseDescriptors;
    SmallValues();
    var first, second := (TAG_FLAGS, Octets(flags, 4)), (TAG_TIMESTAMP, Octets(timestamp, 8));
    var later := [TAG_TIMESTAMP, 0x08] + Octets(timestamp, 8);
    NoDescriptors();
    FirstDescriptor(TAG_TIMESTAMP, 0x08, Octets(timestamp, 8), []);
    assert later + [] == later && [second] + [] == [second];
    FirstDescriptor(TAG_FLAGS, 0x04, Octets(flags, 4), later);
    assert [first] + [second] == [first, second];
  }

  lemma KeyedSetParses(key: seq<Byte>, flags: nat, timestamp: nat)
    requires |key| == KEY_LENGTH
    ensures ParseSet(key + [0x10] + Set(flags, timestamp))
         == Some((key, [(TAG_FLAGS, Octets(flags, 4)), (TAG_TIMESTAMP, Octets(timestamp, 8))]))
  {
    hide Octets, Set, Value, Psi.ParseDescriptors;
    SmallValues();
    SetParses(flags, timestamp);
    var bytes := key + [0x10] + Set(flags, timestamp);
    assert bytes[KEY_LENGTH + 1..] == Set(flags, timestamp) && bytes[..KEY_LENGTH] == key && bytes[KEY_LENGTH] == 0x10;
  }

  lemma TwoOctets(high: Byte, low: Byte)
    ensures Number([high, low]) == Value(high) * 0x100 + Value(low)
  {
    hide Value;
    assert [high, low][..1] == [high] && [high][..0] == [];
    assert Number([high]) == Value(high);
  }

  lemma PesParses(key: seq<Byte>, c: Cell)
    requires |key| == KEY_LENGTH
    ensures ParsePes(Pes(key, c))
         == Some(Unit(c.pts, c.sequence, key,
                      [(TAG_FLAGS, Octets(c.flags, 4)), (TAG_TIMESTAMP, Octets(c.timestamp, 8))]))
  {
    hide Octets, Set, Value, TimeStamp, ReadTimeStamp, Psi.ParseDescriptors, Number, ParseSet;
    SmallValues();
    TwoOctets(0x00, 0x2e);
    TwoOctets(0x00, 0x21);
    TimeStampReadsBack(0x20, c.pts);
    KeyedSetParses(key, c.flags, c.timestamp);
    var pes, entries := Pes(key, c), key + [0x10] + Set(c.flags, c.timestamp);
    assert pes == PesHeader(c.pts) + CellHeader(c.sequence) + entries;
    assert pes[..4] == [0x00, 0x00, 0x01, 0xfc] && pes[4..6] == [0x00, 0x2e] && pes[7] == 0x80 && pes[8] == 0x05;
    assert pes[9..14] == TimeStamp(0x20, c.pts);
    assert pes[17..19] == [0x00, 0x21] && pes[15] == c.sequence && pes[19..] == entries;
  }

  lemma PidBits13(pid: bv16)
    requires pid < 0x2000
    ensures (((0x40 | ((pid >> 8) & 0x1f) as Byte) & 0x1f) as bv16 << 8) | ((pid & 0xff) as Byte) as bv16 == pid
    ensures (0x40 | ((pid >> 8) & 0x1f) as Byte) & 0x40 != 0
  {}

  lemma PacketParses(pid: bv16, cc: Counter, key: seq<Byte>, c: Cell)
    requires |key| == KEY_LENGTH && pid < 0x2000
    ensures var packet := KlvPacket(pid, cc, key, c);
      && packet[0] == SYNC && PidOf(packet) == pid
      && Parse(packet) == Some(Parsed(pid, true, cc, Pes(key, c)))
  {
    hide Pes, Octet, Value;
    PidBits13(pid);
    SmallOctet(cc);
    HeaderBits(Octet(cc));
    MaskedCounter(Octet(cc));
    SmallValues();
    var packet := KlvPacket(pid, cc, key, c);
    assert packet[HEADER_LENGTH + 132..] == Pes(key, c);
  }

  /** A receiver after section 2.4.3 finds a packet of the metadata stream that starts
      a unit, with its counter, and in it exactly what the sender put there. */
  lemma KlvComesBack(pid: bv16, cc: Counter, key: seq<Byte>, c: Cell)
    requires |key| == KEY_LENGTH && pid < 0x2000 && c.flags < Limit(4) && c.timestamp < Limit(8)
    ensures var p := Parse(KlvPacket(pid, cc, key, c));
      && p.Some? && p.value.pid == pid && p.value.pusi && p.value.cc == cc
      && var unit := ParsePes(p.value.payload);
      && unit.Some? && unit.value.pts == c.pts && unit.value.sequence == c.sequence && unit.value.key == key
      && |unit.value.entries| == 2
      && unit.value.entries[0].0 == TAG_FLAGS && Number(unit.value.entries[0].1) == c.flags
      && unit.value.entries[1].0 == TAG_TIMESTAMP && Number(unit.value.entries[1].1) == c.timestamp
  {
    hide Parse, Pes, ParsePes, Octets, Number, Limit;
    PacketParses(pid, cc, key, c);
    PesParses(key, c);
    OctetsReadBack(c.flags, 4);
    OctetsReadBack(c.timestamp, 8);
  }

  lemma MaskedCounter(c: Byte)
    requires c < 16
    ensures c & 0x0f == c
  {}

  // ----- The pid -----

  /** The metadata stream is two above the configured pid, in 13 bits. */
  function KlvPid(pid: nat): bv16 {
    Psi.Pid13(Octet((pid + 2) / 0x100), Octet(pid + 2))
  }

  lemma LowBits(high: Byte, low: Byte)
    ensures Psi.Pid13(high, low) < 0x2000 && (Psi.Pid13(high, low) & 0xff) as Byte == low
  {}

  lemma ByteBits(b: Byte)
    ensures (b as bv16 & 0xff) as Byte == b
  {}

  lemma Neighbours(x: nat)
    ensures Octet(x + 1) != Octet(x)
  {
    OctetValue(x);
    OctetValue(x + 1);
  }

  lemma VideoIsOther(pid: nat)
    ensures KlvPid(pid) < 0x2000 && Octet(pid + 1) as bv16 != KlvPid(pid)
  {
    hide Octet, Psi.Pid13;
    LowBits(Octet((pid + 2) / 0x100), Octet(pid + 2));
    ByteBits(Octet(pid + 1));
    Neighbours(pid + 1);
  }

  /** Whatever the configured pid, the metadata stream is never taken for the video
      stream, which has the eight low bits of the pid above it. */
  lemma KlvIsForeign(pid: nat, cc: Counter, key: seq<Byte>, c: Cell)
    requires |key| == KEY_LENGTH
    ensures Foreign(Octet(pid + 1) as bv16, KlvPacket(KlvPid(pid), cc, key, c))
  {
    hide Pes, Octet, KlvPacket, KlvPid;
    VideoIsOther(pid);
    PacketParses(KlvPid(pid), cc, key, c);
  }
}
