/** The program tables: the PAT, PMT and SDT packets, the rewriting of the PMT
    for a KLV stream, and a receiver that walks the PMT by its length fields
    (section 2.4.4 of ISO/IEC 13818-1). */
module Psi {
  import opened Bytes
  import Crc32

  const LENGTH: nat := 188
  /** The section follows the packet header and the pointer field. */
  const START: nat := 5

  const DEFAULT_PAT: seq<Byte> := [
    0x47, 0x40, 0x00, 0x10, 0x00, 0x00, 0xb0, 0x0d, 0x00, 0x01, 0xc1, 0x00, 0x00, 0x00, 0x01, 0xe0,
    0x40, 0xaa, 0xaa, 0xaa, 0xaa]

  const DEFAULT_PMT: seq<Byte> := [
    0x47, 0x40, 0x41, 0x10, 0x00, 0x02, 0xb0, 0x12, 0x00, 0x01, 0xc1, 0x00, 0x00, 0xe0, 0x42, 0xf0,
    0x00, 0x03, 0xe0, 0x42, 0xf0, 0x00, 0xaa, 0xaa, 0xaa, 0xaa]

  const DEFAULT_SDT: seq<Byte> :=
    [0x47, 0x40, 0x11, 0x10, 0x00]
    + [0x42, 0xf0, 0x28, 0x00, 0x01, 0xc1, 0x00, 0x00, 0x00, 0x01, 0xff]
    + [0x00, 0x01, 0xfc, 0x80, 0x16, 0x48, 0x14]
    + [0x0a, 0x09, 0x46, 0x61, 0x73, 0x74, 0x56, 0x69, 0x64, 0x65, 0x6f]
    + [0x09, 0x00, 0x00, 0x00, 0x00, 0x00, 0x00, 0x00, 0x00, 0x00]
    + [0xaa, 0xaa, 0xaa, 0xaa]

  /** The 12-bit length of a section, a descriptor loop or a stream entry. */
  function Length12(high: Byte, low: Byte): (n: nat)
    ensures n < 0x1000
  {
    Value(high & 0x0f) * 0x100 + Value(low)
  }

  // ----- Filling packets in place -----

  /** Write some bytes at an offset; the result is the offset after them. */
  method Put(raw: array<Byte>, offset: nat, bytes: seq<Byte>) returns (next: nat)
    requires offset + |bytes| <= raw.Length
    modifies raw
    ensures next == offset + |bytes|
    ensures raw[..next] == old(raw[..offset]) + bytes
    ensures forall k | next <= k <= raw.Length :: raw[k..] == old(raw[k..])
  {
    forall i | 0 <= i < |bytes| {
      raw[offset + i] := bytes[i];
    }
    next := offset + |bytes|;
  }

  // ----- The checksum of a table -----

  function SectionLength(packet: seq<Byte>): nat
    requires |packet| == LENGTH
  {
    Length12(packet[START + 1], packet[START + 2])
  }

  /** What a receiver of the table tests: the section, checksum included, leaves
      no residue. */
  predicate SectionIsSound(packet: seq<Byte>)
    requires |packet| == LENGTH
  {
    var end := START + 3 + SectionLength(packet);
    end <= LENGTH && Crc32.Crc(packet[START..end]) == 0
  }

  function WithChecksum(packet: seq<Byte>, end: nat): (r: seq<Byte>)
    requires |packet| == LENGTH && START <= end <= LENGTH - 4
    ensures |r| == LENGTH
  {
    packet[..end] + Crc32.BigEndian(Crc32.Crc(packet[START..end])) + packet[end + 4..]
  }

  /** Compute the checksum of a table and store it at `at`.  The length is read
      from the table, minus one for the pointer field. */
  method StoreChecksum(raw: array<Byte>, at: nat)
    requires raw.Length == LENGTH && at <= LENGTH - 4
    requires START <= START + SectionLength(raw[..]) - 1 == at
    modifies raw
    ensures raw[..] == WithChecksum(old(raw[..]), at)
  {
    var length := SectionLength(raw[..]) - 1;
    var crc := Crc32.Compute(raw, START, length);
    assert raw[START..START + length] == raw[..][START..at];
    var next := Put(raw, at, Crc32.BigEndian(crc));
    assert raw[..] == raw[..next] + raw[next..];
  }

  /** Taking one off the section length covers exactly the bytes before the
      checksum, so the stored table is sound. */
  lemma StoredChecksumIsSound(packet: seq<Byte>, at: nat)
    requires |packet| == LENGTH && START + 3 <= at <= LENGTH - 4
    requires START + SectionLength(packet) - 1 == at
    ensures SectionIsSound(WithChecksum(packet, at))
    ensures WithChecksum(packet, at)[..at] == packet[..at]
  {
    hide Crc32.Crc, Crc32.BigEndian, Length12;
    var r := WithChecksum(packet, at);
    Crc32.ResidueIsZero(packet[START..at]);
    assert r[START..at + 4] == packet[START..at] + Crc32.BigEndian(Crc32.Crc(packet[START..at]));
  }

  // ----- The tables of a stream -----

  function Padded(bytes: seq<Byte>): (packet: seq<Byte>)
    requires |bytes| <= LENGTH
    ensures |packet| == LENGTH && packet[..|bytes|] == bytes
  {
    bytes + Fill(0xff, LENGTH - |bytes|)
  }

  const H264_TYPE: Byte := 0x1b

  // Each table before its checksum is stored: the default bytes with the
  // identifiers of the stream.

  function PatBase(pid: nat): (packet: seq<Byte>)
    ensures |packet| == LENGTH
  {
    Padded(DEFAULT_PAT)[16 := Octet(pid)]
  }

  function PmtBase(pid: nat, h264: bool): (packet: seq<Byte>)
    ensures |packet| == LENGTH
  {
    var base := if h264 then Padded(DEFAULT_PMT)[17 := H264_TYPE] else Padded(DEFAULT_PMT);
    base[2 := Octet(pid)][8 := 0x00][9 := 0x01][14 := Octet(pid + 1)][19 := Octet(pid + 1)]
  }

  function SdtBase(name: seq<Byte>, h264: bool): (packet: seq<Byte>)
    requires |name| == 9
    ensures |packet| == LENGTH
  {
    var base := Padded(DEFAULT_SDT);
    var named := base[..35] + name + base[44..];
    if h264 then named[23 := H264_TYPE] else named
  }

  lemma TableLengths(pid: nat, name: seq<Byte>, h264: bool)
    requires |name| == 9
    ensures SectionLength(PatBase(pid)) == 13
    ensures SectionLength(PmtBase(pid, h264)) == 18
    ensures SectionLength(SdtBase(name, h264)) == 40
  {
    hide Octet, Padded;
    PaddedKeeps(DEFAULT_PAT);
    PaddedKeeps(DEFAULT_PMT);
    PaddedKeeps(DEFAULT_SDT);
    assert PatBase(pid)[6] == 0xb0 && PatBase(pid)[7] == 0x0d;
    assert PmtBase(pid, h264)[6] == 0xb0 && PmtBase(pid, h264)[7] == 0x12;
    var sdt := Padded(DEFAULT_SDT);
    assert sdt[6] == DEFAULT_SDT[6] && sdt[7] == DEFAULT_SDT[7];
    assert (sdt[..35] + name + sdt[44..])[6] == sdt[6] && (sdt[..35] + name + sdt[44..])[7] == sdt[7];
    assert SdtBase(name, h264)[6] == 0xf0 && SdtBase(name, h264)[7] == 0x28;
  }

  lemma PaddedKeeps(bytes: seq<Byte>)
    requires |bytes| <= LENGTH
    ensures forall i | 0 <= i < |bytes| :: Padded(bytes)[i] == bytes[i]
  {}

  function PatPacket(pid: nat): (packet: seq<Byte>)
    ensures |packet| == LENGTH
  {
    WithChecksum(PatBase(pid), 17)
  }

  function PmtPacket(pid: nat, h264: bool): (packet: seq<Byte>)
    ensures |packet| == LENGTH
  {
    WithChecksum(PmtBase(pid, h264), 22)
  }

  function SdtPacket(name: seq<Byte>, h264: bool): (packet: seq<Byte>)
    requires |name| == 9
    ensures |packet| == LENGTH
  {
    WithChecksum(SdtBase(name, h264), 44)
  }

  method CreatePat(pid: nat) returns (raw: array<Byte>)
    ensures fresh(raw) && raw.Length == LENGTH && raw[..] == PatPacket(pid)
  {
    hide Padded, WithChecksum, SectionLength, Octet;
    raw := NewPacket(Padded(DEFAULT_PAT));
    raw[16] := Octet(pid);
    assert raw[..] == PatBase(pid);
    TableLengths(pid, Fill(0x00, 9), false);
    StoreChecksum(raw, 17);
  }

  method CreatePmt(pid: nat, h264: bool) returns (raw: array<Byte>)
    ensures fresh(raw) && raw.Length == LENGTH && raw[..] == PmtPacket(pid, h264)
  {
    hide Padded, WithChecksum, SectionLength, Octet;
    raw := NewPacket(Padded(DEFAULT_PMT));
    if h264 {
      raw[17] := H264_TYPE;
    }
    raw[2] := Octet(pid);
    raw[8], raw[9] := 0x00, 0x01;
    raw[14] := Octet(pid + 1);
    raw[19] := Octet(pid + 1);
    assert raw[..] == PmtBase(pid, h264);
    TableLengths(pid, Fill(0x00, 9), h264);
    StoreChecksum(raw, 22);
  }

  method CreateSdt(name: seq<Byte>, h264: bool) returns (raw: array<Byte>)
    requires |name| == 9
    ensures fresh(raw) && raw.Length == LENGTH && raw[..] == SdtPacket(name, h264)
  {
    hide Padded, WithChecksum, SectionLength, Octet;
    raw := NewPacket(Padded(DEFAULT_SDT));
    var next := Put(raw, 35, name);
    assert raw[..] == raw[..next] + raw[next..];
    if h264 {
      raw[23] := H264_TYPE;
    }
    assert raw[..] == SdtBase(name, h264);
    TableLengths(0, name, h264);
    StoreChecksum(raw, 44);
  }

  /** All three tables are sound for their receiver. */
  lemma TablesAreSound(pid: nat, name: seq<Byte>, h264: bool)
    requires |name| == 9
    ensures SectionIsSound(PatPacket(pid)) && SectionIsSound(PmtPacket(pid, h264)) && SectionIsSound(SdtPacket(name, h264))
  {
    hide SectionIsSound, SectionLength, PatBase, PmtBase, SdtBase, WithChecksum;
    TableLengths(pid, name, h264);
    StoredChecksumIsSound(PatBase(pid), 17);
    StoredChecksumIsSound(PmtBase(pid, h264), 22);
    StoredChecksumIsSound(SdtBase(name, h264), 44);
  }

  lemma ChecksumKeepsHeader(packet: seq<Byte>, end: nat)
    requires |packet| == LENGTH && START <= end <= LENGTH - 4
    ensures WithChecksum(packet, end)[..4] == packet[..4]
  {}

  // The header bytes of the tables, with their pids.

  lemma PatHeader(pid: nat)
    ensures PatPacket(pid)[..4] == [0x47, 0x40, 0x00, 0x10]
  {
    hide Octet, WithChecksum, Padded;
    PaddedKeeps(DEFAULT_PAT);
    ChecksumKeepsHeader(PatBase(pid), 17);
    var p := Padded(DEFAULT_PAT);
    assert p[0] == DEFAULT_PAT[0] && p[1] == DEFAULT_PAT[1] && p[2] == DEFAULT_PAT[2] && p[3] == DEFAULT_PAT[3];
  }

  lemma PmtHeader(pid: nat, h264: bool)
    ensures PmtPacket(pid, h264)[..4] == [0x47, 0x40, Octet(pid), 0x10]
  {
    hide Octet, WithChecksum, Padded;
    PaddedKeeps(DEFAULT_PMT);
    ChecksumKeepsHeader(PmtBase(pid, h264), 22);
    var p := Padded(DEFAULT_PMT);
    assert p[0] == DEFAULT_PMT[0] && p[1] == DEFAULT_PMT[1] && p[3] == DEFAULT_PMT[3];
  }

  lemma SdtHeader(name: seq<Byte>, h264: bool)
    requires |name| == 9
    ensures SdtPacket(name, h264)[..4] == [0x47, 0x40, 0x11, 0x10]
  {
    hide WithChecksum, Padded;
    PaddedKeeps(DEFAULT_SDT);
    ChecksumKeepsHeader(SdtBase(name, h264), 44);
    var p := Padded(DEFAULT_SDT);
    assert p[0] == DEFAULT_SDT[0] && p[1] == DEFAULT_SDT[1] && p[2] == DEFAULT_SDT[2] && p[3] == DEFAULT_SDT[3];
    assert SdtBase(name, h264)[..4] == p[..4] == [DEFAULT_SDT[0], DEFAULT_SDT[1], DEFAULT_SDT[2], DEFAULT_SDT[3]];
  }

  method NewPacket(bytes: seq<Byte>) returns (raw: array<Byte>)
    requires |bytes| == LENGTH
    ensures fresh(raw) && raw.Length == LENGTH && raw[..] == bytes
  {
    raw := new Byte[LENGTH](i requires 0 <= i < LENGTH => bytes[i]);
  }

  // ----- The KLV stream in the PMT -----

  /** metadata_application_format, metadata_format and metadata_service_id. */
  function MetadataId(): (id: seq<Byte>)
    ensures |id| == 12
  {
    [0xff, 0xff, 0x4b, 0x4c, 0x56, 0x41, 0xff, 0x4b, 0x4c, 0x56, 0x41, 0x00]
  }

  function PointerDescriptor(): (d: seq<Byte>)
    ensures |d| == 17
  {
    [0x25, 0x0f] + MetadataId() + [0x1f, 0x00, 0x01]
  }

  function MetadataDescriptor(): (d: seq<Byte>)
    ensures |d| == 15
  {
    [0x26, 0x0d] + MetadataId() + [0x0f]
  }

  function KlvEntry(pid: bv16): (entry: seq<Byte>)
    ensures |entry| == 20
  {
    [0x15, 0xe0 | ((pid >> 8) & 0x1f) as Byte, (pid & 0xff) as Byte, 0xf0, 0x0f] + MetadataDescriptor()
  }

  /** The section with the KLV stream, up to its checksum. */
  function KlvBody(packet: seq<Byte>, start: nat, pid: bv16): (body: seq<Byte>)
    requires |packet| == LENGTH && start + 58 <= LENGTH
    ensures |body| == start + 54
  {
    packet[..start + 1] + [0xb0, 0x37] + packet[start + 3..start + 10]
    + ([0xf0, 0x11] + PointerDescriptor()) + packet[start + 12..start + 17] + KlvEntry(pid)
  }

  function KlvPmtPacket(packet: seq<Byte>, start: nat, pid: bv16): (r: seq<Byte>)
    requires |packet| == LENGTH && start + 58 <= LENGTH
    ensures |r| == LENGTH
  {
    var body := KlvBody(packet, start, pid);
    body + Crc32.BigEndian(Crc32.Crc(body[start..])) + Fill(0xff, LENGTH - start - 58)
  }

  /** Add the KLV stream and its descriptors to the PMT, in place. */
  method AddKlvStream(raw: array<Byte>, start: nat, pid: bv16)
    requires raw.Length == LENGTH && start + 58 <= LENGTH
    modifies raw
    ensures raw[..] == KlvPmtPacket(old(raw[..]), start, pid)
  {
    hide Octet, PointerDescriptor, MetadataDescriptor, Crc32.BigEndian, Crc32.Crc, KlvEntry, KlvBody;
    ghost var packet := raw[..];
    var offset := start + 10;
    var es1 := raw[offset + 2..offset + 7];
    offset := PutProgramInfo(raw, offset);
    offset := Put(raw, offset, es1);
    offset := PutKlvEntry(raw, offset, pid);
    ghost var info := [0xf0, 0x11] + PointerDescriptor();
    assert raw[..offset] == packet[..start + 10] + info + es1 + KlvEntry(pid);
    var pmtlen := offset + 4 - (start + 3);
    assert pmtlen == 0x37;
    raw[start + 1] := 0xb0 | Octet(pmtlen / 0x100);
    raw[start + 2] := Octet(pmtlen);
    LengthOctets();
    BodyIs(packet, start, pid);
    assert raw[..offset] == KlvBody(packet, start, pid);
    var crc := Crc32.Compute(raw, start, offset - start);
    assert raw[start..start + (offset - start)] == KlvBody(packet, start, pid)[start..];
    offset := Put(raw, offset, Crc32.BigEndian(crc));
    ghost var head := raw[..offset];
    offset := Put(raw, offset, Fill(0xff, LENGTH - offset));
    assert raw[..] == raw[..offset];
  }

  lemma LengthOctets()
    ensures 0xb0 | Octet(0x37 / 0x100) == 0xb0 && Octet(0x37) == 0x37
  {
    hide Octet;
    LowOctet(0x37 / 0x100);
    LowOctet(0x37);
  }

  lemma BodyIs(packet: seq<Byte>, start: nat, pid: bv16)
    requires |packet| == LENGTH && start + 58 <= LENGTH
    ensures KlvBody(packet, start, pid)
         == (packet[..start + 10] + ([0xf0, 0x11] + PointerDescriptor()) + packet[start + 12..start + 17]
             + KlvEntry(pid))[start + 1 := 0xb0][start + 2 := 0x37]
  {
    hide PointerDescriptor, KlvEntry;
  }

  method PutProgramInfo(raw: array<Byte>, start: nat) returns (offset: nat)
    requires start + 19 <= raw.Length
    modifies raw
    ensures offset == start + 19
    ensures raw[..offset] == old(raw[..start]) + ([0xf0, 0x11] + PointerDescriptor())
    ensures raw[offset..] == old(raw[offset..])
  {
    hide MetadataId;
    ghost var before := raw[..start];
    var id := MetadataId();
    offset := Put(raw, start, [0xf0, 0x11]);
    offset := Put(raw, offset, [0x25, 0x0f]);
    offset := Put(raw, offset, id);
    offset := Put(raw, offset, [0x1f, 0x00, 0x01]);
    assert PointerDescriptor() == [0x25, 0x0f] + id + [0x1f, 0x00, 0x01];
    assert raw[..offset] == before + ([0xf0, 0x11] + PointerDescriptor());
  }

  method PutKlvEntry(raw: array<Byte>, start: nat, pid: bv16) returns (offset: nat)
    requires start + 20 <= raw.Length
    modifies raw
    ensures offset == start + 20
    ensures raw[..offset] == old(raw[..start]) + KlvEntry(pid)
    ensures raw[offset..] == old(raw[offset..])
  {
    hide MetadataId;
    ghost var before := raw[..start];
    var id := MetadataId();
    var head := [0x15, 0xe0 | ((pid >> 8) & 0x1f) as Byte, (pid & 0xff) as Byte, 0xf0, 0x0f];
    offset := Put(raw, start, head);
    offset := Put(raw, offset, [0x26, 0x0d]);
    offset := Put(raw, offset, id);
    offset := Put(raw, offset, [0x0f]);
    assert raw[..offset] == before + (head + ([0x26, 0x0d] + id + [0x0f]));
  }

  // ----- A receiver of the PMT -----

  datatype Entry = Entry(kind: Byte, pid: bv16, info: seq<Byte>)

  datatype Pmt = Pmt(program: bv16, pcrPid: bv16, info: seq<Byte>, entries: seq<Entry>)

  function Pid13(high: Byte, low: Byte): bv16 {
    (((high & 0x1f) as bv16) << 8) | low as bv16
  }

  /** The elementary streams, walked by their length fields. */
  function ParseEntries(bytes: seq<Byte>): Option<seq<Entry>>
    decreases |bytes|
  {
    if bytes == [] then
      Some([])
    else if |bytes| < 5 then
      None
    else
      var end := 5 + Length12(bytes[3], bytes[4]);
      if end > |bytes| then
        None
      else
        match ParseEntries(bytes[end..])
        case None => None
        case Some(rest) => Some([Entry(bytes[0], Pid13(bytes[1], bytes[2]), bytes[5..end])] + rest)
  }

  function ParsePmt(packet: seq<Byte>): Option<Pmt>
    requires |packet| == LENGTH
  {
    var end := START + 3 + SectionLength(packet);
    if packet[START - 1] != 0x00 || packet[START] != 0x02 || !SectionIsSound(packet) || SectionLength(packet) < 13 then
      None
    else
      var first := START + 12 + Length12(packet[START + 10], packet[START + 11]);
      if first > end - 4 then
        None
      else
        match ParseEntries(packet[first..end - 4])
        case None => None
        case Some(entries) =>
          Some(Pmt((packet[START + 3] as bv16 << 8) | packet[START + 4] as bv16,
                   Pid13(packet[START + 8], packet[START + 9]), packet[START + 12..first], entries))
  }

  // ----- A receiver of the PAT -----

  /** The programs of a PAT, with the pids of their PMTs: entries of four bytes. */
  function ParsePrograms(bytes: seq<Byte>): Option<seq<(bv16, bv16)>>
    decreases |bytes|
  {
    if bytes == [] then
      Some([])
    else if |bytes| < 4 then
      None
    else
      match ParsePrograms(bytes[4..])
      case None => None
      case Some(rest) => Some([((bytes[0] as bv16 << 8) | bytes[1] as bv16, Pid13(bytes[2], bytes[3]))] + rest)
  }

  function ParsePat(packet: seq<Byte>): Option<seq<(bv16, bv16)>>
    requires |packet| == LENGTH
  {
    var end := START + 3 + SectionLength(packet);
    if packet[START - 1] != 0x00 || packet[START] != 0x00 || !SectionIsSound(packet) || SectionLength(packet) < 9 then
      None
    else
      ParsePrograms(packet[START + 8..end - 4])
  }

  lemma OneProgram(bytes: seq<Byte>)
    requires |bytes| == 4
    ensures ParsePrograms(bytes) == Some([((bytes[0] as bv16 << 8) | bytes[1] as bv16, Pid13(bytes[2], bytes[3]))])
  {
    hide Pid13;
    assert bytes[4..] == [];
    assert ParsePrograms([]) == Some([]);
    var e := ((bytes[0] as bv16 << 8) | bytes[1] as bv16, Pid13(bytes[2], bytes[3]));
    assert [e] + [] == [e];
  }

  lemma PatDefaults()
    ensures |DEFAULT_PAT| == 21
    ensures var d := DEFAULT_PAT;
      && d[4] == 0x00 && d[5] == 0x00 && d[6] == 0xb0 && d[7] == 0x0d && d[13] == 0x00 && d[14] == 0x01 && d[15] == 0xe0
  {}

  lemma PatBytes(pid: nat)
    ensures var r := PatPacket(pid);
      && r[4] == 0x00 && r[5] == 0x00 && r[6] == 0xb0 && r[7] == 0x0d
      && r[13..17] == [0x00, 0x01, 0xe0, Octet(pid)]
  {
    hide Padded, Octet, DEFAULT_PAT, Crc32.Crc, Crc32.BigEndian;
    PatDefaults();
    PaddedKeeps(DEFAULT_PAT);
    var p, base, r := Padded(DEFAULT_PAT), PatBase(pid), PatPacket(pid);
    assert p[4] == 0x00 && p[5] == 0x00 && p[6] == 0xb0 && p[7] == 0x0d;
    assert p[13] == 0x00 && p[14] == 0x01 && p[15] == 0xe0;
    assert forall i | 0 <= i < 17 :: r[i] == base[i];
  }

  lemma PatConstants()
    ensures Length12(0xb0, 0x0d) == 13 && (0x00 as Byte as bv16 << 8) | (0x01 as Byte as bv16) == 1
  {}

  /** The PAT names one program, and the pid of its PMT. */
  lemma PatParses(pid: nat)
    ensures ParsePat(PatPacket(pid)) == Some([(1, Octet(pid) as bv16)])
  {
    hide PatPacket, PmtPacket, SdtPacket, Octet, SectionIsSound, Pid13, Length12, ParsePrograms, Fill;
    PatBytes(pid);
    PatConstants();
    TablesAreSound(pid, Fill(0x00, 9), false);
    PidOfByte(Octet(pid));
    OneProgram(PatPacket(pid)[13..17]);
  }

  // ----- A receiver of the SDT -----

  /** A service: its number, and the tags and contents of its descriptors. */
  datatype Service = Service(id: bv16, descriptors: seq<(Byte, seq<Byte>)>)

  /** The services of an SDT, walked by the lengths of their descriptor loops. */
  function ParseServices(bytes: seq<Byte>): Option<seq<Service>>
    decreases |bytes|
  {
    if bytes == [] then
      Some([])
    else if |bytes| < 5 then
      None
    else
      var end := 5 + Length12(bytes[3], bytes[4]);
      if end > |bytes| then
        None
      else
        match ParseDescriptors(bytes[5..end])
        case None => None
        case Some(descriptors) =>
          match ParseServices(bytes[end..])
          case None => None
          case Some(rest) => Some([Service((bytes[0] as bv16 << 8) | bytes[1] as bv16, descriptors)] + rest)
  }

  function ParseSdt(packet: seq<Byte>): Option<seq<Service>>
    requires |packet| == LENGTH
  {
    var end := START + 3 + SectionLength(packet);
    if packet[START - 1] != 0x00 || packet[START] != 0x42 || !SectionIsSound(packet) || SectionLength(packet) < 12 then
      None
    else
      ParseServices(packet[START + 11..end - 4])
  }

  /** The tags and contents of a descriptor loop. */
  function ParseDescriptors(bytes: seq<Byte>): Option<seq<(Byte, seq<Byte>)>>
    decreases |bytes|
  {
    if bytes == [] then
      Some([])
    else if |bytes| < 2 || 2 + Value(bytes[1]) > |bytes| then
      None
    else
      match ParseDescriptors(bytes[2 + Value(bytes[1])..])
      case None => None
      case Some(rest) => Some([(bytes[0], bytes[2..2 + Value(bytes[1])])] + rest)
  }

  function Provider(): (name: seq<Byte>)
    ensures |name| == 9
  {
    [0x46, 0x61, 0x73, 0x74, 0x56, 0x69, 0x64, 0x65, 0x6f]
  }

  /** The service descriptor: the type, the provider and the name, each with its
      length. */
  function ServiceDescriptor(name: seq<Byte>, h264: bool): (content: seq<Byte>)
    requires |name| == 9
    ensures |content| == 21
  {
    [if h264 then H264_TYPE else 0x0a, 0x09] + Provider() + [0x09] + name
  }

  lemma SdtDefaults()
    ensures |DEFAULT_SDT| == 48
    ensures var d := DEFAULT_SDT;
      && d[4] == 0x00 && d[5] == 0x42 && d[6] == 0xf0 && d[7] == 0x28
      && d[16..23] == [0x00, 0x01, 0xfc, 0x80, 0x16, 0x48, 0x14] && d[23..25] == [0x0a, 0x09]
      && d[25..34] == Provider() && d[34] == 0x09
  {
    var d := DEFAULT_SDT;
    assert d[16..23] == [0x00, 0x01, 0xfc, 0x80, 0x16, 0x48, 0x14];
    assert d[23..34] == [0x0a, 0x09, 0x46, 0x61, 0x73, 0x74, 0x56, 0x69, 0x64, 0x65, 0x6f];
    assert d[23..25] == d[23..34][..2] && d[25..34] == d[23..34][2..];
  }

  /** Where the service and its descriptor are in the packet. */
  lemma SdtBytes(name: seq<Byte>, h264: bool)
    requires |name| == 9
    ensures var r := SdtPacket(name, h264);
      && r[4] == 0x00 && r[5] == 0x42 && r[6] == 0xf0 && r[7] == 0x28
      && r[16..23] == [0x00, 0x01, 0xfc, 0x80, 0x16, 0x48, 0x14]
      && r[23..44] == ServiceDescriptor(name, h264)
  {
    hide Padded, DEFAULT_SDT, Provider, Crc32.Crc, Crc32.BigEndian;
    SdtDefaults();
    PaddedKeeps(DEFAULT_SDT);
    var d, p, base, r := DEFAULT_SDT, Padded(DEFAULT_SDT), SdtBase(name, h264), SdtPacket(name, h264);
    assert r[..44] == base[..44];
    var named := p[..35] + name + p[44..];
    assert base == if h264 then named[23 := H264_TYPE] else named;
    assert forall i | 0 <= i < 23 :: r[i] == d[i];
    assert r[16..23] == d[16..23];
    assert d[23] == d[23..25][0] && d[24] == d[23..25][1];
    assert r[23] == (if h264 then H264_TYPE else 0x0a) && r[24] == 0x09;
    assert r[25..34] == d[25..34] && r[34] == 0x09 && r[35..44] == name;
    assert r[23..44] == [r[23], r[24]] + r[25..34] + [r[34]] + r[35..44];
  }

  lemma SdtConstants()
    ensures Length12(0xf0, 0x28) == 40 && Length12(0x80, 0x16) == 22 && Value(0x14) == 20
    ensures Length12(0x80, 0x17) == 23 && Value(0x15) == 21
    ensures (0x00 as Byte as bv16 << 8) | (0x01 as Byte as bv16) == 1
  {}

  /** One service whose descriptor loop and descriptor say how long they are, and what
      is found behind it. */
  lemma OneService(loop: Byte, length: Byte, content: seq<Byte>, rest: seq<Byte>)
    requires Length12(0x80, loop) == 2 + |content| && Value(length) == |content|
    ensures ParseServices([0x00, 0x01, 0xfc, 0x80, loop, 0x48, length] + content + rest)
         == match ParseServices(rest)
            case None => None
            case Some(more) => Some([Service(1, [(0x48, content)])] + more)
  {
    hide Length12, Value, ParseDescriptors;
    SdtConstants();
    OneDescriptor(0x48, length, content);
    var bytes, end := [0x00, 0x01, 0xfc, 0x80, loop, 0x48, length] + content + rest, 7 + |content|;
    assert bytes[5..end] == [0x48, length] + content && bytes[end..] == rest;
  }

  lemma NoServices()
    ensures ParseServices([]) == Some([])
    ensures forall rest: seq<Byte> | |rest| == 1 :: ParseServices(rest) == None
  {}

  /** The lengths of the descriptor loop and of the descriptor in the SDT are one too
      small: a receiver does not find the service, whatever its name.  With one more
      in each of the two bytes it would. */
  lemma SdtIsShort(name: seq<Byte>, h264: bool)
    requires |name| == 9
    ensures ParseSdt(SdtPacket(name, h264)) == None
    ensures var services := SdtPacket(name, h264)[START + 11..START + 3 + 36];
      && ParseServices(services) == None
      && ParseServices(services[4 := 0x17][6 := 0x15]) == Some([Service(1, [(0x48, ServiceDescriptor(name, h264))])])
  {
    hide SdtPacket, PatPacket, PmtPacket, SectionIsSound, ParseServices, Length12, Value, Provider;
    var r := SdtPacket(name, h264);
    SdtBytes(name, h264);
    SdtConstants();
    var all := ServiceDescriptor(name, h264);
    var services := r[16..44];
    assert services == r[16..23] + r[23..44];
    NoServices();
    OneService(0x16, 0x14, all[..20], all[20..]);
    assert services == [0x00, 0x01, 0xfc, 0x80, 0x16, 0x48, 0x14] + all[..20] + all[20..];
    OneService(0x17, 0x15, all, []);
    assert services[4 := 0x17][6 := 0x15] == [0x00, 0x01, 0xfc, 0x80, 0x17, 0x48, 0x15] + all + [];
    var service := [Service(1, [(0x48, all)])];
    assert service + [] == service;
  }

  lemma DescriptorsAreWellFormed()
    ensures ParseDescriptors(PointerDescriptor()) == Some([(0x25, MetadataId() + [0x1f, 0x00, 0x01])])
    ensures ParseDescriptors(MetadataDescriptor()) == Some([(0x26, MetadataId() + [0x0f])])
  {
    hide MetadataId;
    OneDescriptor(0x25, 0x0f, MetadataId() + [0x1f, 0x00, 0x01]);
    OneDescriptor(0x26, 0x0d, MetadataId() + [0x0f]);
    assert PointerDescriptor() == [0x25, 0x0f] + (MetadataId() + [0x1f, 0x00, 0x01]);
    assert MetadataDescriptor() == [0x26, 0x0d] + (MetadataId() + [0x0f]);
  }

  lemma OneDescriptor(tag: Byte, length: Byte, content: seq<Byte>)
    requires Value(length) == |content|
    ensures ParseDescriptors([tag, length] + content) == Some([(tag, content)])
  {
    hide Value;
    var bytes := [tag, length] + content;
    assert bytes[2 + |content|..] == [];
    assert bytes[2..2 + |content|] == content;
    assert bytes[1] == length && ParseDescriptors([]) == Some([]);
    assert [(tag, content)] + [] == [(tag, content)];
  }

  lemma PidInEntry(pid: bv16)
    requires pid < 0x2000
    ensures Pid13(0xe0 | ((pid >> 8) & 0x1f) as Byte, (pid & 0xff) as Byte) == pid
  {}

  lemma FixedLengths()
    ensures Length12(0xb0, 0x37) == 55 && Length12(0xf0, 0x11) == 17 && Length12(0xf0, 0x0f) == 15
  {}

  lemma {:induction false} FirstEntry(entry: seq<Byte>, rest: seq<Byte>)
    requires |entry| >= 5 && 5 + Length12(entry[3], entry[4]) == |entry| && ParseEntries(rest).Some?
    ensures ParseEntries(entry + rest)
         == Some([Entry(entry[0], Pid13(entry[1], entry[2]), entry[5..])] + ParseEntries(rest).value)
  {
    hide Length12, Pid13;
    var bytes := entry + rest;
    assert bytes[|entry|..] == rest && bytes[5..|entry|] == entry[5..];
  }

  lemma KlvEntryParses(pid: bv16)
    requires pid < 0x2000
    ensures ParseEntries(KlvEntry(pid)) == Some([Entry(0x15, pid, MetadataDescriptor())])
  {
    hide Length12, Pid13, MetadataDescriptor;
    PidInEntry(pid);
    FixedLengths();
    var entry := KlvEntry(pid);
    FirstEntry(entry, []);
    assert entry + [] == entry && entry[5..] == MetadataDescriptor();
    assert entry[0] == 0x15 && entry[3] == 0xf0 && entry[4] == 0x0f;
    var e := Entry(0x15, pid, MetadataDescriptor());
    assert [e] + [] == [e];
  }

  /** The rewritten section is sound, its length lands on the end of the checksum,
      and the rest of the packet is stuffing. */
  lemma KlvSectionIsSound(packet: seq<Byte>, pid: bv16)
    requires |packet| == LENGTH
    ensures var r := KlvPmtPacket(packet, START, pid);
      && SectionLength(r) == 55 && SectionIsSound(r)
      && r[START + 58..] == Fill(0xff, LENGTH - START - 58)
  {
    hide Length12, PointerDescriptor, KlvEntry, Crc32.Crc, Crc32.BigEndian;
    var r, body := KlvPmtPacket(packet, START, pid), KlvBody(packet, START, pid);
    FixedLengths();
    assert r[START + 1] == body[START + 1] && r[START + 2] == body[START + 2];
    Crc32.ResidueIsZero(body[START..]);
    assert r[START..START + 58] == body[START..] + Crc32.BigEndian(Crc32.Crc(body[START..]));
  }

  /** The bytes of the rewritten section. */
  lemma KlvBytes(packet: seq<Byte>, pid: bv16)
    requires |packet| == LENGTH
    ensures var r := KlvPmtPacket(packet, START, pid);
      && r[..START + 1] == packet[..START + 1] && r[START + 3..START + 10] == packet[START + 3..START + 10]
      && r[START + 10] == 0xf0 && r[START + 11] == 0x11
      && r[START + 12..START + 29] == PointerDescriptor()
      && r[START + 29..START + 54] == packet[START + 12..START + 17] + KlvEntry(pid)
  {
    hide PointerDescriptor, KlvEntry, Crc32.Crc, Crc32.BigEndian;
    var r, body := KlvPmtPacket(packet, START, pid), KlvBody(packet, START, pid);
    assert r[..START + 54] == body;
  }

  lemma KlvEntriesParse(es1: seq<Byte>, pid: bv16)
    requires |es1| == 5 && Length12(es1[3], es1[4]) == 0 && pid < 0x2000
    ensures ParseEntries(es1 + KlvEntry(pid))
         == Some([Entry(es1[0], Pid13(es1[1], es1[2]), []), Entry(0x15, pid, MetadataDescriptor())])
  {
    hide Length12, MetadataDescriptor, KlvEntry, Pid13, ParseEntries;
    KlvEntryParses(pid);
    FirstEntry(es1, KlvEntry(pid));
    assert es1[5..] == [];
    var video, klv := Entry(es1[0], Pid13(es1[1], es1[2]), []), Entry(0x15, pid, MetadataDescriptor());
    assert [video] + [klv] == [video, klv];
  }

  /** A receiver of the rewritten PMT finds the program, the clock and the video
      stream unchanged, and after it one synchronous metadata stream on `pid`. */
  lemma KlvStreamIsAdded(packet: seq<Byte>, pid: bv16, program: bv16, pcrPid: bv16, video: Entry)
    requires |packet| == LENGTH && pid < 0x2000 && video.info == []
    requires ParsePmt(packet) == Some(Pmt(program, pcrPid, [], [video]))
    ensures ParsePmt(KlvPmtPacket(packet, START, pid))
         == Some(Pmt(program, pcrPid, PointerDescriptor(), [video, Entry(0x15, pid, MetadataDescriptor())]))
  {
    OnlyEntry(packet, program, pcrPid, video);
    hide Length12, PointerDescriptor, MetadataDescriptor, KlvEntry, SectionIsSound, Pid13, ParseEntries, KlvPmtPacket,
         SectionLength;
    var r := KlvPmtPacket(packet, START, pid);
    KlvSectionIsSound(packet, pid);
    KlvBytes(packet, pid);
    FixedLengths();
    KlvEntriesParse(packet[START + 12..START + 17], pid);
    assert r[START - 1] == r[..START + 1][START - 1] && r[START] == r[..START + 1][START];
    assert r[START + 3] == r[START + 3..START + 10][0] && r[START + 4] == r[START + 3..START + 10][1];
    assert r[START + 8] == r[START + 3..START + 10][5] && r[START + 9] == r[START + 3..START + 10][6];
  }

  lemma OnlyOne(bytes: seq<Byte>, entry: Entry)
    requires ParseEntries(bytes) == Some([entry])
    ensures |bytes| >= 5
    ensures var end := 5 + Length12(bytes[3], bytes[4]);
      end <= |bytes| && entry == Entry(bytes[0], Pid13(bytes[1], bytes[2]), bytes[5..end])
  {
    hide Length12, Pid13;
    var end := 5 + Length12(bytes[3], bytes[4]);
    var e, rest := Entry(bytes[0], Pid13(bytes[1], bytes[2]), bytes[5..end]), ParseEntries(bytes[end..]);
    assert ([e] + rest.value)[0] == e;
  }

  lemma OnlyEntry(packet: seq<Byte>, program: bv16, pcrPid: bv16, video: Entry)
    requires |packet| == LENGTH && video.info == []
    requires ParsePmt(packet) == Some(Pmt(program, pcrPid, [], [video]))
    ensures var es1 := packet[START + 12..START + 17];
      && 5 + Length12(es1[3], es1[4]) == 5 && video == Entry(es1[0], Pid13(es1[1], es1[2]), [])
      && packet[START - 1] == 0x00 && packet[START] == 0x02
      && program == (packet[START + 3] as bv16 << 8) | packet[START + 4] as bv16
      && pcrPid == Pid13(packet[START + 8], packet[START + 9])
  {
    hide Length12, Pid13, Crc32.Crc;
    var end := START + 3 + SectionLength(packet);
    var first := START + 12 + Length12(packet[START + 10], packet[START + 11]);
    assert |packet[START + 12..first]| == 0;
    var bytes := packet[START + 12..end - 4];
    OnlyOne(bytes, video);
    var entryEnd := 5 + Length12(bytes[3], bytes[4]);
    assert |bytes[5..entryEnd]| == 0;
    assert packet[START + 12..START + 17] == bytes[..5];
  }

  lemma PidOfByte(low: Byte)
    ensures Pid13(0xe0, low) == low as bv16
  {}

  lemma PmtBytes(pid: nat, h264: bool)
    ensures var r := PmtPacket(pid, h264);
      && r[4] == 0x00 && r[5] == 0x02 && r[6] == 0xb0 && r[7] == 0x12 && r[8] == 0x00 && r[9] == 0x01
      && r[13] == 0xe0 && r[14] == Octet(pid + 1) && r[15] == 0xf0 && r[16] == 0x00
      && r[17..22] == [if h264 then H264_TYPE else 0x03, 0xe0, Octet(pid + 1), 0xf0, 0x00]
  {
    hide PmtBase, Octet, Crc32.Crc, Crc32.BigEndian;
    PmtBaseBytes(pid, h264);
    var base, r := PmtBase(pid, h264), PmtPacket(pid, h264);
    assert forall i | 0 <= i < 22 :: r[i] == base[i];
    assert r[17..22] == base[17..22];
  }

  lemma PmtBaseBytes(pid: nat, h264: bool)
    ensures var r := PmtBase(pid, h264);
      && r[4] == 0x00 && r[5] == 0x02 && r[6] == 0xb0 && r[7] == 0x12 && r[8] == 0x00 && r[9] == 0x01
      && r[13] == 0xe0 && r[14] == Octet(pid + 1) && r[15] == 0xf0 && r[16] == 0x00
      && r[17..22] == [if h264 then H264_TYPE else 0x03, 0xe0, Octet(pid + 1), 0xf0, 0x00]
  {
    hide Padded, Octet, DEFAULT_PMT;
    PmtDefaults();
    PaddedKeeps(DEFAULT_PMT);
    var p, r := Padded(DEFAULT_PMT), PmtBase(pid, h264);
    assert p[4] == 0x00 && p[5] == 0x02 && p[6] == 0xb0 && p[7] == 0x12;
    assert p[13] == 0xe0 && p[15] == 0xf0 && p[16] == 0x00;
    assert p[17] == 0x03 && p[18] == 0xe0 && p[20] == 0xf0 && p[21] == 0x00;
    assert r[17] == (if h264 then H264_TYPE else 0x03) && r[18] == 0xe0 && r[19] == Octet(pid + 1);
    assert r[20] == 0xf0 && r[21] == 0x00;
  }

  lemma PmtDefaults()
    ensures |DEFAULT_PMT| == 26
    ensures var d := DEFAULT_PMT;
      && d[4] == 0x00 && d[5] == 0x02 && d[6] == 0xb0 && d[7] == 0x12 && d[13] == 0xe0 && d[15] == 0xf0
      && d[16] == 0x00 && d[17] == 0x03 && d[18] == 0xe0 && d[20] == 0xf0 && d[21] == 0x00
  {}

  lemma NoEntries()
    ensures ParseEntries([]) == Some([])
  {}

  lemma VideoConstants()
    ensures Length12(0xb0, 0x12) == 18 && Length12(0xf0, 0x00) == 0
    ensures (0x00 as Byte as bv16 << 8) | (0x01 as Byte as bv16) == 1
  {}

  /** The PMT of the video stream alone reads back as one program with one stream. */
  lemma VideoPmtParses(pid: nat, h264: bool)
    ensures ParsePmt(PmtPacket(pid, h264))
         == Some(Pmt(1, Octet(pid + 1) as bv16, [],
                     [Entry(if h264 then H264_TYPE else 0x03, Octet(pid + 1) as bv16, [])]))
  {
    hide PmtPacket, SdtPacket, PatPacket, Octet, SectionIsSound, Pid13, Length12, ParseEntries, Fill;
    var r, low := PmtPacket(pid, h264), Octet(pid + 1);
    PmtBytes(pid, h264);
    VideoConstants();
    TablesAreSound(pid, Fill(0x00, 9), h264);
    PidOfByte(low);
    var es1 := [if h264 then H264_TYPE else 0x03, 0xe0, low, 0xf0, 0x00];
    assert es1 + [] == es1 && es1[5..] == [];
    NoEntries();
    FirstEntry(es1, []);
    var e := Entry(es1[0], low as bv16, []);
    assert [e] + [] == [e];
    assert r[17..17] == [];
  }
}
