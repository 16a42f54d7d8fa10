/** The 32-bit cyclic redundancy check of the PSI sections.

    The multiplexer runs a byte-wise, table-driven loop.  The reference is the
    one-bit-at-a-time shift register of Annex A of ISO/IEC 13818-1: start from
    all ones, feed each byte most significant bit first, and fold the generator
    polynomial in whenever the bit leaving the register differs from the bit
    entering it. */
module Crc32 {
  import opened Bytes

  const POLYNOMIAL: bv32 := 0x04c1_1db7
  const ALL_ONES: bv32 := 0xffff_ffff
  const TOP_BIT: bv32 := 0x8000_0000

  // ----- The reference register -----

  function ShiftBit(reg: bv32, bit: bool): bv32 {
    if (reg >= TOP_BIT) != bit then (reg << 1) ^ POLYNOMIAL else reg << 1
  }

  /** A register value.  Wrapping the bits keeps the proofs about whole bit
      strings away from bit-level reasoning. */
  datatype Word = Word(bits: bv32) {
    predicate Top() { bits >= TOP_BIT }

    function Shift(bit: bool): Word { Word(ShiftBit(bits, bit)) }

    function Double(): Word { Word(bits << 1) }

    function Xor(other: Word): Word { Word(bits ^ other.bits) }
  }

  function Register(reg: Word, bits: seq<bool>): Word
    decreases |bits|
  {
    if bits == [] then reg else Register(reg.Shift(bits[0]), bits[1..])
  }

  /** The first n bits to leave a word that is shifted left. */
  function TopBits(word: Word, n: nat): (bits: seq<bool>)
    ensures |bits| == n
    decreases n
  {
    if n == 0 then [] else [word.Top()] + TopBits(word.Double(), n - 1)
  }

  /** A byte, most significant bit first. */
  function ByteBits(b: Byte): (bits: seq<bool>)
    ensures |bits| == 8
  {
    TopBits(OnTop(b), 8)
  }

  /** A byte laid over the top of a register. */
  function OnTop(b: Byte): Word {
    Word((b as bv32) << 24)
  }

  function Bits(bytes: seq<Byte>): (bits: seq<bool>)
    ensures |bits| == 8 * |bytes|
  {
    if bytes == [] then [] else ByteBits(bytes[0]) + Bits(bytes[1..])
  }

  /** The checksum of a message, as Annex A defines it. */
  function Crc(message: seq<Byte>): bv32 {
    Register(Word(ALL_ONES), Bits(message)).bits
  }

  function BigEndian(word: bv32): (bytes: seq<Byte>)
    ensures |bytes| == 4
  {
    [(word >> 24) as Byte, ((word >> 16) & 0xff) as Byte, ((word >> 8) & 0xff) as Byte, (word & 0xff) as Byte]
  }

  // ----- The table-driven form -----

  // The source's table, one constant for each high nibble of the index.
  const ROW_0: seq<bv32> := [
    0x0000_0000, 0x04c1_1db7, 0x0982_3b6e, 0x0d43_26d9,
    0x1304_76dc, 0x17c5_6b6b, 0x1a86_4db2, 0x1e47_5005,
    0x2608_edb8, 0x22c9_f00f, 0x2f8a_d6d6, 0x2b4b_cb61,
    0x350c_9b64, 0x31cd_86d3, 0x3c8e_a00a, 0x384f_bdbd]

  const ROW_1: seq<bv32> := [
    0x4c11_db70, 0x48d0_c6c7, 0x4593_e01e, 0x4152_fda9,
    0x5f15_adac, 0x5bd4_b01b, 0x5697_96c2, 0x5256_8b75,
    0x6a19_36c8, 0x6ed8_2b7f, 0x639b_0da6, 0x675a_1011,
    0x791d_4014, 0x7ddc_5da3, 0x709f_7b7a, 0x745e_66cd]

  const ROW_2: seq<bv32> := [
    0x9823_b6e0, 0x9ce2_ab57, 0x91a1_8d8e, 0x9560_9039,
    0x8b27_c03c, 0x8fe6_dd8b, 0x82a5_fb52, 0x8664_e6e5,
    0xbe2b_5b58, 0xbaea_46ef, 0xb7a9_6036, 0xb368_7d81,
    0xad2f_2d84, 0xa9ee_3033, 0xa4ad_16ea, 0xa06c_0b5d]

  const ROW_3: seq<bv32> := [
    0xd432_6d90, 0xd0f3_7027, 0xddb0_56fe, 0xd971_4b49,
    0xc736_1b4c, 0xc3f7_06fb, 0xceb4_2022, 0xca75_3d95,
    0xf23a_8028, 0xf6fb_9d9f, 0xfbb8_bb46, 0xff79_a6f1,
    0xe13e_f6f4, 0xe5ff_eb43, 0xe8bc_cd9a, 0xec7d_d02d]

  const ROW_4: seq<bv32> := [
    0x3486_7077, 0x3047_6dc0, 0x3d04_4b19, 0x39c5_56ae,
    0x2782_06ab, 0x2343_1b1c, 0x2e00_3dc5, 0x2ac1_2072,
    0x128e_9dcf, 0x164f_8078, 0x1b0c_a6a1, 0x1fcd_bb16,
    0x018a_eb13, 0x054b_f6a4, 0x0808_d07d, 0x0cc9_cdca]

  const ROW_5: seq<bv32> := [
    0x7897_ab07, 0x7c56_b6b0, 0x7115_9069, 0x75d4_8dde,
    0x6b93_dddb, 0x6f52_c06c, 0x6211_e6b5, 0x66d0_fb02,
    0x5e9f_46bf, 0x5a5e_5b08, 0x571d_7dd1, 0x53dc_6066,
    0x4d9b_3063, 0x495a_2dd4, 0x4419_0b0d, 0x40d8_16ba]

  const ROW_6: seq<bv32> := [
    0xaca5_c697, 0xa864_db20, 0xa527_fdf9, 0xa1e6_e04e,
    0xbfa1_b04b, 0xbb60_adfc, 0xb623_8b25, 0xb2e2_9692,
    0x8aad_2b2f, 0x8e6c_3698, 0x832f_1041, 0x87ee_0df6,
    0x99a9_5df3, 0x9d68_4044, 0x902b_669d, 0x94ea_7b2a]

  const ROW_7: seq<bv32> := [
    0xe0b4_1de7, 0xe475_0050, 0xe936_2689, 0xedf7_3b3e,
    0xf3b0_6b3b, 0xf771_768c, 0xfa32_5055, 0xfef3_4de2,
    0xc6bc_f05f, 0xc27d_ede8, 0xcf3e_cb31, 0xcbff_d686,
    0xd5b8_8683, 0xd179_9b34, 0xdc3a_bded, 0xd8fb_a05a]

  const ROW_8: seq<bv32> := [
    0x690c_e0ee, 0x6dcd_fd59, 0x608e_db80, 0x644f_c637,
    0x7a08_9632, 0x7ec9_8b85, 0x738a_ad5c, 0x774b_b0eb,
    0x4f04_0d56, 0x4bc5_10e1, 0x4686_3638, 0x4247_2b8f,
    0x5c00_7b8a, 0x58c1_663d, 0x5582_40e4, 0x5143_5d53]

  const ROW_9: seq<bv32> := [
    0x251d_3b9e, 0x21dc_2629, 0x2c9f_00f0, 0x285e_1d47,
    0x3619_4d42, 0x32d8_50f5, 0x3f9b_762c, 0x3b5a_6b9b,
    0x0315_d626, 0x07d4_cb91, 0x0a97_ed48, 0x0e56_f0ff,
    0x1011_a0fa, 0x14d0_bd4d, 0x1993_9b94, 0x1d52_8623]

  const ROW_A: seq<bv32> := [
    0xf12f_560e, 0xf5ee_4bb9, 0xf8ad_6d60, 0xfc6c_70d7,
    0xe22b_20d2, 0xe6ea_3d65, 0xeba9_1bbc, 0xef68_060b,
    0xd727_bbb6, 0xd3e6_a601, 0xdea5_80d8, 0xda64_9d6f,
    0xc423_cd6a, 0xc0e2_d0dd, 0xcda1_f604, 0xc960_ebb3]

  const ROW_B: seq<bv32> := [
    0xbd3e_8d7e, 0xb9ff_90c9, 0xb4bc_b610, 0xb07d_aba7,
    0xae3a_fba2, 0xaafb_e615, 0xa7b8_c0cc, 0xa379_dd7b,
    0x9b36_60c6, 0x9ff7_7d71, 0x92b4_5ba8, 0x9675_461f,
    0x8832_161a, 0x8cf3_0bad, 0x81b0_2d74, 0x8571_30c3]

  const ROW_C: seq<bv32> := [
    0x5d8a_9099, 0x594b_8d2e, 0x5408_abf7, 0x50c9_b640,
    0x4e8e_e645, 0x4a4f_fbf2, 0x470c_dd2b, 0x43cd_c09c,
    0x7b82_7d21, 0x7f43_6096, 0x7200_464f, 0x76c1_5bf8,
    0x6886_0bfd, 0x6c47_164a, 0x6104_3093, 0x65c5_2d24]

  const ROW_D: seq<bv32> := [
    0x119b_4be9, 0x155a_565e, 0x1819_7087, 0x1cd8_6d30,
    0x029f_3d35, 0x065e_2082, 0x0b1d_065b, 0x0fdc_1bec,
    0x3793_a651, 0x3352_bbe6, 0x3e11_9d3f, 0x3ad0_8088,
    0x2497_d08d, 0x2056_cd3a, 0x2d15_ebe3, 0x29d4_f654]

  const ROW_E: seq<bv32> := [
    0xc5a9_2679, 0xc168_3bce, 0xcc2b_1d17, 0xc8ea_00a0,
    0xd6ad_50a5, 0xd26c_4d12, 0xdf2f_6bcb, 0xdbee_767c,
    0xe3a1_cbc1, 0xe760_d676, 0xea23_f0af, 0xeee2_ed18,
    0xf0a5_bd1d, 0xf464_a0aa, 0xf927_8673, 0xfde6_9bc4]

  const ROW_F: seq<bv32> := [
    0x89b8_fd09, 0x8d79_e0be, 0x803a_c667, 0x84fb_dbd0,
    0x9abc_8bd5, 0x9e7d_9662, 0x933e_b0bb, 0x97ff_ad0c,
    0xafb0_10b1, 0xab71_0d06, 0xa632_2bdf, 0xa2f3_3668,
    0xbcb4_666d, 0xb875_7bda, 0xb536_5d03, 0xb1f7_40b4]

  function TableRow(high: bv8): (row: seq<bv32>)
    ensures |row| == 16
  {
    match high
    case 0 => ROW_0
    case 1 => ROW_1
    case 2 => ROW_2
    case 3 => ROW_3
    case 4 => ROW_4
    case 5 => ROW_5
    case 6 => ROW_6
    case 7 => ROW_7
    case 8 => ROW_8
    case 9 => ROW_9
    case 10 => ROW_A
    case 11 => ROW_B
    case 12 => ROW_C
    case 13 => ROW_D
    case 14 => ROW_E
    case _  => ROW_F
  }

  function Table(i: Byte): bv32 {
    TableRow(i >> 4)[(i & 0x0f) as int]
  }

  function TableStep(crc: bv32, b: Byte): bv32 {
    (crc << 8) ^ Table((crc >> 24) as Byte ^ b)
  }

  /** The checksum loop: one table lookup a byte. */
  method Compute(buffer: array<Byte>, start: nat, length: nat) returns (crc: bv32)
    requires start + length <= buffer.Length
    ensures crc == Crc(buffer[start..start + length])
  {
    crc := ALL_ONES;
    var it := start;
    while it < start + length
      invariant start <= it <= start + length
      invariant crc == Crc(buffer[start..it])
    {
      crc := TableStep(crc, buffer[it]);
      CrcOfOneMore(buffer[start..it], buffer[it]);
      assert buffer[start..it] + [buffer[it]] == buffer[start..it + 1];
      it := it + 1;
    }
  }

  lemma CrcOfOneMore(message: seq<Byte>, b: Byte)
    ensures Crc(message + [b]) == TableStep(Crc(message), b)
  {
    hide TableStep;
    hide ByteBits;
    BitsConcat(message, [b]);
    assert Bits([b]) == ByteBits(b);
    RegisterConcat(Word(ALL_ONES), Bits(message), ByteBits(b));
    TableStepIsEightShifts(Crc(message), b);
  }

  lemma {:induction false} BitsConcat(a: seq<Byte>, b: seq<Byte>)
    ensures Bits(a + b) == Bits(a) + Bits(b)
  {
    hide ByteBits;
    if a == [] {
      assert a + b == b;
    } else {
      assert (a + b)[1..] == a[1..] + b;
      BitsConcat(a[1..], b);
    }
  }

  lemma {:induction false} RegisterConcat(reg: Word, a: seq<bool>, b: seq<bool>)
    ensures Register(reg, a + b) == Register(Register(reg, a), b)
    decreases |a|
  {
    hide Word.Shift;
    if a == [] {
      assert a + b == b;
    } else {
      assert (a + b)[1..] == a[1..] + b;
      RegisterConcat(reg.Shift(a[0]), a[1..], b);
    }
  }

  // ----- One table lookup is eight shifts -----

  function Zeros(reg: Word, n: nat): Word
    decreases n
  {
    if n == 0 then reg else Zeros(reg.Shift(false), n - 1)
  }

  function Doubled(word: Word, n: nat): Word
    decreases n
  {
    if n == 0 then word else Doubled(word.Double(), n - 1)
  }

  lemma XorTop(x: bv32, y: bv32)
    ensures ((x ^ y) >= TOP_BIT) == ((x >= TOP_BIT) != (y >= TOP_BIT))
  {}

  lemma DoubleOfXor(x: bv32, y: bv32)
    ensures (x ^ y) << 1 == (x << 1) ^ (y << 1)
  {}

  lemma DoubleOfXorFolded(x: bv32, y: bv32)
    ensures ((x ^ y) << 1) ^ POLYNOMIAL == ((x << 1) ^ POLYNOMIAL) ^ (y << 1)
  {}

  // Shifts and overlays as functions, which keep the bits out of later proofs.

  function XorBits(x: bv32, y: bv32): bv32 { x ^ y }

  function Up(x: bv32): bv32 { x << 1 }

  predicate TopBit(x: bv32) { x >= TOP_BIT }

  /** A bit already laid over the register is folded in like an incoming one. */
  lemma ShiftOverlay(reg: bv32, overlay: bv32)
    ensures ShiftBit(XorBits(reg, overlay), false) == XorBits(ShiftBit(reg, TopBit(overlay)), Up(overlay))
  {
    XorTop(reg, overlay);
    if reg >= TOP_BIT {
      if overlay >= TOP_BIT { DoubleOfXor(reg, overlay); } else { DoubleOfXorFolded(reg, overlay); }
    } else {
      if overlay >= TOP_BIT { DoubleOfXorFolded(reg, overlay); } else { DoubleOfXor(reg, overlay); }
    }
  }

  lemma PartsOfWord(x: bv32, bit: bool)
    ensures Word(x).Shift(bit) == Word(ShiftBit(x, bit))
    ensures Word(x).Double() == Word(Up(x)) && Word(x).Top() == TopBit(x)
  {
    hide ShiftBit;
  }

  lemma XorOfBits(x: bv32, y: bv32)
    ensures Word(x).Xor(Word(y)) == Word(XorBits(x, y))
  {}

  lemma OverlayOfWords(x: bv32, y: bv32)
    ensures Word(x).Xor(Word(y)).Shift(false) == Word(x).Shift(Word(y).Top()).Xor(Word(y).Double())
  {
    hide *;
    XorOfBits(x, y);
    PartsOfWord(XorBits(x, y), false);
    PartsOfWord(x, TopBit(y));
    PartsOfWord(y, false);
    XorOfBits(ShiftBit(x, TopBit(y)), Up(y));
    ShiftOverlay(x, y);
  }

  lemma WordOverlay(reg: Word, overlay: Word)
    ensures reg.Xor(overlay).Shift(false) == reg.Shift(overlay.Top()).Xor(overlay.Double())
  {
    hide *;
    match reg
    case Word(x) =>
      match overlay
      case Word(y) => OverlayOfWords(x, y);
  }

  lemma {:induction false} ZerosOverlay(reg: Word, overlay: Word, n: nat)
    ensures Zeros(reg.Xor(overlay), n) == Register(reg, TopBits(overlay, n)).Xor(Doubled(overlay, n))
    decreases n
  {
    hide Word.Shift, Word.Xor, Word.Double, Word.Top;
    if n > 0 {
      WordOverlay(reg, overlay);
      assert TopBits(overlay, n)[1..] == TopBits(overlay.Double(), n - 1);
      ZerosOverlay(reg.Shift(overlay.Top()), overlay.Double(), n - 1);
    }
  }

  lemma {:induction false} SplitAt(word: Word, m: nat, n: nat)
    ensures Doubled(word, m + n) == Doubled(Doubled(word, m), n)
    ensures TopBits(word, m + n) == TopBits(word, m) + TopBits(Doubled(word, m), n)
    decreases m
  {
    hide Word.Double, Word.Top;
    if m > 0 {
      SplitAt(word.Double(), m - 1, n);
    }
  }

  lemma FourDoubled(x: bv32)
    ensures Doubled(Word(x), 4) == Word((((x << 1) << 1) << 1) << 1)
  {}

  lemma EightDoubled(x: bv32)
    ensures Doubled(Word(x), 8) == Word(x << 8)
  {
    hide *;
    SplitAt(Word(x), 4, 4);
    FourDoubled(x);
    assert (((x << 1) << 1) << 1) << 1 == x << 4;
    FourDoubled(x << 4);
    assert ((((x << 4) << 1) << 1) << 1) << 1 == x << 8;
  }

  /** No bit is set among the next n to leave the word. */
  ghost predicate Clear(word: Word, n: nat)
    decreases n
  {
    n == 0 || (!word.Top() && Clear(word.Double(), n - 1))
  }

  lemma ClearTopByte(x: bv32)
    requires x < 0x0100_0000
    ensures Clear(Word(x), 8)
  {}

  lemma {:induction false} ClearFeedsZeros(reg: Word, word: Word, n: nat)
    requires Clear(word, n)
    ensures Register(reg, TopBits(word, n)) == Zeros(reg, n)
    decreases n
  {
    hide Word.Shift, Word.Double, Word.Top;
    if n > 0 {
      assert TopBits(word, n)[1..] == TopBits(word.Double(), n - 1);
      ClearFeedsZeros(reg.Shift(false), word.Double(), n - 1);
    }
  }

  lemma XorWithNothing(x: Word)
    ensures x.Xor(Word(0)) == x
  {}

  lemma NothingLeftOnTop(b: Byte)
    ensures Doubled(OnTop(b), 8) == Word(0)
  {
    hide Doubled;
    EightDoubled((b as bv32) << 24);
    assert ((b as bv32) << 24) << 8 == 0;
  }

  /** Feeding a byte is laying it over the top of the register and shifting. */
  lemma FeedByteOnTop(reg: Word, b: Byte)
    ensures Register(reg, ByteBits(b)) == Zeros(reg.Xor(OnTop(b)), 8)
  {
    hide OnTop, TopBits, Register, Zeros, Doubled, Word.Xor;
    ZerosOverlay(reg, OnTop(b), 8);
    NothingLeftOnTop(b);
    XorWithNothing(Register(reg, ByteBits(b)));
  }

  function LowBytes(reg: bv32): Word {
    Word(reg & 0x00ff_ffff)
  }

  lemma LowBytesClear(reg: bv32)
    ensures Clear(LowBytes(reg), 8) && Doubled(LowBytes(reg), 8) == Word(reg << 8)
  {
    ClearTopByte(reg & 0x00ff_ffff);
    EightDoubled(reg & 0x00ff_ffff);
  }

  /** What lies below the top byte only moves up. */
  lemma LowBytesMoveUp(top: Word, reg: bv32)
    ensures Zeros(top.Xor(LowBytes(reg)), 8) == Zeros(top, 8).Xor(Word(reg << 8))
  {
    hide *;
    LowBytesClear(reg);
    ZerosOverlay(top, LowBytes(reg), 8);
    ClearFeedsZeros(top, LowBytes(reg), 8);
  }

  lemma TopByteApart(reg: bv32, b: Byte)
    ensures reg ^ ((b as bv32) << 24) == ((((reg >> 24) as Byte ^ b) as bv32) << 24) ^ (reg & 0x00ff_ffff)
  {}

  lemma LayOnTop(reg: bv32, b: Byte)
    ensures Word(reg).Xor(OnTop(b)) == Word(reg ^ ((b as bv32) << 24))
    ensures OnTop(b).Xor(LowBytes(reg)) == Word(((b as bv32) << 24) ^ (reg & 0x00ff_ffff))
  {}

  lemma TableStepUnfolds(crc: bv32, b: Byte)
    ensures Word(TableStep(crc, b)) == Word(Table((crc >> 24) as Byte ^ b)).Xor(Word(crc << 8))
  {
    hide Table;
  }

  lemma TableStepIsEightShifts(crc: bv32, b: Byte)
    ensures Register(Word(crc), ByteBits(b)) == Word(TableStep(crc, b))
  {
    hide *;
    var index := (crc >> 24) as Byte ^ b;
    FeedByteOnTop(Word(crc), b);
    LayOnTop(crc, b);
    TopByteApart(crc, b);
    LayOnTop(crc, index);
    LowBytesMoveUp(OnTop(index), crc);
    EntryIsRemainder(index);
    TableStepUnfolds(crc, b);
  }

  // ----- The 256 table entries are the eight-shift remainders -----

  function ShiftZero(x: bv32): bv32 {
    if x >= 0x8000_0000 then (x << 1) ^ 0x04c1_1db7 else x << 1
  }

  function Shift8(x: bv32): bv32 {
    ShiftZero(ShiftZero(ShiftZero(ShiftZero(ShiftZero(ShiftZero(ShiftZero(ShiftZero(x))))))))
  }

  function Remainders(first: bv32): (row: seq<bv32>)
    ensures |row| == 16
  {
    [Shift8(first), Shift8(first + 0x0100_0000), Shift8(first + 0x0200_0000), Shift8(first + 0x0300_0000),
     Shift8(first + 0x0400_0000), Shift8(first + 0x0500_0000), Shift8(first + 0x0600_0000), Shift8(first + 0x0700_0000),
     Shift8(first + 0x0800_0000), Shift8(first + 0x0900_0000), Shift8(first + 0x0a00_0000), Shift8(first + 0x0b00_0000),
     Shift8(first + 0x0c00_0000), Shift8(first + 0x0d00_0000), Shift8(first + 0x0e00_0000), Shift8(first + 0x0f00_0000)]
  }

  lemma Rows03()
    ensures ROW_0 == Remainders(0x0000_0000) && ROW_1 == Remainders(0x1000_0000)
    ensures ROW_2 == Remainders(0x2000_0000) && ROW_3 == Remainders(0x3000_0000)
  {}

  lemma Rows47()
    ensures ROW_4 == Remainders(0x4000_0000) && ROW_5 == Remainders(0x5000_0000)
    ensures ROW_6 == Remainders(0x6000_0000) && ROW_7 == Remainders(0x7000_0000)
  {}

  lemma Rows8B()
    ensures ROW_8 == Remainders(0x8000_0000) && ROW_9 == Remainders(0x9000_0000)
    ensures ROW_A == Remainders(0xa000_0000) && ROW_B == Remainders(0xb000_0000)
  {}

  lemma RowsCF()
    ensures ROW_C == Remainders(0xc000_0000) && ROW_D == Remainders(0xd000_0000)
    ensures ROW_E == Remainders(0xe000_0000) && ROW_F == Remainders(0xf000_0000)
  {}

  lemma RowIsRemainders(high: bv8)
    requires high < 0x10
    ensures TableRow(high) == Remainders((high as bv32) << 28)
  {
    hide Remainders;
    Rows03(); Rows47(); Rows8B(); RowsCF();
    assert || high == 0 || high == 1 || high == 2 || high == 3 || high == 4 || high == 5 || high == 6 || high == 7
           || high == 8 || high == 9 || high == 10 || high == 11 || high == 12 || high == 13 || high == 14 || high == 15;
  }

  lemma RemainderAt(first: bv32, low: bv8)
    requires low < 0x10
    ensures Remainders(first)[low as int] == Shift8(first + ((low as bv32) << 24))
  {
    hide Shift8;
    assert || low == 0 || low == 1 || low == 2 || low == 3 || low == 4 || low == 5 || low == 6 || low == 7
           || low == 8 || low == 9 || low == 10 || low == 11 || low == 12 || low == 13 || low == 14 || low == 15;
  }

  lemma NibblesApart(i: Byte)
    ensures i >> 4 < 0x10 && i & 0x0f < 0x10
    ensures (((i >> 4) as bv32) << 28) + (((i & 0x0f) as bv32) << 24) == (i as bv32) << 24
  {}

  lemma EntryIsRemainder(i: Byte)
    ensures Word(Table(i)) == Zeros(OnTop(i), 8)
  {
    hide TableRow, Remainders, Shift8, Zeros;
    NibblesApart(i);
    RowIsRemainders(i >> 4);
    RemainderAt(((i >> 4) as bv32) << 28, i & 0x0f);
    EightZeros((i as bv32) << 24);
  }

  lemma ZerosIsShiftZero(x: bv32, n: nat)
    requires n > 0
    ensures Zeros(Word(x), n) == Zeros(Word(ShiftZero(x)), n - 1)
  {}

  lemma NoZeros(x: Word)
    ensures Zeros(x, 0) == x
  {}

  lemma EightZeros(x: bv32)
    ensures Zeros(Word(x), 8) == Word(Shift8(x))
  {
    hide ShiftZero, Zeros;
    var x1 := ShiftZero(x);
    var x2 := ShiftZero(x1);
    var x3 := ShiftZero(x2);
    var x4 := ShiftZero(x3);
    var x5 := ShiftZero(x4);
    var x6 := ShiftZero(x5);
    var x7 := ShiftZero(x6);
    ZerosIsShiftZero(x, 8);
    ZerosIsShiftZero(x1, 7);
    ZerosIsShiftZero(x2, 6);
    ZerosIsShiftZero(x3, 5);
    ZerosIsShiftZero(x4, 4);
    ZerosIsShiftZero(x5, 3);
    ZerosIsShiftZero(x6, 2);
    ZerosIsShiftZero(x7, 1);
    NoZeros(Word(Shift8(x)));
  }

  // ----- Appending the checksum leaves nothing -----

  lemma ZerosOfNothing()
    ensures Zeros(Word(0), 8) == Word(0)
  {
    hide Zeros;
    EightZeros(0);
  }

  lemma TopByteCancels(w: bv32)
    ensures w ^ ((((w >> 24) as Byte) as bv32) << 24) == w & 0x00ff_ffff
  {}

  lemma TopByteCancelsWord(w: bv32)
    ensures Word(w).Xor(OnTop((w >> 24) as Byte)) == LowBytes(w)
  {
    hide OnTop;
    LayOnTop(w, (w >> 24) as Byte);
    TopByteCancels(w);
  }

  lemma NothingXor(x: Word)
    ensures Word(0).Xor(x) == x
  {}

  lemma FeedTopByte(w: bv32)
    ensures Register(Word(w), ByteBits((w >> 24) as Byte)) == Word(w << 8)
  {
    hide *;
    FeedByteOnTop(Word(w), (w >> 24) as Byte);
    TopByteCancelsWord(w);
    NothingXor(LowBytes(w));
    LowBytesMoveUp(Word(0), w);
    ZerosOfNothing();
    NothingXor(Word(w << 8));
  }

  lemma FeedBytes(reg: Word, bytes: seq<Byte>)
    requires bytes != []
    ensures Register(reg, Bits(bytes)) == Register(Register(reg, ByteBits(bytes[0])), Bits(bytes[1..]))
  {
    hide ByteBits, Word.Shift;
    RegisterConcat(reg, ByteBits(bytes[0]), Bits(bytes[1..]));
  }

  lemma FeedFourBytes(reg: Word, bytes: seq<Byte>)
    requires |bytes| == 4
    ensures Register(reg, Bits(bytes))
         == Register(Register(Register(Register(reg, ByteBits(bytes[0])), ByteBits(bytes[1])), ByteBits(bytes[2])),
                     ByteBits(bytes[3]))
  {
    hide ByteBits, Word.Shift;
    var r1 := Register(reg, ByteBits(bytes[0]));
    var r2 := Register(r1, ByteBits(bytes[1]));
    var r3 := Register(r2, ByteBits(bytes[2]));
    FeedBytes(reg, bytes);
    FeedBytes(r1, bytes[1..]);
    assert bytes[1..][1..] == bytes[2..];
    FeedBytes(r2, bytes[2..]);
    assert bytes[2..][1..] == bytes[3..];
    FeedBytes(r3, bytes[3..]);
    assert Bits(bytes[3..][1..]) == [];
  }

  /** The register after feeding the top k bytes of its own value. */
  lemma NextTopByte(w: bv32, b: Byte, v: bv32)
    requires b == (w >> 24) as Byte && v == w << 8
    ensures Register(Word(w), ByteBits(b)) == Word(v)
  {
    hide *;
    FeedTopByte(w);
  }

  lemma BytesFromTop(w: bv32)
    ensures BigEndian(w)[0] == (w >> 24) as Byte
    ensures BigEndian(w)[1] == ((w << 8) >> 24) as Byte
    ensures BigEndian(w)[2] == (((w << 8) << 8) >> 24) as Byte
    ensures BigEndian(w)[3] == ((((w << 8) << 8) << 8) >> 24) as Byte
    ensures (((w << 8) << 8) << 8) << 8 == 0
  {}

  lemma RegisterEatsItself(w: bv32)
    ensures Register(Word(w), Bits(BigEndian(w))) == Word(0)
  {
    hide *;
    var w1 := w << 8;
    var w2 := w1 << 8;
    var w3 := w2 << 8;
    BytesFromTop(w);
    FeedFourBytes(Word(w), BigEndian(w));
    NextTopByte(w, BigEndian(w)[0], w1);
    NextTopByte(w1, BigEndian(w)[1], w2);
    NextTopByte(w2, BigEndian(w)[2], w3);
    NextTopByte(w3, BigEndian(w)[3], 0);
  }

  /** A message followed by its checksum, big end first, leaves a zero residue:
      this is what a receiver of the section tests. */
  lemma ResidueIsZero(message: seq<Byte>)
    ensures Crc(message + BigEndian(Crc(message))) == 0
  {
    hide BigEndian, Register;
    var tail := BigEndian(Crc(message));
    BitsConcat(message, tail);
    RegisterConcat(Word(ALL_ONES), Bits(message), Bits(tail));
    RegisterEatsItself(Crc(message));
  }

  // ----- Bursts of at most 32 bits are always detected -----

  lemma {:induction false} DoubledOfXor(a: Word, b: Word, k: nat)
    ensures Doubled(a.Xor(b), k) == Doubled(a, k).Xor(Doubled(b, k))
    decreases k
  {
    hide Word.Xor, Word.Double;
    if k > 0 {
      DoubleOfWordXor(a.bits, b.bits);
      DoubledOfXor(a.Double(), b.Double(), k - 1);
    }
  }

  lemma XorOfWords(x: bv32, y: bv32)
    ensures Word(x).Xor(Word(y)) == Word(x ^ y)
  {}

  lemma DoubleOfWord(x: bv32)
    ensures Word(x).Double() == Word(x << 1)
  {}

  lemma DoubleOfWordXor(x: bv32, y: bv32)
    ensures Word(x).Xor(Word(y)).Double() == Word(x).Double().Xor(Word(y).Double())
  {
    hide *;
    XorOfWords(x, y);
    DoubleOfWord(x ^ y);
    DoubleOfXor(x, y);
    DoubleOfWord(x);
    DoubleOfWord(y);
    XorOfWords(x << 1, y << 1);
  }

  lemma EightDoubledTo(x: bv32, y: bv32)
    requires y == x << 8
    ensures Doubled(Word(x), 8) == Word(y)
  {
    hide *;
    EightDoubled(x);
  }

  lemma FourTimesEight(x: bv32)
    ensures (((x << 8) << 8) << 8) << 8 == 0
  {}

  lemma NothingLeft(x: bv32)
    ensures Doubled(Word(x), 32) == Word(0)
  {
    hide *;
    var x1 := x << 8;
    var x2 := x1 << 8;
    var x3 := x2 << 8;
    FourTimesEight(x);
    SplitAt(Word(x), 8, 24);
    EightDoubledTo(x, x1);
    SplitAt(Word(x1), 8, 16);
    EightDoubledTo(x1, x2);
    SplitAt(Word(x2), 8, 8);
    EightDoubledTo(x2, x3);
    EightDoubledTo(x3, 0);
  }

  lemma LastSteps()
    ensures Doubled(Word(0xb700_0000), 4) == Word(0x7000_0000)
    ensures Doubled(Word(0x7000_0000), 3) == Word(TOP_BIT)
    ensures POLYNOMIAL == 0x04c1_1db7
  {
    FourDoubled(0xb700_0000);
    assert Doubled(Word(0xc000_0000), 1) == Word(TOP_BIT);
  }

  /** Only the lowest bit of the generator is left after 31 doublings. */
  lemma GeneratorIsOdd()
    ensures Doubled(Word(POLYNOMIAL), 31) == Word(TOP_BIT)
  {
    hide *;
    SplitAt(Word(0x04c1_1db7), 8, 23);
    EightDoubledTo(0x04c1_1db7, 0xc11d_b700);
    SplitAt(Word(0xc11d_b700), 8, 15);
    EightDoubledTo(0xc11d_b700, 0x1db7_0000);
    SplitAt(Word(0x1db7_0000), 8, 7);
    EightDoubledTo(0x1db7_0000, 0xb700_0000);
    SplitAt(Word(0xb700_0000), 4, 3);
    LastSteps();
  }

  function Folded(word: Word, fold: bool): Word {
    if fold then word.Xor(Word(POLYNOMIAL)) else word
  }

  lemma ShiftIsFolded(x: Word, bit: bool)
    ensures x.Shift(bit) == Folded(x.Double(), x.Top() != bit)
  {}

  lemma XorUndone(a: Word, b: Word, c: Word)
    requires a.Xor(c) == b.Xor(c)
    ensures a == b
  {}

  lemma XorZeroAndTop()
    ensures Word(0).Xor(Word(TOP_BIT)) != Word(0)
  {}

  /** A word that was just doubled has nothing left after 31 more doublings;
      one with the generator folded in has its lowest bit left. */
  lemma LeftAfterFold(x: Word, fold: bool)
    ensures Doubled(Folded(x.Double(), fold), 31) == (if fold then Word(0).Xor(Word(TOP_BIT)) else Word(0))
  {
    hide Doubled, Word.Double, Word.Xor;
    assert Doubled(x.Double(), 31) == Word(0) by { UnrollDoubled(x, 32); NothingLeft(x.bits); }
    DoubledOfXor(x.Double(), Word(POLYNOMIAL), 31);
    GeneratorIsOdd();
  }

  lemma UnrollDoubled(x: Word, k: nat)
    requires k > 0
    ensures Doubled(x, k) == Doubled(x.Double(), k - 1)
  {
    hide Word.Double;
  }

  /** If two registers agree on their low 32 - k bits after one shift, then the
      generator was folded into both or into none, and before the shift they
      agreed on their low 31 - k bits. */
  lemma FoldsAgree(a: Word, x: bool, b: Word, y: bool, k: nat)
    requires k <= 31
    requires Doubled(a.Shift(x), k) == Doubled(b.Shift(y), k)
    ensures (a.Top() != x) == (b.Top() != y)
    ensures Doubled(a, k + 1) == Doubled(b, k + 1)
  {
    hide *;
    var f, g := a.Top() != x, b.Top() != y;
    ShiftIsFolded(a, x);
    ShiftIsFolded(b, y);
    SplitAt(a.Shift(x), k, 31 - k);
    SplitAt(b.Shift(y), k, 31 - k);
    LeftAfterFold(a, f);
    LeftAfterFold(b, g);
    XorZeroAndTop();
    UnrollDoubled(a, k + 1);
    UnrollDoubled(b, k + 1);
    SameFoldUndone(a.Double(), b.Double(), f, k);
  }

  lemma SameXorUndone(a: Word, b: Word, c: Word, k: nat)
    ensures Doubled(a.Xor(c), k) == Doubled(b.Xor(c), k) ==> Doubled(a, k) == Doubled(b, k)
  {
    hide *;
    DoubledOfXor(a, c, k);
    DoubledOfXor(b, c, k);
    if Doubled(a.Xor(c), k) == Doubled(b.Xor(c), k) {
      XorUndone(Doubled(a, k), Doubled(b, k), Doubled(c, k));
    }
  }

  lemma SameFoldUndone(a: Word, b: Word, fold: bool, k: nat)
    ensures Doubled(Folded(a, fold), k) == Doubled(Folded(b, fold), k) ==> Doubled(a, k) == Doubled(b, k)
  {
    hide *;
    FoldedIsXor(a, fold);
    FoldedIsXor(b, fold);
    SameXorUndone(a, b, Word(POLYNOMIAL), k);
  }

  lemma FoldedIsXor(a: Word, fold: bool)
    ensures fold ==> Folded(a, fold) == a.Xor(Word(POLYNOMIAL))
    ensures !fold ==> Folded(a, fold) == a
  {
    hide Word.Xor;
  }

  /** The backward pass over two bit strings that end in agreeing registers. */
  lemma {:induction false} Backward(a: Word, u: seq<bool>, b: Word, v: seq<bool>, k: nat)
    requires |u| == |v| && k + |u| <= 32
    requires Doubled(Register(a, u), k) == Doubled(Register(b, v), k)
    ensures Doubled(a, k + |u|) == Doubled(b, k + |u|)
    ensures u != [] ==> (a.Top() != u[0]) == (b.Top() != v[0])
    decreases |u|
  {
    hide Word.Shift, Word.Top, Doubled;
    if u != [] {
      Backward(a.Shift(u[0]), u[1..], b.Shift(v[0]), v[1..], k);
      FoldsAgree(a, u[0], b, v[0], k + |u| - 1);
    }
  }

  lemma {:induction false} ShortInputIsUnique(reg: Word, u: seq<bool>, v: seq<bool>)
    requires |u| == |v| <= 32
    requires Register(reg, u) == Register(reg, v)
    ensures u == v
    decreases |u|
  {
    hide Word.Shift, Word.Top;
    if u != [] {
      assert Doubled(Register(reg, u), 0) == Doubled(Register(reg, v), 0);
      Backward(reg, u, reg, v, 0);
      ShortInputIsUnique(reg.Shift(u[0]), u[1..], v[1..]);
      assert u == [u[0]] + u[1..] && v == [v[0]] + v[1..];
    }
  }

  lemma DoubleIsInjective(x: Word, y: Word)
    requires x.Top() == y.Top() && x.Double() == y.Double()
    ensures x == y
  {}

  lemma {:induction false} RegisterIsInjective(a: Word, b: Word, bits: seq<bool>)
    requires Register(a, bits) == Register(b, bits)
    ensures a == b
    decreases |bits|
  {
    hide Word.Shift, Word.Top, Word.Double;
    if bits != [] {
      RegisterIsInjective(a.Shift(bits[0]), b.Shift(bits[0]), bits[1..]);
      FoldsAgree(a, bits[0], b, bits[0], 0);
      DoubledOnce(a);
      DoubledOnce(b);
      DoubleIsInjective(a, b);
    }
  }

  lemma DoubledOnce(word: Word)
    ensures Doubled(word, 1) == word.Double() && Doubled(word, 0) == word
  {
    hide Word.Double;
  }

  /** Two bit strings that differ only inside a window of 32 bits never leave
      the same register. */
  lemma BurstChangesRegister(reg: Word, before: seq<bool>, u: seq<bool>, v: seq<bool>, after: seq<bool>)
    requires |u| == |v| <= 32 && u != v
    ensures Register(reg, before + u + after) != Register(reg, before + v + after)
  {
    hide Word.Shift;
    var start := Register(reg, before);
    RegisterConcat(reg, before + u, after);
    RegisterConcat(reg, before, u);
    RegisterConcat(reg, before + v, after);
    RegisterConcat(reg, before, v);
    if Register(reg, before + u + after) == Register(reg, before + v + after) {
      RegisterIsInjective(Register(start, u), Register(start, v), after);
      ShortInputIsUnique(start, u, v);
    }
  }

  lemma {:induction false} TopBitsDetermine(a: Word, b: Word, n: nat)
    requires TopBits(a, n) == TopBits(b, n) && Doubled(a, n) == Doubled(b, n)
    ensures a == b
    decreases n
  {
    hide Word.Top, Word.Double;
    if n > 0 {
      assert TopBits(a, n)[0] == a.Top() && TopBits(b, n)[0] == b.Top();
      assert TopBits(a, n)[1..] == TopBits(a.Double(), n - 1) && TopBits(b, n)[1..] == TopBits(b.Double(), n - 1);
      TopBitsDetermine(a.Double(), b.Double(), n - 1);
      DoubleIsInjective(a, b);
    }
  }

  lemma OnTopIsInjective(a: Byte, b: Byte)
    requires OnTop(a) == OnTop(b)
    ensures a == b
  {}

  lemma ByteBitsIsInjective(a: Byte, b: Byte)
    requires ByteBits(a) == ByteBits(b)
    ensures a == b
  {
    hide TopBits, Doubled;
    NothingLeftOnTop(a);
    NothingLeftOnTop(b);
    TopBitsDetermine(OnTop(a), OnTop(b), 8);
    OnTopIsInjective(a, b);
  }

  lemma {:induction false} BitsIsInjective(a: seq<Byte>, b: seq<Byte>)
    requires |a| == |b| && Bits(a) == Bits(b)
    ensures a == b
  {
    hide ByteBits;
    if a != [] {
      assert Bits(a)[..8] == ByteBits(a[0]) && Bits(b)[..8] == ByteBits(b[0]);
      assert Bits(a)[8..] == Bits(a[1..]) && Bits(b)[8..] == Bits(b[1..]);
      ByteBitsIsInjective(a[0], b[0]);
      BitsIsInjective(a[1..], b[1..]);
      assert a == [a[0]] + a[1..] && b == [b[0]] + b[1..];
    }
  }

  /** Corrupting up to four consecutive bytes always changes the checksum. */
  lemma FourByteBurstIsDetected(before: seq<Byte>, u: seq<Byte>, v: seq<Byte>, after: seq<Byte>)
    requires |u| == |v| <= 4 && u != v
    ensures Crc(before + u + after) != Crc(before + v + after)
  {
    hide Register;
    BitsConcat(before + u, after);
    BitsConcat(before, u);
    BitsConcat(before + v, after);
    BitsConcat(before, v);
    if Bits(u) == Bits(v) {
      BitsIsInjective(u, v);
    }
    BurstChangesRegister(Word(ALL_ONES), Bits(before), Bits(u), Bits(v), Bits(after));
  }

  /** The receiver's test is exact: the residue is zero for one four-byte tail
      only, the big-endian checksum of the message. */
  lemma ResidueIsZeroOnlyForTheCrc(message: seq<Byte>, tail: seq<Byte>)
    requires |tail| == 4
    ensures Crc(message + tail) == 0 <==> tail == BigEndian(Crc(message))
  {
    hide Crc, BigEndian;
    ResidueIsZero(message);
    var good := BigEndian(Crc(message));
    if tail != good {
      FourByteBurstIsDetected(message, tail, good, []);
      assert message + tail + [] == message + tail && message + good + [] == message + good;
    }
  }
}
