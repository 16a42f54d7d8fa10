/** The converter of Bayer frames: samples are multiplied by a coefficient that
    depends on their column and row, and narrowed back to 16 bits.  There is a portable
    loop and there are two loops in assembler, for ARMv8 and for ARMv7. */
module BayerConvert {
  import opened Arithmetic

  const SAMPLE: nat := 0x1_0000
  const WORD: nat := 0x1_0000_0000

  type Sample = x: int | 0 <= x < SAMPLE
  type Word = x: int | 0 <= x < WORD

  // ----- One sample -----

  /** What is meant: the product divided by 256, rounded and saturated. */
  function Converted(s: Sample, c: Sample): Sample {
    var scaled := (s * c + 128) / 256;
    if scaled >= SAMPLE then 0xffff else scaled
  }

  /** A product of two samples, with room for the rounding constant. */
  function Product(s: Sample, c: Sample): (p: Word)
    ensures p == s * c && p + 128 < WORD
  {
    ProductFits(s, c);
    s * c
  }

  lemma ProductFits(s: Sample, c: Sample)
    ensures 0 <= s * c <= 0xffff * 0xffff
  {
    AtMost(s, 0xffff, c);
    AtMost(c, 0xffff, 0xffff);
  }

  /** The portable loop's arithmetic in 32 bits, where nothing overflows. */
  function Rounded(product: Word): Word {
    (product + 128) % WORD / 256
  }

  lemma PortableSample(s: Sample, c: Sample)
    ensures Converted(s, c) == if Rounded(Product(s, c)) > 0xffff then 0xffff else Rounded(Product(s, c))
  {}

  // ----- The portable loops -----

  /** Samples come in groups of four. */
  function Groups(n: nat): nat {
    (n + 3) / 4 * 4
  }

  /** The coefficient of column k. */
  function Coef(k: nat, c0: Sample, c1: Sample): Sample {
    if k % 2 == 0 then c0 else c1
  }

  /** Samples `to`, `to + 1`, ... up to n of them are the converted ones from `from` on;
      the others are as they were. */
  ghost predicate LineDone(
    src: seq<Sample>, from: nat, was: seq<Sample>, now: seq<Sample>, to: nat, n: nat, c0: Sample, c1: Sample)
  {
    && |now| == |was| && from + n <= |src| && to + n <= |now|
    && forall k | 0 <= k < |now| ::
         now[k] == if to <= k < to + n then Converted(src[from + k - to], Coef(k - to, c0, c1)) else was[k]
  }

  lemma NothingDone(src: seq<Sample>, from: nat, was: seq<Sample>, to: nat, c0: Sample, c1: Sample)
    requires from <= |src| && to <= |was|
    ensures LineDone(src, from, was, was, to, 0, c0, c1)
  {}

  lemma OneDone(src: seq<Sample>, from: nat, was: seq<Sample>, now: seq<Sample>, to: nat, n: nat, c0: Sample, c1: Sample)
    requires LineDone(src, from, was, now, to, n, c0, c1) && from + n < |src| && to + n < |now|
    ensures LineDone(src, from, was, now[to + n := Converted(src[from + n], Coef(n, c0, c1))], to, n + 1, c0, c1)
  {
    hide Converted, Coef;
  }

  lemma CoefOfLane(i: nat, lane: nat, c0: Sample, c1: Sample)
    requires i % 4 == 0
    ensures Coef(i + lane, c0, c1) == Coef(lane, c0, c1)
    ensures Coef(lane, c0, c1) == if lane % 2 == 0 then c0 else c1
  {}

  /** One group of four samples. */
  method ConvertGroup(
    src: array<Sample>, from: nat, dst: array<Sample>, to: nat, i: nat, c0: Sample, c1: Sample, ghost was: seq<Sample>)
    requires src != dst && i % 4 == 0
    requires from + i + 4 <= src.Length && to + i + 4 <= dst.Length
    requires LineDone(src[..], from, was, dst[..], to, i, c0, c1)
    modifies dst
    ensures LineDone(src[..], from, was, dst[..], to, i + 4, c0, c1)
  {
    hide LineDone, Converted, Rounded, Product, Coef;
    for lane := 0 to 4
      invariant LineDone(src[..], from, was, dst[..], to, i + lane, c0, c1)
    {
      var coef := if lane % 2 == 0 then c0 else c1;
      var rounded := Rounded(Product(src[from + i + lane], coef));
      PortableSample(src[from + i + lane], coef);
      CoefOfLane(i, lane, c0, c1);
      OneDone(src[..], from, was, dst[..], to, i + lane, c0, c1);
      dst[to + i + lane] := if rounded > 0xffff then 0xffff else rounded;
    }
  }

  method ConvertLine(src: array<Sample>, from: nat, dst: array<Sample>, to: nat, size: nat, c0: Sample, c1: Sample)
    returns (written: nat)
    requires src != dst
    requires from + Groups(size / 2) <= src.Length && to + Groups(size / 2) <= dst.Length
    modifies dst
    ensures written == size
    ensures LineDone(src[..], from, old(dst[..]), dst[..], to, Groups(size / 2), c0, c1)
  {
    hide LineDone;
    var nsamples := size / 2;
    var i := 0;
    NothingDone(src[..], from, dst[..], to, c0, c1);
    while i < nsamples
      invariant 0 <= i <= Groups(nsamples) && i % 4 == 0
      invariant LineDone(src[..], from, old(dst[..]), dst[..], to, i, c0, c1)
    {
      ConvertGroup(src, from, dst, to, i, c0, c1, old(dst[..]));
      i := i + 4;
    }
    return size;
  }

  // ----- Frames -----

  datatype Format = BGGR | GBRG

  datatype Colour = Red | Green | Blue

  /** The colour of a sample: a pattern of two by two. */
  function ColourAt(format: Format, row: nat, column: nat): Colour {
    match format
    case BGGR =>
      if row % 2 == 0 then (if column % 2 == 0 then Blue else Green)
      else (if column % 2 == 0 then Green else Red)
    case GBRG =>
      if row % 2 == 0 then (if column % 2 == 0 then Green else Blue)
      else (if column % 2 == 0 then Red else Green)
  }

  /** Where the colours of a format have their coefficients. */
  datatype Places = Places(green1: nat, red: nat, green2: nat, blue: nat)

  function PlacesOf(format: Format): Places {
    match format
    case BGGR => Places(1, 3, 2, 0)
    case GBRG => Places(0, 2, 3, 1)
  }

  class Converter {
    const coefs: array<Sample>

    constructor (format: Format)
      ensures fresh(coefs) && coefs.Length == 4
      ensures forall row: nat, column: nat ::
        coefs[2 * (row % 2) + column % 2] == if ColourAt(format, row, column) == Green then 32 else 0
    {
      coefs := new Sample[4](_ => 0);
      new;
      var places := PlacesOf(format);
      coefs[places.green1] := 32;
      coefs[places.green2] := 32;
      coefs[places.red] := 0;
      coefs[places.blue] := 0;
    }

    /** The lines of a frame, one after the other; the coefficients alternate with the
        parity of the row.  Sizes are in bytes, places in samples.  A line that is not
        a whole number of groups runs into the next one, which is written after it. */
    method Convert(src: array<Sample>, dst: array<Sample>, size: nat, stride: nat) returns (written: nat)
      requires src != dst && coefs != dst && coefs.Length == 4
      requires stride > 0 || size > 0
      requires (if stride == 0 then size else stride) % 2 == 0
      requires var step := if stride == 0 then size else stride;
        HasRoom(src.Length, step / 2, NRows(size, step)) && HasRoom(dst.Length, step / 2, NRows(size, step))
      modifies dst
      ensures written == size
      ensures var step := if stride == 0 then size else stride;
        RowsDone(src[..], dst[..], step / 2, NRows(size, step), coefs[..])
    {
      hide RowsDone, NRows, HasRoom;
      var step := if stride == 0 then size else stride;
      ConvertRows(src, dst, NRows(size, step), step);
      return size;
    }

    method ConvertRows(src: array<Sample>, dst: array<Sample>, nrows: nat, step: nat)
      requires src != dst && coefs != dst && coefs.Length == 4
      requires step == 2 * (step / 2)
      requires HasRoom(src.Length, step / 2, nrows) && HasRoom(dst.Length, step / 2, nrows)
      modifies dst
      ensures RowsDone(src[..], dst[..], step / 2, nrows, coefs[..])
    {
      hide RowsDone, Groups, Times, HasRoom;
      var d := 0;
      NoRowsDone(src[..], dst[..], step / 2, coefs[..]);
      TimesZero(step);
      for i := 0 to nrows
        invariant d == Times(i, step)
        invariant RowsDone(src[..], dst[..], step / 2, i, coefs[..])
      {
        RowPlace(i, step, step / 2);
        RowHasRoom(src.Length, i, nrows, step / 2);
        RowHasRoom(dst.Length, i, nrows, step / 2);
        var n := ConvertRow(src, dst, i, step, Times(i, step), d);
        d := d + n;
      }
    }

    /** Row i, from its place in the source to its place in the destination. */
    method ConvertRow(src: array<Sample>, dst: array<Sample>, i: nat, step: nat, from: nat, to: nat) returns (n: nat)
      requires src != dst && coefs != dst && coefs.Length == 4
      requires from / 2 == to / 2 == i * (step / 2)
      requires i * (step / 2) + Groups(step / 2) <= src.Length && i * (step / 2) + Groups(step / 2) <= dst.Length
      requires RowsDone(src[..], dst[..], step / 2, i, coefs[..])
      modifies dst
      ensures RowsDone(src[..], dst[..], step / 2, i + 1, coefs[..]) && n == step
    {
      hide RowsDone, LineDone, Groups;
      var c := 2 * (i % 2);
      n := ConvertLine(src, from / 2, dst, to / 2, step, coefs[c], coefs[c + 1]);
      OneRowMore(src[..], old(dst[..]), dst[..], step / 2, i, coefs[..]);
    }
  }

  /** The groups of the last line end inside. */
  predicate HasRoom(length: nat, width: nat, rows: nat) {
    rows > 0 ==> (rows - 1) * width + Groups(width) <= length
  }

  function NRows(size: nat, step: nat): nat
    requires step > 0
  {
    size / step
  }

  /** The rows that are converted are all the whole rows of the frame. */
  lemma RowsAreWhole(size: nat, step: nat, row: nat)
    requires step > 0
    ensures row < NRows(size, step) <==> (row + 1) * step <= size
    ensures size < (NRows(size, step) + 1) * step
  {
    var n := NRows(size, step);
    assert size == n * step + size % step;
    assert (n + 1) * step == n * step + step;
    AtMostIf(row + 1, n, step);
    AtMostIf(n + 1, row + 1, step);
  }

  lemma AtMostIf(m: nat, n: nat, w: nat)
    ensures m <= n ==> m * w <= n * w
  {
    if m <= n {
      AtMost(m, n, w);
    }
  }

  function Times(a: nat, b: nat): nat {
    AtMost(0, a, b);
    a * b
  }

  /** Row r is converted with the coefficients of its parity. */
  ghost predicate RowDone(src: seq<Sample>, now: seq<Sample>, width: nat, r: nat, coefs: seq<Sample>)
    requires |coefs| == 4
  {
    && r * width + width <= |src| && r * width + width <= |now|
    && forall k | 0 <= k < width ::
         now[r * width + k] == Converted(src[r * width + k], coefs[2 * (r % 2) + k % 2])
  }

  ghost predicate RowsDone(src: seq<Sample>, now: seq<Sample>, width: nat, rows: nat, coefs: seq<Sample>)
    requires |coefs| == 4
  {
    forall r | 0 <= r < rows :: RowDone(src, now, width, r, coefs)
  }

  lemma NoRowsDone(src: seq<Sample>, now: seq<Sample>, width: nat, coefs: seq<Sample>)
    requires |coefs| == 4
    ensures RowsDone(src, now, width, 0, coefs)
  {}

  lemma RowKept(src: seq<Sample>, was: seq<Sample>, now: seq<Sample>, width: nat, r: nat, i: nat, coefs: seq<Sample>)
    requires |coefs| == 4 && r < i && RowDone(src, was, width, r, coefs)
    requires LineDone(src, i * width, was, now, i * width, Groups(width), coefs[2 * (i % 2)], coefs[2 * (i % 2) + 1])
    ensures RowDone(src, now, width, r, coefs)
  {
    hide Converted, Coef, Groups;
    Apart(r, i, width);
    AtMost(r, i, width);
  }

  lemma OneRowMore(src: seq<Sample>, was: seq<Sample>, now: seq<Sample>, width: nat, i: nat, coefs: seq<Sample>)
    requires |coefs| == 4 && RowsDone(src, was, width, i, coefs)
    requires LineDone(src, i * width, was, now, i * width, Groups(width), coefs[2 * (i % 2)], coefs[2 * (i % 2) + 1])
    ensures RowsDone(src, now, width, i + 1, coefs)
  {
    hide LineDone, RowDone, Groups;
    forall r | 0 <= r < i + 1 ensures RowDone(src, now, width, r, coefs) {
      if r < i {
        RowKept(src, was, now, width, r, i, coefs);
      } else {
        NewRow(src, was, now, width, i, coefs);
      }
    }
  }

  lemma NewRow(src: seq<Sample>, was: seq<Sample>, now: seq<Sample>, width: nat, i: nat, coefs: seq<Sample>)
    requires |coefs| == 4
    requires LineDone(src, i * width, was, now, i * width, Groups(width), coefs[2 * (i % 2)], coefs[2 * (i % 2) + 1])
    ensures RowDone(src, now, width, i, coefs)
  {
    hide Converted;
    AtMost(0, i, width);
    assert Groups(width) >= width;
  }

  lemma TimesZero(step: nat)
    ensures Times(0, step) == 0
  {}

  lemma RowPlace(i: nat, step: nat, width: nat)
    requires step == 2 * width
    ensures Times(i, step) / 2 == i * width
    ensures Times(i + 1, step) == Times(i, step) + step
  {
    assert i * step == 2 * (i * width);
  }

  lemma RowHasRoom(length: nat, i: nat, rows: nat, width: nat)
    requires i < rows && HasRoom(length, width, rows)
    ensures i * width + Groups(width) <= length
  {
    hide Groups;
    AtMost(i, rows - 1, width);
  }

  /** With the coefficients of a format a frame keeps its green samples, divided by
      eight and rounded, and nothing else. */
  lemma OnlyGreenIsKept(format: Format, s: Sample, row: nat, column: nat, coef: Sample)
    requires coef == if ColourAt(format, row, column) == Green then 32 else 0
    ensures Converted(s, coef) == if ColourAt(format, row, column) == Green then (s + 4) / 8 else 0
  {}

  // ----- The vector loops, on registers -----

  /** Four samples, or four products. */
  type Half = s: seq<Sample> | |s| == 4 witness [0, 0, 0, 0]
  type Wide = s: seq<Word> | |s| == 4 witness [0, 0, 0, 0]

  /** The register r of a load that takes sixteen samples apart by four. */
  function Deinterleave(block: seq<Sample>, r: nat): Half
    requires |block| == 16 && r < 4
  {
    [block[r], block[4 + r], block[8 + r], block[12 + r]]
  }

  /** The store that puts four registers together again. */
  function Interleave(d0: Half, d1: Half, d2: Half, d3: Half): (block: seq<Sample>)
    ensures |block| == 16
  {
    [d0[0], d1[0], d2[0], d3[0], d0[1], d1[1], d2[1], d3[1], d0[2], d1[2], d2[2], d3[2], d0[3], d1[3], d2[3], d3[3]]
  }

  /** The widening multiplication by a lane. */
  function Widened(d: Half, c: Sample): Wide {
    [Product(d[0], c), Product(d[1], c), Product(d[2], c), Product(d[3], c)]
  }

  /** The saturating rounding narrowing shift by eight, of an element to half its size:
      `top` is the biggest result. */
  function NarrowedTo(x: nat, top: nat): nat {
    var rounded := (x + 128) / 256;
    if rounded > top then top else rounded
  }

  /** On 32-bit elements, as in the ARMv8 loop. */
  function NarrowedWords(q: Wide): Half {
    [NarrowedTo(q[0], 0xffff), NarrowedTo(q[1], 0xffff), NarrowedTo(q[2], 0xffff), NarrowedTo(q[3], 0xffff)]
  }

  /** On 16-bit elements, as in the ARMv7 loop, whose instruction names that operand
      size: both halves of each product are narrowed to eight bits. */
  function NarrowedHalves(product: Word): Sample {
    NarrowedTo(product % 0x1_0000, 0xff) + 0x100 * NarrowedTo(product / 0x1_0000, 0xff)
  }

  function NarrowedHalfwords(q: Wide): Half {
    [NarrowedHalves(q[0]), NarrowedHalves(q[1]), NarrowedHalves(q[2]), NarrowedHalves(q[3])]
  }

  /** What the vector loops do to sixteen samples; `words` tells which narrowing. */
  function BlockOf(block: seq<Sample>, c0: Sample, c1: Sample, words: bool): (result: seq<Sample>)
    requires |block| == 16
    ensures |result| == 16
  {
    var q0, q1 := Widened(Deinterleave(block, 0), c0), Widened(Deinterleave(block, 1), c1);
    var q2, q3 := Widened(Deinterleave(block, 2), c0), Widened(Deinterleave(block, 3), c1);
    if words then Interleave(NarrowedWords(q0), NarrowedWords(q1), NarrowedWords(q2), NarrowedWords(q3))
    else Interleave(NarrowedHalfwords(q0), NarrowedHalfwords(q1), NarrowedHalfwords(q2), NarrowedHalfwords(q3))
  }

  /** One sample of the ARMv7 loop. */
  function Halved(s: Sample, c: Sample): Sample {
    NarrowedHalves(Product(s, c))
  }

  lemma BlockAt(block: seq<Sample>, c0: Sample, c1: Sample, k: nat)
    requires |block| == 16 && k < 16
    ensures BlockOf(block, c0, c1, true)[k] == NarrowedTo(Product(block[k], Coef(k, c0, c1)), 0xffff)
    ensures BlockOf(block, c0, c1, false)[k] == Halved(block[k], Coef(k, c0, c1))
  {
    hide Product, NarrowedTo, NarrowedHalves;
  }

  lemma WordsAreExact(s: Sample, c: Sample)
    ensures NarrowedTo(Product(s, c), 0xffff) == Converted(s, c)
  {}

  /** The products that both narrowings agree on: small ones, and some that saturate in
      all parts. */
  predicate Agreeable(p: Word) {
    p < 0xff80 || (p / 0x1_0000 >= 0xfe80 && p % 0x1_0000 >= 0xfe80)
  }

  lemma HalvesOfProduct(p: Word)
    ensures NarrowedHalves(p) == NarrowedTo(p, 0xffff) <==> Agreeable(p)
  {
    var high, low := p / 0x1_0000, p % 0x1_0000;
    assert (p + 128) / 256 == high * 256 + (low + 128) / 256;
  }

  /** The ARMv7 loop computes the right sample if and only if the product is one of
      them. */
  lemma HalvesAreExact(s: Sample, c: Sample)
    ensures Halved(s, c) == Converted(s, c) <==> Agreeable(Product(s, c))
  {
    hide NarrowedHalves, NarrowedTo, Agreeable, Converted;
    WordsAreExact(s, c);
    HalvesOfProduct(Product(s, c));
  }

  /** For the green samples of a frame that is: below 2044, of 65535. */
  lemma HalvesOfGreen(s: Sample)
    ensures Halved(s, 32) == Converted(s, 32) <==> s < 2044
    ensures Halved(s, 0) == Converted(s, 0) == 0
  {
    hide NarrowedHalves, NarrowedTo, Halved, Converted;
    HalvesAreExact(s, 32);
    HalvesAreExact(s, 0);
    NothingConverted(s);
  }

  lemma NothingConverted(s: Sample)
    ensures Converted(s, 0) == 0
  {}

  /** Each vector loop takes sixteen samples a turn until the low 32 bits of the size
      are zero. */
  method VectorLine(
    src: array<Sample>, from: nat, dst: array<Sample>, to: nat, size: Word, c0: Sample, c1: Sample, words: bool)
    requires src != dst && size > 0 && size % 32 == 0
    requires from + size / 2 <= src.Length && to + size / 2 <= dst.Length
    modifies dst
    ensures BlocksDone(src[..], from, old(dst[..]), dst[..], to, size / 2, c0, c1, words)
  {
    hide BlocksDone, BlockOf;
    var left: int := size;
    var done := 0;
    ghost var turns := size / 32;
    NoBlocks(src[..], from, dst[..], to, c0, c1, words);
    while true
      invariant 0 < left == 32 * turns && left + 2 * done == size
      invariant BlocksDone(src[..], from, old(dst[..]), dst[..], to, done, c0, c1, words)
      decreases left
    {
      left, turns := left - 32, turns - 1;
      var block := BlockOf(src[from + done..from + done + 16], c0, c1, words);
      OneBlockMore(src[..], from, old(dst[..]), dst[..], to, done, c0, c1, words);
      Store(dst, to + done, block);
      done := done + 16;
      if left == 0 {
        break;
      }
    }
  }

  method Store(dst: array<Sample>, at: nat, block: seq<Sample>)
    requires |block| == 16 && at + 16 <= dst.Length
    modifies dst
    ensures dst[..] == old(dst[..at]) + block + old(dst[at + 16..])
  {
    for j := 0 to 16
      invariant forall k | 0 <= k < j :: dst[at + k] == block[k]
      invariant forall k | 0 <= k < dst.Length && !(at <= k < at + j) :: dst[k] == old(dst[k])
    {
      dst[at + j] := block[j];
    }
  }

  /** The sample that a vector loop makes. */
  function VectorSample(s: Sample, c: Sample, words: bool): Sample {
    if words then NarrowedTo(Product(s, c), 0xffff) else Halved(s, c)
  }

  ghost predicate BlocksDone(
    src: seq<Sample>, from: nat, was: seq<Sample>, now: seq<Sample>, to: nat, n: nat, c0: Sample, c1: Sample, words: bool)
  {
    && |now| == |was| && from + n <= |src| && to + n <= |now|
    && forall k | 0 <= k < |now| ::
         now[k] == if to <= k < to + n then VectorSample(src[from + k - to], Coef(k - to, c0, c1), words) else was[k]
  }

  lemma NoBlocks(src: seq<Sample>, from: nat, was: seq<Sample>, to: nat, c0: Sample, c1: Sample, words: bool)
    requires from <= |src| && to <= |was|
    ensures BlocksDone(src, from, was, was, to, 0, c0, c1, words)
  {}

  lemma OneBlockMore(
    src: seq<Sample>, from: nat, was: seq<Sample>, now: seq<Sample>, to: nat, n: nat, c0: Sample, c1: Sample, words: bool)
    requires BlocksDone(src, from, was, now, to, n, c0, c1, words) && n % 16 == 0
    requires from + n + 16 <= |src| && to + n + 16 <= |now|
    ensures var block := BlockOf(src[from + n..from + n + 16], c0, c1, words);
      BlocksDone(src, from, was, now[..to + n] + block + now[to + n + 16..], to, n + 16, c0, c1, words)
  {
    hide BlockOf, VectorSample, Coef;
    var samples := src[from + n..from + n + 16];
    forall k | 0 <= k < 16
      ensures BlockOf(samples, c0, c1, words)[k] == VectorSample(src[from + n + k], Coef(n + k, c0, c1), words)
    {
      BlockSample(samples, c0, c1, k, n, words);
    }
  }

  lemma BlockSample(block: seq<Sample>, c0: Sample, c1: Sample, k: nat, n: nat, words: bool)
    requires |block| == 16 && k < 16 && n % 16 == 0
    ensures BlockOf(block, c0, c1, words)[k] == VectorSample(block[k], Coef(n + k, c0, c1), words)
  {
    hide BlockOf, NarrowedTo, Halved, Product;
    BlockAt(block, c0, c1, k);
  }

  /** The ARMv8 loop and the portable loop write the same samples. */
  lemma VectorEqualsPortable(
    src: seq<Sample>, from: nat, was: seq<Sample>, vector: seq<Sample>, portable: seq<Sample>,
    to: nat, n: nat, c0: Sample, c1: Sample)
    requires BlocksDone(src, from, was, vector, to, n, c0, c1, true)
    requires LineDone(src, from, was, portable, to, n, c0, c1)
    ensures vector == portable
  {
    hide NarrowedTo, Product, Converted, Coef;
    forall k | 0 <= k < |was| ensures vector[k] == portable[k] {
      if to <= k < to + n {
        WordsAreExact(src[from + k - to], Coef(k - to, c0, c1));
      }
    }
  }

  /** The ARMv7 loop does if and only if no product is too big for it. */
  lemma HalvesEqualPortable(
    src: seq<Sample>, from: nat, was: seq<Sample>, vector: seq<Sample>, portable: seq<Sample>,
    to: nat, n: nat, c0: Sample, c1: Sample)
    requires BlocksDone(src, from, was, vector, to, n, c0, c1, false)
    requires LineDone(src, from, was, portable, to, n, c0, c1)
    ensures vector == portable <==>
      forall k | 0 <= k < n :: Agreeable(Product(src[from + k], Coef(k, c0, c1)))
  {
    hide Halved, Product, Converted, Coef, Agreeable;
    forall k | 0 <= k < n
      ensures vector[to + k] == portable[to + k] <==> Agreeable(Product(src[from + k], Coef(k, c0, c1)))
    {
      HalvesAreExact(src[from + k], Coef(k, c0, c1));
    }
    if forall k | 0 <= k < n :: Agreeable(Product(src[from + k], Coef(k, c0, c1))) {
      forall k | 0 <= k < |was| ensures vector[k] == portable[k] {
        assert to <= k < to + n ==> vector[to + (k - to)] == portable[to + (k - to)];
      }
    }
  }
}
