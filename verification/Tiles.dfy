/** The tile splitter: it cuts frames along a grid of tiles, row by row, into the
    slots of a ring from which the tiles leave one by one. */
module Tiles {
  import opened Arithmetic
  import opened Bytes
  import opened Errno

  const WORD: nat := 0x1_0000_0000

  type Word = x: int | 0 <= x < WORD

  // ----- The grid -----

  /** The sizes of the source and, where not 0, of the tiles; the number of tiles
      wanted, where not 0. */
  datatype Config = Config(width: Word, height: Word, tileWidth: Word, tileHeight: Word, ntiles: int)

  datatype Grid = Grid(
    srcWidth: Word, srcHeight: Word, width: Word, height: Word, nx: Word, ny: Word, xoff: Word, yoff: Word)

  /** Arithmetic on unsigned 32-bit numbers. */
  function Times(a: Word, b: Word): Word {
    a * b % WORD
  }

  function Over(a: Word, b: Word): (q: Word)
    requires b > 0
  {
    Bound(a, b);
    a / b
  }

  lemma Bound(a: nat, b: nat)
    requires b > 0
    ensures a / b <= a
  {
    var q := a / b;
    assert a == q * b + a % b;
    assert q * b == q * (b - 1) + q;
    NotNegative(q, b - 1);
  }

  /** The tiles that fit in a row, and in a column. */
  function Columns(c: Config): Word {
    if c.tileWidth > 0 then Over(c.width, c.tileWidth) else 2
  }

  function Rows(c: Config): Word {
    if c.tileHeight > 0 then Over(c.height, c.tileHeight) else 1
  }

  /** Fewer tiles are wanted than there are, and than there are in a row. */
  predicate FewWanted(c: Config) {
    c.ntiles != 0 && c.ntiles % WORD < Times(Columns(c), Rows(c)) && c.ntiles % WORD < Columns(c)
  }

  /** The margin before n tiles in the middle of an axis. */
  function Margin(size: Word, n: Word, tile: Word): Word {
    if size >= Times(n, tile) then Over(size - Times(n, tile), 2) else 0
  }

  function GridFor(c: Config): Option<Grid> {
    var w: Word := if c.tileWidth > 0 then c.tileWidth else Over(c.width, 2);
    var h: Word := if c.tileHeight > 0 then c.tileHeight else c.height;
    var nx: Word := if FewWanted(c) then c.ntiles % WORD else Columns(c);
    var ny: Word := if FewWanted(c) then 1 else Rows(c);
    if c.width == 0 || c.height == 0 || Times(nx, ny) == 0 then
      None
    else
      Some(Grid(c.width, c.height, w, h, nx, ny, Margin(c.width, nx, w), Margin(c.height, ny, h)))
  }

  method Create(c: Config) returns (grid: Option<Grid>)
    ensures grid == GridFor(c)
  {
    OverOne(c.height);
    hide Times, Over;
    if c.width == 0 || c.height == 0 {
      return None;
    }
    var nx: Word, ny: Word := 2, 1;
    var w, h := Over(c.width, nx), Over(c.height, ny);
    if c.tileWidth > 0 {
      w := c.tileWidth;
      nx := Over(c.width, w);
    }
    if c.tileHeight > 0 {
      h := c.tileHeight;
      ny := Over(c.height, h);
    }
    var wanted: Word := c.ntiles % WORD;
    if c.ntiles != 0 && wanted < Times(nx, ny) && wanted < nx {
      nx := wanted;
      ny := 1;
    }
    var xoff: Word, yoff: Word := 0, 0;
    if c.width >= Times(nx, w) {
      xoff := Over(c.width - Times(nx, w), 2);
    }
    if c.height >= Times(ny, h) {
      yoff := Over(c.height - Times(ny, h), 2);
    }
    if Times(nx, ny) == 0 {
      return None;
    }
    return Some(Grid(c.width, c.height, w, h, nx, ny, xoff, yoff));
  }

  lemma OverOne(a: Word)
    ensures Over(a, 1) == a
  {}

  /** n tiles fit along an axis, and the margins on their two sides differ by at most
      one pixel. */
  predicate Centred(size: Word, n: Word, tile: Word, margin: Word) {
    n > 0 && margin + n * tile <= size && size - n * tile - 2 * margin <= 1
  }

  predicate Fits(g: Grid) {
    && Centred(g.srcWidth, g.nx, g.width, g.xoff)
    && Centred(g.srcHeight, g.ny, g.height, g.yoff)
  }

  lemma AxisFits(size: Word, n: Word, tile: Word)
    requires n > 0 && n * tile <= size
    ensures Centred(size, n, tile, Margin(size, n, tile))
  {
    SmallProduct(n, tile);
  }

  lemma SmallProduct(a: Word, b: Word)
    ensures 0 <= a * b
    ensures a * b < WORD ==> Times(a, b) == a * b
  {}

  /** The whole tiles along an axis, or fewer of them, fit. */
  lemma WholeTilesFit(size: Word, n: Word, tile: Word)
    requires tile > 0 && n <= Over(size, tile)
    ensures n * tile <= size
  {
    assert size / tile * tile <= size;
    assert n * tile <= size / tile * tile;
  }

  lemma HalfTilesFit(size: Word, n: Word)
    requires n <= 2
    ensures n * Over(size, 2) <= size
  {
    assert n * (size / 2) <= 2 * (size / 2);
  }

  /** The grid lies in the middle of the source.  Its tiles have no width if and only
      if the source is one pixel wide and no width is asked for. */
  lemma GridFits(c: Config)
    requires GridFor(c).Some?
    ensures Fits(GridFor(c).value) && GridFor(c).value.height > 0
    ensures GridFor(c).value.width == 0 <==> c.tileWidth == 0 && c.width == 1
  {
    var g := GridFor(c).value;
    TimesZero(g.nx, g.ny);
    assert g.width == 0 <==> c.tileWidth == 0 && c.width == 1;
    hide Times, Over, Margin;
    if c.tileWidth > 0 {
      WholeTilesFit(c.width, g.nx, g.width);
    } else {
      HalfTilesFit(c.width, g.nx);
    }
    if c.tileHeight > 0 {
      AtMostRows(c);
      WholeTilesFit(c.height, g.ny, g.height);
    }
    AxisFits(c.width, g.nx, g.width);
    AxisFits(c.height, g.ny, g.height);
  }

  /** The grid has the columns and rows that fit, unless fewer tiles are wanted than
      there are in a row: then it is one row of them. */
  lemma GridIsFull(c: Config)
    requires GridFor(c).Some? && c.tileWidth > 0 && c.tileHeight > 0
    ensures var g := GridFor(c).value;
      && g.width == c.tileWidth && g.height == c.tileHeight
      && if FewWanted(c) then
           g.ny == 1 && g.nx == c.ntiles % WORD
         else
           (g.nx + 1) * g.width > c.width && (g.ny + 1) * g.height > c.height
  {
    var g := GridFor(c).value;
    hide Times, Margin;
    NoMoreFit(c.width, c.tileWidth);
    NoMoreFit(c.height, c.tileHeight);
  }

  lemma NoMoreFit(size: Word, tile: Word)
    requires tile > 0
    ensures (Over(size, tile) + 1) * tile > size
  {
    var q := size / tile;
    assert size == q * tile + size % tile;
    assert (q + 1) * tile == q * tile + tile;
  }

  lemma AtMostRows(c: Config)
    requires c.tileHeight > 0
    ensures FewWanted(c) ==> 1 <= Over(c.height, c.tileHeight)
  {}

  lemma TimesZero(a: Word, b: Word)
    ensures Times(a, b) > 0 ==> a > 0 && b > 0
  {}

  // ----- Tiles of pixels -----

  /** Coordinate x lies in the k-th of the n tiles along an axis. */
  predicate OnTile(margin: nat, n: nat, tile: nat, k: nat, x: nat) {
    k < n && margin + k * tile <= x < margin + k * tile + tile
  }

  predicate InTile(g: Grid, tx: nat, ty: nat, x: nat, y: nat) {
    OnTile(g.xoff, g.nx, g.width, tx, x) && OnTile(g.yoff, g.ny, g.height, ty, y)
  }

  lemma OneTileAlongAxis(margin: nat, n: nat, tile: nat, x: nat) returns (k: nat)
    requires margin <= x < margin + n * tile
    ensures OnTile(margin, n, tile, k, x)
    ensures forall j: nat :: OnTile(margin, n, tile, j, x) ==> j == k
  {
    k := 0;
    while margin + k * tile + tile <= x
      invariant k < n && margin + k * tile <= x
      decreases n - k
    {
      NextProduct(k, tile);
      k := k + 1;
    }
    forall j: nat | OnTile(margin, n, tile, j, x) ensures j == k {
      Apart(j, k, tile);
      Apart(k, j, tile);
    }
  }

  /** The tiles are disjoint, lie inside the source and cover all of it but margins
      that differ by at most one pixel. */
  lemma EveryPixelInOneTile(g: Grid, x: nat, y: nat) returns (tx: nat, ty: nat)
    requires Fits(g)
    requires g.xoff <= x < g.xoff + g.nx * g.width && g.yoff <= y < g.yoff + g.ny * g.height
    ensures InTile(g, tx, ty, x, y) && x < g.srcWidth && y < g.srcHeight
    ensures forall i: nat, j: nat :: InTile(g, i, j, x, y) ==> i == tx && j == ty
  {
    tx := OneTileAlongAxis(g.xoff, g.nx, g.width, x);
    ty := OneTileAlongAxis(g.yoff, g.ny, g.height, y);
  }

  lemma AxisIsInside(size: Word, n: Word, tile: Word, margin: Word, k: nat, x: nat)
    requires Centred(size, n, tile, margin) && OnTile(margin, n, tile, k, x)
    ensures margin <= x < size
  {
    Apart(k, n, tile);
    NotNegative(k, tile);
  }

  lemma TileIsInside(g: Grid, tx: nat, ty: nat, x: nat, y: nat)
    requires Fits(g) && InTile(g, tx, ty, x, y)
    ensures g.xoff <= x < g.srcWidth && g.yoff <= y < g.srcHeight
  {
    AxisIsInside(g.srcWidth, g.nx, g.width, g.xoff, tx, x);
    AxisIsInside(g.srcHeight, g.ny, g.height, g.yoff, ty, y);
  }

  // ----- Copying a tile -----

  /** Bytes in a row of the source, and in a row of a tile, as the program computes
      them: in 32 bits. */
  function Stride(g: Grid, bpp: Word): Word {
    Times(g.srcWidth, bpp)
  }

  function TileStride(g: Grid, bpp: Word): Word {
    Times(g.width, bpp)
  }

  /** Where the rows of a tile start in the rows of the source, kept in 32 bits. */
  function RowOffset(g: Grid, bpp: Word, tx: nat): (offset: Word)
    requires g.width > 0
  {
    (g.xoff * (TileStride(g, bpp) / g.width) + tx * TileStride(g, bpp)) % WORD
  }

  /** The bytes of n pixels. */
  function Size(n: nat, bpp: Word): nat {
    NotNegative(n, bpp);
    n * bpp
  }

  lemma SizeSum(m: nat, n: nat, bpp: Word)
    ensures Size(m + n, bpp) == Size(m, bpp) + Size(n, bpp)
  {}

  function LeftOf(g: Grid, tx: nat): nat {
    NotNegative(tx, g.width);
    g.xoff + tx * g.width
  }

  lemma TimesWraps(n: Word, bpp: Word)
    ensures Times(n, bpp) == if Size(n, bpp) < WORD then Size(n, bpp) else Size(n, bpp) % WORD
    ensures Size(n, bpp) >= WORD ==> Times(n, bpp) <= Size(n, bpp) - WORD
  {}

  lemma Cancel(a: nat, b: nat)
    requires a > 0
    ensures a * b / a == b
  {
    Quotient(a * b, b, a);
  }

  lemma Quotient(x: nat, q: nat, a: nat)
    requires a > 0 && x == q * a
    ensures x / a == q
  {
    Apart(x / a, q, a);
    Apart(q, x / a, a);
    assert x == x / a * a + x % a;
  }

  /** A stride that did not wrap gives the offset of the tile, cut to 32 bits. */
  lemma OffsetOfNarrow(g: Grid, bpp: Word, tx: nat)
    requires g.width > 0 && Size(g.width, bpp) < WORD
    ensures RowOffset(g, bpp, tx) == Size(LeftOf(g, tx), bpp) % WORD
  {
    hide Times;
    TimesWraps(g.width, bpp);
    Cancel(g.width, bpp);
    assert tx * (g.width * bpp) == tx * g.width * bpp;
    SizeSum(g.xoff, tx * g.width, bpp);
  }

  /** One that did wrap gives a smaller one, unless the tile is at the edge. */
  lemma OffsetOfWide(g: Grid, bpp: Word, tx: nat)
    requires g.width > 0 && Size(g.width, bpp) >= WORD
    ensures RowOffset(g, bpp, tx) == Size(LeftOf(g, tx), bpp) <==> LeftOf(g, tx) == 0
  {
    hide Times, Size;
    var offset, q := RowOffset(g, bpp, tx), TileStride(g, bpp) / g.width;
    TimesWraps(g.width, bpp);
    NotNegative(tx - 1, g.width);
    if tx > 0 {
      WideLeft(g.xoff, tx, g.width, bpp);
    } else if g.xoff > 0 {
      SmallerQuotient(TileStride(g, bpp), g.width, bpp);
      SmallerProduct(g.xoff, q, bpp);
    } else {
      NoBytes(bpp);
    }
  }

  lemma NoBytes(bpp: Word)
    ensures Size(0, bpp) == 0
  {}

  lemma WideLeft(xoff: nat, tx: nat, width: nat, bpp: Word)
    requires tx > 0 && Size(width, bpp) >= WORD
    ensures xoff + tx * width > 0 && Size(xoff + tx * width, bpp) >= WORD
  {
    AtMost(1, tx, width);
    AtMost(width, xoff + tx * width, bpp);
  }

  lemma SmallerQuotient(x: nat, a: nat, b: Word)
    requires a > 0 && x < Size(a, b)
    ensures x / a < b
  {
    var q := x / a;
    assert q * a <= x;
    if q >= b {
      AtMost(b, q, a);
    }
  }

  lemma SmallerProduct(a: nat, m: nat, n: Word)
    requires a > 0 && m < n
    ensures 0 <= a * m < Size(a, n) && a * m % WORD < Size(a, n)
  {
    AtMost(m + 1, n, a);
    NotNegative(a, m);
    ModuloAtMost(a * m);
  }

  lemma ModuloAtMost(x: nat)
    ensures x % WORD <= x
  {}

  /** The offset is that of the tile if and only if neither the tile's row nor what is
      left of it needs more than 32 bits; at the edge it is 0 in any case. */
  lemma OffsetOfTile(g: Grid, bpp: Word, tx: nat)
    requires g.width > 0
    ensures RowOffset(g, bpp, tx) == Size(LeftOf(g, tx), bpp)
            <==> LeftOf(g, tx) == 0 || (Size(g.width, bpp) < WORD && Size(LeftOf(g, tx), bpp) < WORD)
  {
    hide RowOffset;
    if Size(g.width, bpp) < WORD {
      OffsetOfNarrow(g, bpp, tx);
    } else {
      OffsetOfWide(g, bpp, tx);
    }
  }

  /** A frame holds all the bytes of its pixels. */
  predicate IsFrame(g: Grid, bpp: Word, src: seq<Byte>) {
    Fits(g) && g.width > 0 && |src| >= g.srcHeight * Size(g.srcWidth, bpp)
  }

  /** Where row r of a tile starts in the frame. */
  function RowStart(g: Grid, bpp: Word, tx: nat, ty: nat, r: nat): int
    requires g.width > 0
  {
    (g.yoff + ty * g.height + r) * Stride(g, bpp) + RowOffset(g, bpp, tx)
  }

  /** What lies left of a tile, and its row, are part of a row of the source. */
  lemma TileInRow(g: Grid, bpp: Word, tx: nat)
    requires Fits(g) && tx < g.nx
    ensures Size(LeftOf(g, tx), bpp) + Size(g.width, bpp) <= Size(g.srcWidth, bpp)
  {
    Apart(tx, g.nx, g.width);
    SizeSum(LeftOf(g, tx), g.width, bpp);
    AtMost(LeftOf(g, tx) + g.width, g.srcWidth, bpp);
  }

  lemma OffsetInRow(g: Grid, bpp: Word, tx: nat)
    requires Fits(g) && g.width > 0 && tx < g.nx
    ensures RowOffset(g, bpp, tx) + TileStride(g, bpp) <= Size(g.srcWidth, bpp)
    ensures Size(g.srcWidth, bpp) < WORD ==>
              RowOffset(g, bpp, tx) == Size(LeftOf(g, tx), bpp) && TileStride(g, bpp) == Size(g.width, bpp)
  {
    hide Size, RowOffset, LeftOf, Times, Centred;
    TileInRow(g, bpp, tx);
    TimesWraps(g.width, bpp);
    if Size(g.width, bpp) < WORD {
      OffsetOfNarrow(g, bpp, tx);
      ModuloAtMost(Size(LeftOf(g, tx), bpp));
    }
  }

  /** No row of a tile is read outside of the frame, whatever wraps around. */
  lemma RowIsInside(g: Grid, bpp: Word, src: seq<Byte>, tx: nat, ty: nat, r: nat)
    requires IsFrame(g, bpp, src) && tx < g.nx && ty < g.ny && r < g.height
    ensures 0 <= RowStart(g, bpp, tx, ty, r) && RowStart(g, bpp, tx, ty, r) + TileStride(g, bpp) <= |src|
  {
    hide RowOffset, TileStride, Centred, Size, Times;
    OffsetInRow(g, bpp, tx);
    TimesWraps(g.srcWidth, bpp);
    AxisIsInside(g.srcHeight, g.ny, g.height, g.yoff, ty, g.yoff + ty * g.height + r);
    InRows(g.yoff + ty * g.height + r, g.srcHeight, Stride(g, bpp), Size(g.srcWidth, bpp),
           RowOffset(g, bpp, tx), TileStride(g, bpp));
  }

  lemma InRows(y: nat, height: nat, stride: nat, row: nat, offset: nat, len: nat)
    requires y < height && offset + len <= row && stride <= row
    ensures 0 <= y * stride + offset && y * stride + offset + len <= height * row
  {
    Apart(y, height, row);
    NotNegative(y, stride);
    AtMost(stride, row, y);
  }

  function Row(g: Grid, bpp: Word, src: seq<Byte>, tx: nat, ty: nat, r: nat): seq<Byte>
    requires IsFrame(g, bpp, src) && tx < g.nx && ty < g.ny && r < g.height
  {
    RowIsInside(g, bpp, src, tx, ty, r);
    src[RowStart(g, bpp, tx, ty, r)..RowStart(g, bpp, tx, ty, r) + TileStride(g, bpp)]
  }

  /** A tile: its rows, one after the other. */
  function TileOf(g: Grid, bpp: Word, src: seq<Byte>, tx: nat, ty: nat): seq<Byte>
    requires IsFrame(g, bpp, src) && tx < g.nx && ty < g.ny
  {
    Flatten(seq(g.height, r requires 0 <= r < g.height => Row(g, bpp, src, tx, ty, r)))
  }

  /** Where a row of the tile should start. */
  function OwnStart(g: Grid, bpp: Word, tx: nat, ty: nat, r: nat): int {
    (g.yoff + ty * g.height + r) * Size(g.srcWidth, bpp) + Size(LeftOf(g, tx), bpp)
  }

  lemma StrideCondition(y: nat, stride: nat, row: nat, offset: Word, left: nat)
    requires stride == (if row < WORD then row else row % WORD)
    requires row < WORD ==> offset == left
    ensures y > 0 ==> (y * stride + offset == y * row + left <==> row < WORD)
    ensures y == 0 ==> (y * stride + offset == y * row + left <==> offset == left)
  {
    if y > 0 && row >= WORD {
      AtMost(stride, row - WORD, y);
      AtMost(1, y, WORD);
      assert y * (row - WORD) == y * row - y * WORD;
    }
  }

  /** Behind the first row of the source, rows are copied from their own place if and
      only if a row of the source is shorter than 2^32 bytes; in the first row it
      depends on the offset of the tile alone. */
  lemma RowIsOwn(g: Grid, bpp: Word, tx: nat, ty: nat, r: nat)
    requires Fits(g) && g.width > 0 && tx < g.nx
    ensures RowStart(g, bpp, tx, ty, r) == OwnStart(g, bpp, tx, ty, r)
            <==> if g.yoff + ty * g.height + r > 0 then Size(g.srcWidth, bpp) < WORD
                 else LeftOf(g, tx) == 0 || (Size(g.width, bpp) < WORD && Size(LeftOf(g, tx), bpp) < WORD)
  {
    hide Size, RowOffset, LeftOf, Times, Centred;
    NotNegative(ty, g.height);
    OffsetInRow(g, bpp, tx);
    OffsetOfTile(g, bpp, tx);
    TimesWraps(g.srcWidth, bpp);
    StrideCondition(g.yoff + ty * g.height + r, Stride(g, bpp), Size(g.srcWidth, bpp), RowOffset(g, bpp, tx),
                    Size(LeftOf(g, tx), bpp));
  }

  /** Byte b of pixel (dx, dy) of a tile.  As far as the row of the tile reaches, it is
      the byte that far behind the start of the row; that is the byte of the pixel
      itself exactly where the row starts in its own place.  With source rows shorter
      than 2^32 bytes, the row has all bytes of its pixels and they are their own. */
  lemma PixelOfTile(g: Grid, bpp: Word, src: seq<Byte>, tx: nat, ty: nat, dx: nat, dy: nat, b: nat)
    requires IsFrame(g, bpp, src) && tx < g.nx && ty < g.ny && dx < g.width && dy < g.height && b < bpp
    ensures var row, at := Row(g, bpp, src, tx, ty, dy), Size(dx, bpp) + b;
            var x, y := LeftOf(g, tx) + dx, g.yoff + ty * g.height + dy;
            var place, own := RowStart(g, bpp, tx, ty, dy) + at, y * Size(g.srcWidth, bpp) + Size(x, bpp) + b;
      && (at < |row| ==> 0 <= place < |src| && row[at] == src[place])
      && (place == own <==>
            if y > 0 then Size(g.srcWidth, bpp) < WORD
            else LeftOf(g, tx) == 0 || (Size(g.width, bpp) < WORD && Size(LeftOf(g, tx), bpp) < WORD))
      && (Size(g.srcWidth, bpp) < WORD ==> at < |row| && 0 <= own < |src| && row[at] == src[own])
  {
    hide TileStride, RowStart, RowOffset, Size, LeftOf, Fits;
    RowIsInside(g, bpp, src, tx, ty, dy);
    RowIsOwn(g, bpp, tx, ty, dy);
    SizeSum(LeftOf(g, tx), dx, bpp);
    PixelInRow(dx, g.width, bpp, b);
    OffsetInRow(g, bpp, tx);
    TileInRow(g, bpp, tx);
  }

  lemma PixelInRow(dx: nat, width: nat, bpp: Word, b: nat)
    requires dx < width && b < bpp
    ensures Size(dx, bpp) + b < Size(width, bpp)
  {
    Apart(dx, width, bpp);
  }

  // ----- The bytes of a tile -----

  predicate AllOfLength<T>(rows: seq<seq<T>>, w: nat) {
    forall i | 0 <= i < |rows| :: |rows[i]| == w
  }

  lemma RestOfLength<T>(rows: seq<seq<T>>, w: nat)
    requires AllOfLength(rows, w) && rows != []
    ensures |rows[0]| == w && AllOfLength(rows[1..], w)
  {
    var rest := rows[1..];
    forall i | 0 <= i < |rest| ensures |rest[i]| == w { assert rest[i] == rows[i + 1]; }
  }

  lemma {:induction false} FlattenLength<T>(rows: seq<seq<T>>, w: nat)
    requires AllOfLength(rows, w)
    ensures |Flatten(rows)| == |rows| * w
  {
    hide AllOfLength;
    if rows != [] {
      RestOfLength(rows, w);
      FlattenLength(rows[1..], w);
      NextProduct(|rows| - 1, w);
    }
  }

  /** Rows of one length, one after the other. */
  lemma {:induction false} FlattenAt<T>(rows: seq<seq<T>>, w: nat, r: nat, k: nat)
    requires AllOfLength(rows, w) && r < |rows| && k < w
    ensures |rows[r]| == w && 0 <= r * w && r * w + k < |Flatten(rows)| && Flatten(rows)[r * w + k] == rows[r][k]
    decreases r
  {
    hide AllOfLength;
    RestOfLength(rows, w);
    if r > 0 {
      FlattenAt(rows[1..], w, r - 1, k);
      NextProduct(r - 1, w);
      var at := (r - 1) * w + k;
      assert Flatten(rows)[w + at] == Flatten(rows[1..])[at];
    }
  }

  lemma RowShape(g: Grid, bpp: Word, src: seq<Byte>, tx: nat, ty: nat, r: nat)
    requires IsFrame(g, bpp, src) && tx < g.nx && ty < g.ny && r < g.height
    ensures var row, start := Row(g, bpp, src, tx, ty, r), RowStart(g, bpp, tx, ty, r);
      && |row| == TileStride(g, bpp) && 0 <= start && start + |row| <= |src|
      && forall k | 0 <= k < |row| :: row[k] == src[start + k]
  {
    hide RowStart, TileStride, IsFrame;
    RowIsInside(g, bpp, src, tx, ty, r);
  }

  lemma TileLength(g: Grid, bpp: Word, src: seq<Byte>, tx: nat, ty: nat)
    requires IsFrame(g, bpp, src) && tx < g.nx && ty < g.ny
    ensures |TileOf(g, bpp, src, tx, ty)| == g.height * TileStride(g, bpp)
  {
    hide RowStart, TileStride, IsFrame, Row, AllOfLength, Flatten;
    var rows := seq(g.height, i requires 0 <= i < g.height => Row(g, bpp, src, tx, ty, i));
    AllRows(g, bpp, src, tx, ty, rows);
    FlattenLength(rows, TileStride(g, bpp));
  }

  /** A tile has the bytes of its rows, each from the start of its row in the source. */
  lemma TileAt(g: Grid, bpp: Word, src: seq<Byte>, tx: nat, ty: nat, r: nat, k: nat, w: nat, start: int)
    requires IsFrame(g, bpp, src) && tx < g.nx && ty < g.ny && r < g.height && k < w
    requires w == TileStride(g, bpp) && start == RowStart(g, bpp, tx, ty, r)
    ensures 0 <= r * w && r * w + k < |TileOf(g, bpp, src, tx, ty)| && 0 <= start && start + k < |src|
    ensures TileOf(g, bpp, src, tx, ty)[r * w + k] == src[start + k]
  {
    hide RowStart, TileStride, IsFrame, Row, AllOfLength, Flatten;
    var rows := seq(g.height, i requires 0 <= i < g.height => Row(g, bpp, src, tx, ty, i));
    AllRows(g, bpp, src, tx, ty, rows);
    RowShape(g, bpp, src, tx, ty, r);
    FlattenAt(rows, w, r, k);
  }

  lemma AllRows(g: Grid, bpp: Word, src: seq<Byte>, tx: nat, ty: nat, rows: seq<seq<Byte>>)
    requires IsFrame(g, bpp, src) && tx < g.nx && ty < g.ny
    requires |rows| == g.height && forall i | 0 <= i < g.height :: rows[i] == Row(g, bpp, src, tx, ty, i)
    ensures AllOfLength(rows, TileStride(g, bpp))
  {
    hide RowStart, TileStride, IsFrame, Row;
    forall i | 0 <= i < |rows| ensures |rows[i]| == TileStride(g, bpp) {
      RowShape(g, bpp, src, tx, ty, i);
    }
  }

  lemma SizeOfRows(y: nat, width: nat, x: nat, bpp: Word)
    ensures 0 <= y * width && Size(y * width + x, bpp) == y * Size(width, bpp) + Size(x, bpp)
  {
    NotNegative(y, width);
    Regroup(y, width, bpp);
    SizeSum(y * width, x, bpp);
  }

  lemma Regroup(y: nat, width: nat, bpp: nat)
    ensures (y * width) * bpp == y * (width * bpp)
  {}

  /** With source rows shorter than 2^32 bytes a tile has all bytes of its pixels: byte b
      of the pixel (dx, dy), which is pixel dy * width + dx of the tile, is byte b of the
      pixel (x, y) of the source, which is its pixel y * srcWidth + x. */
  lemma PixelsOfTile(g: Grid, bpp: Word, src: seq<Byte>, tx: nat, ty: nat, dx: nat, dy: nat, b: nat)
    requires IsFrame(g, bpp, src) && tx < g.nx && ty < g.ny && dx < g.width && dy < g.height && b < bpp
    requires Size(g.srcWidth, bpp) < WORD
    ensures var tile, x, y := TileOf(g, bpp, src, tx, ty), g.xoff + tx * g.width + dx, g.yoff + ty * g.height + dy;
      && 0 <= dy * g.width && 0 <= x && 0 <= y && 0 <= y * g.srcWidth
      && |tile| == g.height * Size(g.width, bpp)
      && Size(dy * g.width + dx, bpp) + b < |tile| && Size(y * g.srcWidth + x, bpp) + b < |src|
      && tile[Size(dy * g.width + dx, bpp) + b] == src[Size(y * g.srcWidth + x, bpp) + b]
  {
    hide TileOf, IsFrame, RowOffset, Size, TileStride;
    NotNegative(tx, g.width);
    NotNegative(ty, g.height);
    var x, y := g.xoff + tx * g.width + dx, g.yoff + ty * g.height + dy;
    TileStrideIsSize(g, bpp, src, tx);
    PixelInRow(dx, g.width, bpp, b);
    StartIsOwn(g, bpp, src, tx, ty, dy);
    TileLength(g, bpp, src, tx, ty);
    TileAt(g, bpp, src, tx, ty, dy, Size(dx, bpp) + b, Size(g.width, bpp), OwnStart(g, bpp, tx, ty, dy));
    SizeOfRows(dy, g.width, dx, bpp);
    SizeOfRows(y, g.srcWidth, x, bpp);
    SizeSum(LeftOf(g, tx), dx, bpp);
  }

  lemma TileStrideIsSize(g: Grid, bpp: Word, src: seq<Byte>, tx: nat)
    requires IsFrame(g, bpp, src) && tx < g.nx && Size(g.srcWidth, bpp) < WORD && g.width > 0
    ensures TileStride(g, bpp) == Size(g.width, bpp)
  {
    hide Size, TileStride, RowOffset, LeftOf, Fits;
    OffsetInRow(g, bpp, tx);
  }

  lemma StartIsOwn(g: Grid, bpp: Word, src: seq<Byte>, tx: nat, ty: nat, r: nat)
    requires IsFrame(g, bpp, src) && tx < g.nx && ty < g.ny && Size(g.srcWidth, bpp) < WORD && g.width > 0
    ensures RowStart(g, bpp, tx, ty, r) == OwnStart(g, bpp, tx, ty, r)
  {
    hide Size, RowOffset, LeftOf, Fits, RowStart;
    RowIsOwn(g, bpp, tx, ty, r);
    OffsetInRow(g, bpp, tx);
    NarrowOffset(g, bpp, tx);
  }

  lemma NarrowOffset(g: Grid, bpp: Word, tx: nat)
    requires Fits(g) && tx < g.nx && Size(g.srcWidth, bpp) < WORD
    ensures Size(g.width, bpp) < WORD && Size(LeftOf(g, tx), bpp) < WORD
  {
    hide Size;
    TileInRow(g, bpp, tx);
  }

  lemma WideGrid()
    ensures GridFor(Config(0x8000_0000, 2, 0, 0, 0)) == Some(Grid(0x8000_0000, 2, 0x4000_0000, 2, 2, 1, 0, 0))
  {
    var half: Word := 0x4000_0000;
    assert Over(0x8000_0000, 2) == half;
    assert Times(2, half) == 0x8000_0000 && Times(1, 2) == 2 && Times(2, 1) == 2;
    hide Times, Over;
    assert Over(0, 2) == 0 by { OverTwo(); }
  }

  lemma OverTwo()
    ensures Over(0, 2) == 0
  {}

  lemma WideStrides()
    ensures Times(0x8000_0000, 2) == 0
  {}

  /** A source of two rows of 2^32 bytes is accepted, and its second row is copied from
      the first. */
  lemma WideSource()
    ensures var grid := GridFor(Config(0x8000_0000, 2, 0, 0, 0));
      && grid.Some? && grid.value.height == 2
      && RowStart(grid.value, 2, 0, 0, 1) == RowStart(grid.value, 2, 0, 0, 0) == 0
  {
    hide GridFor, Times;
    WideGrid();
    WideStrides();
  }

  // ----- All tiles of a frame, in order -----

  function RowOfTiles(g: Grid, bpp: Word, src: seq<Byte>, ty: nat): (tiles: seq<seq<Byte>>)
    requires IsFrame(g, bpp, src) && ty < g.ny
    ensures |tiles| == g.nx
  {
    seq(g.nx, tx requires 0 <= tx < g.nx => TileOf(g, bpp, src, tx, ty))
  }

  /** The tiles of the first n rows, row by row. */
  function TilesOf(g: Grid, bpp: Word, src: seq<Byte>, n: nat): (tiles: seq<seq<Byte>>)
    requires IsFrame(g, bpp, src) && n <= g.ny
    ensures |tiles| == n * g.nx
  {
    if n == 0 then []
    else
      NextProduct(n - 1, g.nx);
      TilesOf(g, bpp, src, n - 1) + RowOfTiles(g, bpp, src, n - 1)
  }

  lemma NoTiles(g: Grid, bpp: Word, src: seq<Byte>)
    requires IsFrame(g, bpp, src)
    ensures TilesOf(g, bpp, src, 0) == []
  {}

  lemma TilesSoFar(g: Grid, bpp: Word, src: seq<Byte>, ty: nat)
    requires IsFrame(g, bpp, src) && ty < g.ny
    ensures TilesOf(g, bpp, src, ty + 1) == TilesOf(g, bpp, src, ty) + RowOfTiles(g, bpp, src, ty)
    ensures forall tx | 0 <= tx < g.nx ::
      RowOfTiles(g, bpp, src, ty)[..tx + 1] == RowOfTiles(g, bpp, src, ty)[..tx] + [TileOf(g, bpp, src, tx, ty)]
  {
    hide TileOf;
  }

  lemma {:induction false} FirstTiles(g: Grid, bpp: Word, src: seq<Byte>, ty: nat, n: nat, tx: nat)
    requires IsFrame(g, bpp, src) && ty < n <= g.ny && tx <= g.nx
    ensures TilesOf(g, bpp, src, ty) + RowOfTiles(g, bpp, src, ty)[..tx] <= TilesOf(g, bpp, src, n)
  {
    if ty < n - 1 {
      FirstTiles(g, bpp, src, ty, n - 1, tx);
    }
  }

  /** Tile ty * nx + tx of a frame is the tile (tx, ty). */
  lemma TilesAreInOrder(g: Grid, bpp: Word, src: seq<Byte>, tx: nat, ty: nat)
    requires IsFrame(g, bpp, src) && tx < g.nx && ty < g.ny
    ensures 0 <= ty * g.nx + tx < |TilesOf(g, bpp, src, g.ny)|
    ensures TilesOf(g, bpp, src, g.ny)[ty * g.nx + tx] == TileOf(g, bpp, src, tx, ty)
  {
    hide TileOf, TilesOf, IsFrame;
    NotNegative(ty, g.nx);
    Apart(ty, g.ny, g.nx);
    FirstTiles(g, bpp, src, ty, g.ny, tx + 1);
    var first := TilesOf(g, bpp, src, ty) + RowOfTiles(g, bpp, src, ty)[..tx + 1];
    assert first[ty * g.nx + tx] == RowOfTiles(g, bpp, src, ty)[tx];
  }

  // ----- The ring of slots -----

  datatype SlotState = Dequeued | Ready

  datatype Slot = Slot(bytes: seq<Byte>, state: SlotState)

  /** The d-th slot from slot r on, in a ring of n. */
  function From(r: nat, d: nat, n: nat): nat {
    if r + d < n then r + d else r + d - n
  }

  /** The ready slots are those from `readid` on, as many as there are tiles in the
      queue, and hold these tiles; the next tile goes behind them. */
  ghost predicate Holds(slots: seq<Slot>, readid: nat, writeid: nat, queue: seq<seq<Byte>>) {
    var n := |slots|;
    && |queue| <= n
    && (n > 0 ==> readid < n && writeid == From(readid, if |queue| == n then 0 else |queue|, n))
    && forall d | 0 <= d < n :: SlotHolds(slots, readid, queue, d)
  }

  ghost predicate SlotHolds(slots: seq<Slot>, readid: nat, queue: seq<seq<Byte>>, d: nat) {
    readid < |slots| && d < |slots| ==>
      if d < |queue| then slots[From(readid, d, |slots|)] == Slot(queue[d], Ready)
      else slots[From(readid, d, |slots|)].state == Dequeued
  }

  lemma StoreKeeps(slots: seq<Slot>, readid: nat, writeid: nat, queue: seq<seq<Byte>>, tile: seq<Byte>)
    requires Holds(slots, readid, writeid, queue) && |slots| > 0
    ensures writeid < |slots| && (slots[writeid].state == Ready <==> |queue| == |slots|)
    ensures |queue| < |slots| ==>
      Holds(slots[writeid := Slot(tile, Ready)], readid, After(writeid, |slots|), queue + [tile])
  {
    var n := |slots|;
    assert SlotHolds(slots, readid, queue, if |queue| == n then 0 else |queue|);
    if |queue| < n {
      var after := slots[writeid := Slot(tile, Ready)];
      forall d | 0 <= d < n ensures SlotHolds(after, readid, queue + [tile], d) {
        assert SlotHolds(slots, readid, queue, d);
      }
    }
  }

  lemma TakeKeeps(slots: seq<Slot>, readid: nat, writeid: nat, queue: seq<seq<Byte>>)
    requires Holds(slots, readid, writeid, queue) && |queue| > 0
    ensures readid < |slots| && slots[readid].bytes == queue[0]
    ensures Holds(slots[readid := slots[readid].(state := Dequeued)], After(readid, |slots|), writeid, queue[1..])
  {
    var n := |slots|;
    assert SlotHolds(slots, readid, queue, 0);
    var after := slots[readid := slots[readid].(state := Dequeued)];
    forall d | 0 <= d < n ensures SlotHolds(after, After(readid, n), queue[1..], d) {
      if d + 1 < n {
        assert SlotHolds(slots, readid, queue, d + 1);
      }
    }
  }

  class Splitter {
    const grid: Grid
    const bpp: Word
    const slots: array<Slot>
    var writeid: nat
    var readid: nat
    var pending: nat
    /** The tiles that wait in the ring, and all those that were stored and taken. */
    ghost var queue: seq<seq<Byte>>
    ghost var stored: seq<seq<Byte>>
    ghost var taken: seq<seq<Byte>>

    ghost predicate Valid()
      reads this, slots
    {
      pending == |queue| && Holds(slots[..], readid, writeid, queue) && stored == taken + queue
    }

    constructor (grid: Grid, bpp: Word, n: nat)
      ensures Valid() && this.grid == grid && this.bpp == bpp && slots.Length == n
      ensures fresh(slots) && queue == stored == taken == []
    {
      this.grid, this.bpp := grid, bpp;
      slots := new Slot[n](_ => Slot([], Dequeued));
      writeid, readid, pending := 0, 0, 0;
      queue, stored, taken := [], [], [];
    }

    /** The tile (tx, ty) of a frame, row by row. */
    method CopyTile(src: seq<Byte>, tx: nat, ty: nat) returns (d: seq<Byte>)
      requires IsFrame(grid, bpp, src) && tx < grid.nx && ty < grid.ny
      ensures d == TileOf(grid, bpp, src, tx, ty)
    {
      var xoffset0 := RowOffset(grid, bpp, tx);
      var y0 := grid.yoff + ty * grid.height;
      NotNegative(ty, grid.height);
      d := [];
      ghost var rows := seq(grid.height, r requires 0 <= r < grid.height => Row(grid, bpp, src, tx, ty, r));
      for row := 0 to grid.height
        invariant d == Flatten(rows[..row])
      {
        RowIsInside(grid, bpp, src, tx, ty, row);
        var s := (y0 + row) * Stride(grid, bpp) + xoffset0;
        d := d + src[s..s + TileStride(grid, bpp)];
        FlattenConcat(rows[..row], [rows[row]]);
        assert Flatten([rows[row]]) == rows[row];
        assert rows[..row + 1] == rows[..row] + [rows[row]];
      }
      assert rows[..grid.height] == rows;
    }

    /** Store a tile in the next slot, which is free. */
    method Store(tile: seq<Byte>)
      requires Valid() && |queue| < slots.Length
      modifies `writeid, `pending, `queue, `stored, slots
      ensures Valid() && queue == old(queue) + [tile] && stored == old(stored) + [tile]
    {
      hide Holds;
      StoreKeeps(slots[..], readid, writeid, queue, tile);
      slots[writeid] := Slot(tile, Ready);
      NextInRing(writeid, slots.Length);
      writeid := (writeid + 1) % slots.Length;
      pending := pending + 1;
      if pending > slots.Length {
        assert false; // the overrun clamp is never reached
      }
      queue, stored := queue + [tile], stored + [tile];
    }

    /** A frame: its tiles are stored in order until there is no room. */
    method QueueFrame(src: seq<Byte>) returns (errno: nat)
      requires Valid() && IsFrame(grid, bpp, src)
      modifies `writeid, `pending, `queue, `stored, slots
      ensures Valid()
      ensures slots.Length == 0 ==> errno == 0 && stored == old(stored)
      ensures slots.Length > 0 ==>
        var tiles := TilesOf(grid, bpp, src, grid.ny);
        var room := slots.Length - |old(queue)|;
        && 0 <= room
        && errno == (if |tiles| <= room then 0 else EAGAIN)
        && stored == old(stored) + if |tiles| <= room then tiles else tiles[..room]
    {
      hide Holds, TileOf, TilesOf, RowOfTiles, IsFrame, EAGAIN;
      PendingFits(slots[..], readid, writeid, queue);
      if slots.Length == 0 {
        return 0;
      }
      ghost var tiles := TilesOf(grid, bpp, src, grid.ny);
      NoTiles(grid, bpp, src);
      for ty := 0 to grid.ny
        invariant Valid() && |queue| <= slots.Length && taken == old(taken)
        invariant stored == old(stored) + TilesOf(grid, bpp, src, ty)
      {
        TilesSoFar(grid, bpp, src, ty);
        for tx := 0 to grid.nx
          invariant Valid() && |queue| <= slots.Length && taken == old(taken)
          invariant stored == old(stored) + TilesOf(grid, bpp, src, ty) + RowOfTiles(grid, bpp, src, ty)[..tx]
        {
          FirstTiles(grid, bpp, src, ty, grid.ny, tx + 1);
          StoreKeeps(slots[..], readid, writeid, queue, []);
          if slots[writeid].state == Ready {
            return EAGAIN;
          }
          var tile := CopyTile(src, tx, ty);
          Store(tile);
        }
      }
      return 0;
    }

    /** The tile that waits longest, and its slot. */
    method Dequeue() returns (slot: Option<nat>, bytes: seq<Byte>)
      requires Valid()
      modifies `readid, `pending, `queue, `taken, slots
      ensures Valid()
      ensures old(queue) == [] ==> slot.None? && queue == [] && taken == old(taken)
      ensures old(queue) != [] ==>
        slot == Some(old(readid)) && old(queue) == [bytes] + queue && taken == old(taken) + [bytes]
    {
      hide Holds;
      if pending == 0 {
        return None, [];
      }
      TakeKeeps(slots[..], readid, writeid, queue);
      slot, bytes := Some(readid), slots[readid].bytes;
      slots[readid] := slots[readid].(state := Dequeued);
      NextInRing(readid, slots.Length);
      readid := (readid + 1) % slots.Length;
      pending := pending - 1;
      queue, taken := queue[1..], taken + [bytes];
    }
  }

  lemma PendingFits(slots: seq<Slot>, readid: nat, writeid: nat, queue: seq<seq<Byte>>)
    ensures Holds(slots, readid, writeid, queue) ==> |queue| <= |slots|
  {}

  function ReadySet(slots: seq<Slot>): set<nat> {
    set i | 0 <= i < |slots| && slots[i].state == Ready
  }

  /** As many slots are ready as tiles wait. */
  lemma ReadySlots(slots: seq<Slot>, readid: nat, writeid: nat, queue: seq<seq<Byte>>)
    requires Holds(slots, readid, writeid, queue)
    ensures |ReadySet(slots)| == |queue|
  {
    var n := |slots|;
    if n > 0 {
      Distinct(readid, |queue|, n);
      forall i | 0 <= i < n
        ensures slots[i].state == Ready <==> i in Behind(readid, |queue|, n)
      {
        var d := if readid <= i then i - readid else i - readid + n;
        assert From(readid, d, n) == i && SlotHolds(slots, readid, queue, d);
        BehindIff(readid, |queue|, n, d);
      }
      BehindInRing(readid, |queue|, n);
      assert ReadySet(slots) == Behind(readid, |queue|, n);
    } else {
      assert ReadySet(slots) == {};
    }
  }

  /** The first m slots from slot r on. */
  function Behind(r: nat, m: nat, n: nat): set<nat> {
    if m == 0 then {} else Behind(r, m - 1, n) + {From(r, m - 1, n)}
  }

  lemma {:induction false} BehindIff(r: nat, m: nat, n: nat, d: nat)
    requires r < n && m <= n && d < n
    ensures From(r, d, n) in Behind(r, m, n) <==> d < m
  {
    if m > 0 { BehindIff(r, m - 1, n, d); }
  }

  lemma {:induction false} BehindInRing(r: nat, m: nat, n: nat)
    requires r < n && m <= n
    ensures forall i <- Behind(r, m, n) :: i < n
  {
    if m > 0 { BehindInRing(r, m - 1, n); }
  }

  lemma {:induction false} Distinct(r: nat, m: nat, n: nat)
    requires r < n && m <= n
    ensures |Behind(r, m, n)| == m
  {
    if m > 0 {
      Distinct(r, m - 1, n);
      BehindIff(r, m - 1, n, m - 1);
    }
  }
}
