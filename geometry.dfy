/** Placement geometry of a chunk layer and the auto-spawn radius arithmetic.

    Chunk coordinates, tile and chunk dimensions are the source's 32-bit
    integers, taken here as unbounded; the world translation the renderer
    receives is a triple of `f32`, taken here as `real`. */
module Geometry {

  /** The seven grid layouts a tilemap can use. */
  datatype GridTopology =
    | Square
    | HexX
    | HexY
    | HexEvenRows
    | HexOddRows
    | HexEvenCols
    | HexOddCols

  /** A chunk coordinate in the (unbounded) chunk grid. */
  datatype Point = Point(x: int, y: int)

  /** The world-space translation of one layer entity of a chunk. */
  datatype Translation = Translation(x: real, y: real, z: real)

  /** Columns are packed at three quarters of a tile width. */
  predicate StaggersColumns(t: GridTopology) {
    t == HexX || t == HexEvenCols || t == HexOddCols
  }

  /** Rows are packed at three quarters of a tile height. */
  predicate StaggersRows(t: GridTopology) {
    t == HexY || t == HexEvenRows || t == HexOddRows
  }

  /** A cast `f as i32` of a finite float: truncation toward zero. */
  function TruncateToInt(r: real): int {
    if r >= 0.0 then r.Floor else -((-r).Floor)
  }

  /** Integer truncation toward zero of `n / 4`, the form the staggered
      branches reduce to when the product is exact in `f32`. */
  function QuarterTowardZero(n: int): int {
    if n >= 0 then n / 4 else -((-n) / 4)
  }

  /** `((p as f32 * 0.75) as i32)` for a pixel offset `p`. */
  function Packed(p: int): int {
    TruncateToInt(p as real * 0.75)
  }

  /** The x translation of a chunk whose origin tile is at chunk point `c`.
      Column-staggered layouts pack the x axis at three quarters, truncated
      toward zero before the chunk width is applied; HexY shifts x by half a
      tile width per tile row of the chunks below. */
  function TranslationX(topology: GridTopology, c: Point, tileWidth: int, chunkWidth: int, chunkHeight: int): real {
    match topology
    case HexX | HexEvenCols | HexOddCols =>
      (Packed(c.x * tileWidth) * chunkWidth) as real
    case HexY =>
      (c.x * tileWidth * chunkWidth) as real
        + (c.y as real * chunkHeight as real * 0.5) * tileWidth as real
    case Square | HexEvenRows | HexOddRows =>
      (c.x * tileWidth * chunkWidth) as real
  }

  /** The x translation in integer terms: a column-staggered layout moves
      each chunk column by the chunk width times three quarters of the
      column's pixel offset, truncated toward zero; HexY adds half a tile
      width for every tile row below the chunk. */
  lemma TranslationXForm(topology: GridTopology, c: Point, tileWidth: int, chunkWidth: int, chunkHeight: int)
    ensures StaggersColumns(topology) ==>
              TranslationX(topology, c, tileWidth, chunkWidth, chunkHeight)
              == (QuarterTowardZero(3 * (c.x * tileWidth)) * chunkWidth) as real
    ensures topology == HexY ==>
              2.0 * TranslationX(topology, c, tileWidth, chunkWidth, chunkHeight)
              == (2 * (c.x * tileWidth * chunkWidth) + c.y * chunkHeight * tileWidth) as real
  {
    if StaggersColumns(topology) {
      PackedIsIntegerTruncation(c.x * tileWidth);
    } else if topology == HexY {
      HalfProduct(c.y, chunkHeight, tileWidth);
    }
  }

  /** The y translation of a chunk whose origin tile is at chunk point `c`.
      Row-staggered layouts pack the y axis at three quarters, truncated
      toward zero before the chunk height is applied; HexX shifts y by half a
      tile height per tile column of the chunks to the left. */
  function TranslationY(topology: GridTopology, c: Point, tileHeight: int, chunkWidth: int, chunkHeight: int): real {
    match topology
    case HexX =>
      (c.y * tileHeight * chunkHeight) as real
        + (c.x as real * chunkWidth as real * 0.5) * tileHeight as real
    case HexY | HexEvenRows | HexOddRows =>
      (Packed(c.y * tileHeight) * chunkHeight) as real
    case Square | HexEvenCols | HexOddCols =>
      (c.y * tileHeight * chunkHeight) as real
  }

  /** The y translation in integer terms: a row-staggered layout moves each
      chunk row by the chunk height times three quarters of the row's pixel
      offset, truncated toward zero; HexX adds half a tile height for every
      tile column left of the chunk. */
  lemma TranslationYForm(topology: GridTopology, c: Point, tileHeight: int, chunkWidth: int, chunkHeight: int)
    ensures StaggersRows(topology) ==>
              TranslationY(topology, c, tileHeight, chunkWidth, chunkHeight)
              == (QuarterTowardZero(3 * (c.y * tileHeight)) * chunkHeight) as real
    ensures topology == HexX ==>
              2.0 * TranslationY(topology, c, tileHeight, chunkWidth, chunkHeight)
              == (2 * (c.y * tileHeight * chunkHeight) + c.x * chunkWidth * tileHeight) as real
  {
    if StaggersRows(topology) {
      PackedIsIntegerTruncation(c.y * tileHeight);
    } else if topology == HexX {
      HalfProduct(c.x, chunkWidth, tileHeight);
    }
  }

  /** The float half-tile shift `(a * b * 0.5) * t` is half the integer product. */
  lemma HalfProduct(a: int, b: int, t: int)
    ensures 2.0 * ((a as real * b as real * 0.5) * t as real) == (a * b * t) as real
  {
    assert (a * b) as real == a as real * b as real;
    assert (a * b * t) as real == (a * b) as real * t as real;
  }

  /** The translation of layer `zOrder` of chunk `c`: the layer index is the depth. */
  function Placement(topology: GridTopology, c: Point, tileWidth: int, tileHeight: int,
                     chunkWidth: int, chunkHeight: int, zOrder: nat): (t: Translation)
    ensures t.z == zOrder as real
  {
    Translation(TranslationX(topology, c, tileWidth, chunkWidth, chunkHeight),
                TranslationY(topology, c, tileHeight, chunkWidth, chunkHeight),
                zOrder as real)
  }

  // ---------------------------------------------------------------------------
  // Truncation

  /** Truncation toward zero is the integer of largest magnitude not beyond `r`,
      on the same side of zero. */
  lemma TruncateToIntCharacterised(r: real)
    ensures r >= 0.0 ==> TruncateToInt(r) as real <= r < TruncateToInt(r) as real + 1.0
    ensures r < 0.0 ==> TruncateToInt(r) as real - 1.0 < r <= TruncateToInt(r) as real
  {
  }

  /** For pixel offsets that `f32` represents exactly, the float branch
      `trunc(p * 0.75)` is the integer truncation of `3p / 4`. */
  lemma PackedIsIntegerTruncation(p: int)
    ensures Packed(p) == QuarterTowardZero(3 * p)
  {
    var r := p as real * 0.75;
    if p >= 0 {
      var q := (3 * p) / 4;
      assert 4 * q <= 3 * p < 4 * q + 4;
      assert q as real <= r < q as real + 1.0;
      assert r.Floor == q;
    } else {
      var q := (-3 * p) / 4;
      assert 4 * q <= -3 * p < 4 * q + 4;
      assert q as real <= -r < q as real + 1.0;
      assert (-r).Floor == q;
    }
  }

  /** The packed offset never exceeds three quarters of the unpacked one in
      magnitude, keeps its sign, and loses less than one pixel. */
  lemma PackedBounds(p: int)
    ensures p >= 0 ==> 0 <= 4 * Packed(p) <= 3 * p < 4 * Packed(p) + 4
    ensures p < 0 ==> 4 * Packed(p) - 4 < 3 * p <= 4 * Packed(p) <= 0
  {
    PackedIsIntegerTruncation(p);
  }

  /** Packing is monotone, so staggered chunks keep their left-to-right order. */
  lemma PackedMonotone(p: int, q: int)
    requires p <= q
    ensures Packed(p) <= Packed(q)
  {
    PackedIsIntegerTruncation(p);
    PackedIsIntegerTruncation(q);
  }

  // ---------------------------------------------------------------------------
  // Placement properties

  /** Square grids place chunks at plain pixel products on both axes. */
  lemma SquarePlacement(c: Point, tileWidth: int, tileHeight: int, chunkWidth: int, chunkHeight: int, zOrder: nat)
    ensures Placement(Square, c, tileWidth, tileHeight, chunkWidth, chunkHeight, zOrder)
         == Translation((c.x * tileWidth * chunkWidth) as real, (c.y * tileHeight * chunkHeight) as real, zOrder as real)
  {
  }

  /** Tile and chunk sizes both scaled by a texture of `sx` by `sy` pixels
      put a square-grid chunk `sx * sx` times as far out along x and
      `sy * sy` times as far along y. */
  lemma TextureScaledSquare(c: Point, tileWidth: int, tileHeight: int, chunkWidth: int, chunkHeight: int,
                            sx: int, sy: int, zOrder: nat)
    ensures Placement(Square, c, tileWidth * sx, tileHeight * sy, chunkWidth * sx, chunkHeight * sy, zOrder)
         == Translation(((c.x * tileWidth * chunkWidth) * (sx * sx)) as real,
                        ((c.y * tileHeight * chunkHeight) * (sy * sy)) as real, zOrder as real)
  {
    assert c.x * (tileWidth * sx) * (chunkWidth * sx) == (c.x * tileWidth * chunkWidth) * (sx * sx);
    assert c.y * (tileHeight * sy) * (chunkHeight * sy) == (c.y * tileHeight * chunkHeight) * (sy * sy);
  }

  /** Square, HexEvenRows and HexOddRows leave the x axis unstaggered;
      Square, HexEvenCols and HexOddCols leave the y axis unstaggered. */
  lemma UnstaggeredAxes(topology: GridTopology, c: Point, tileWidth: int, tileHeight: int, chunkWidth: int, chunkHeight: int)
    ensures topology in {Square, HexEvenRows, HexOddRows} ==>
              TranslationX(topology, c, tileWidth, chunkWidth, chunkHeight) == (c.x * tileWidth * chunkWidth) as real
    ensures topology in {Square, HexEvenCols, HexOddCols} ==>
              TranslationY(topology, c, tileHeight, chunkWidth, chunkHeight) == (c.y * tileHeight * chunkHeight) as real
  {
  }

  /** In a HexY layout the next chunk row is shifted right by half a tile per
      tile row of a chunk. */
  lemma HexYRowBleed(x: int, y: int, tileWidth: int, chunkWidth: int, chunkHeight: int)
    ensures TranslationX(HexY, Point(x, y + 1), tileWidth, chunkWidth, chunkHeight)
          - TranslationX(HexY, Point(x, y), tileWidth, chunkWidth, chunkHeight)
         == chunkHeight as real * 0.5 * tileWidth as real
  {
  }

  /** In a HexX layout the next chunk column is shifted up by half a tile per
      tile column of a chunk. */
  lemma HexXColumnBleed(x: int, y: int, tileHeight: int, chunkWidth: int, chunkHeight: int)
    ensures TranslationY(HexX, Point(x + 1, y), tileHeight, chunkWidth, chunkHeight)
          - TranslationY(HexX, Point(x, y), tileHeight, chunkWidth, chunkHeight)
         == chunkWidth as real * 0.5 * tileHeight as real
  {
  }

  /** Along a staggered axis, chunk origins are ordered like chunk coordinates. */
  lemma ColumnStaggerMonotone(topology: GridTopology, x1: int, x2: int, y: int,
                              tileWidth: nat, chunkWidth: nat, chunkHeight: int)
    requires StaggersColumns(topology) && x1 <= x2
    ensures TranslationX(topology, Point(x1, y), tileWidth, chunkWidth, chunkHeight)
         <= TranslationX(topology, Point(x2, y), tileWidth, chunkWidth, chunkHeight)
  {
    ScaleMonotone(x1, x2, tileWidth);
    PackedMonotone(x1 * tileWidth, x2 * tileWidth);
    ScaleMonotone(Packed(x1 * tileWidth), Packed(x2 * tileWidth), chunkWidth);
  }

  /** Scaling by a natural number keeps order. */
  lemma ScaleMonotone(a: int, b: int, k: nat)
    requires a <= b
    ensures a * k <= b * k
  {
    assert b * k - a * k == (b - a) * k;
  }

  /** The square-grid example: chunk (2, 3), 16-pixel tiles, 8-tile chunks. */
  lemma SquareExample()
    ensures Placement(Square, Point(2, 3), 16, 16, 8, 8, 0) == Translation(256.0, 384.0, 0.0)
  {
  }

  // ---------------------------------------------------------------------------
  // Auto-spawn radius

  /** Ceiling of `n / d` for a positive divisor. */
  function CeilDiv(n: nat, d: nat): (q: nat)
    requires d > 0
    ensures q * d >= n
    ensures (q - 1) * d < n || (n == 0 && q == 0)
  {
    (n + d - 1) / d
  }

  /** `x.ceil()` of a float, for finite `x`. */
  function Ceil(r: real): int {
    -((-r).Floor)
  }

  /** The float ceiling of the quotient is the integer ceiling division. */
  lemma CeilDivIsFloatCeil(n: nat, d: nat)
    requires d > 0
    ensures CeilDiv(n, d) == Ceil(n as real / d as real)
  {
    var q := CeilDiv(n, d);
    var r := n as real / d as real;
    if n == 0 {
      assert r == 0.0;
    } else {
      assert (q - 1) * d < n <= q * d;
      QuotientBetween(n, d, q);
      assert -(q as real) <= -r < -(q as real) + 1.0;
      assert (-r).Floor == -q;
    }
  }

  /** From `(q - 1) * d < n <= q * d` on integers to `q - 1 < n / d <= q`
      on reals. */
  lemma QuotientBetween(n: nat, d: nat, q: int)
    requires d > 0 && (q - 1) * d < n <= q * d
    ensures (q - 1) as real < n as real / d as real <= q as real
  {
    var r := n as real / d as real;
    assert r * d as real == n as real;
    assert ((q - 1) * d) as real == (q - 1) as real * d as real;
    assert (q * d) as real == q as real * d as real;
    ScaledLess((q - 1) as real, r, d as real);
    ScaledAtMost(r, q as real, d as real);
  }

  /** Dividing both sides by a positive factor keeps a strict order. */
  lemma ScaledLess(a: real, b: real, d: real)
    requires d > 0.0 && a * d < b * d
    ensures a < b
  {
  }

  /** Dividing both sides by a positive factor keeps a weak order. */
  lemma ScaledAtMost(a: real, b: real, d: real)
    requires d > 0.0 && a * d <= b * d
    ensures a <= b
  {
  }

  /** The number of chunks spawned along one axis of a window `window` pixels
      long, for chunks `chunkPixels` pixels long: one more than the ceiling. */
  function ChunksAlong(window: nat, chunkPixels: nat): (r: nat)
    requires chunkPixels > 0
    ensures r >= 1
    ensures (r - 1) * chunkPixels >= window
    ensures (r - 2) * chunkPixels < window || r == 1
  {
    CeilDiv(window, chunkPixels) + 1
  }
}
