/** The window of chunk coordinates that `auto_spawn` requests around a
    centre chunk, with the bounded-map clipping it applies to each axis. */
module Window {

  import opened Options
  import opened Geometry

  /** What `auto_spawn` reads from the tilemap to clip candidates: the
      optional map width and height in tiles and the chunk size in tiles. */
  datatype Extent = Extent(width: Option<nat>, height: Option<nat>, chunkWidth: nat, chunkHeight: nat)

  /** Chunk sizes are divisors in the clipping test. */
  predicate ValidExtent(e: Extent) {
    e.chunkWidth > 0 && e.chunkHeight > 0
  }

  /** The largest chunk coordinate, in absolute value, a bounded axis admits:
      `(extent / chunk) / 2`, both divisions on non-negative integers. */
  function HalfSpan(extent: nat, chunk: nat): nat
    requires chunk > 0
  {
    (extent / chunk) / 2
  }

  /** One axis of the clipping test; an unbounded axis admits everything. */
  predicate WithinAxis(v: int, extent: Option<nat>, chunk: nat)
    requires chunk > 0
  {
    match extent
    case None => true
    case Some(w) => -(HalfSpan(w, chunk) as int) <= v <= HalfSpan(w, chunk)
  }

  /** A candidate chunk survives both `continue` tests of the loop body. */
  predicate Admits(e: Extent, p: Point)
    requires ValidExtent(e)
  {
    WithinAxis(p.x, e.width, e.chunkWidth) && WithinAxis(p.y, e.height, e.chunkHeight)
  }

  /** The admitted candidates of the inner loop for offset row `y`, offsets
      `x` up to `hi`, in the order the loop pushes them. */
  function Row(e: Extent, c: Point, y: int, x: int, hi: int): seq<Point>
    requires ValidExtent(e)
    decreases hi - x
  {
    if x > hi then []
    else
      var p := Point(x + c.x, y + c.y);
      (if Admits(e, p) then [p] else []) + Row(e, c, y, x + 1, hi)
  }

  /** The admitted candidates of the outer loop from offset row `y` up to
      `hiY`, each row running its offsets from `-hiX` to `hiX`. */
  function Rows(e: Extent, c: Point, y: int, hiY: int, hiX: int): seq<Point>
    requires ValidExtent(e)
    decreases hiY - y
  {
    if y > hiY then []
    else Row(e, c, y, -hiX, hiX) + Rows(e, c, y + 1, hiY, hiX)
  }

  /** One turn of the inner loop: candidate `x` is pushed when admitted,
      before the rest of the row. */
  lemma RowStep(e: Extent, c: Point, y: int, x: int, hi: int)
    requires ValidExtent(e) && x <= hi
    ensures Row(e, c, y, x, hi)
         == (if Admits(e, Point(x + c.x, y + c.y)) then [Point(x + c.x, y + c.y)] else []) + Row(e, c, y, x + 1, hi)
  {
  }

  /** One turn of the outer loop: row `y` comes before the rows after it. */
  lemma RowsStep(e: Extent, c: Point, y: int, hiY: int, hiX: int)
    requires ValidExtent(e) && y <= hiY
    ensures Rows(e, c, y, hiY, hiX) == Row(e, c, y, -hiX, hiX) + Rows(e, c, y + 1, hiY, hiX)
  {
  }

  /** `new_spawned` as `auto_spawn` builds it: the outer offset `y` ranges
      over the spawn WIDTH and the inner offset `x` over the spawn HEIGHT,
      as the loops are written. */
  function Window(e: Extent, c: Point, spawnWidth: nat, spawnHeight: nat): seq<Point>
    requires ValidExtent(e)
  {
    Rows(e, c, -(spawnWidth as int), spawnWidth, spawnHeight)
  }

  /** No coordinate occurs twice. */
  predicate Distinct(s: seq<Point>) {
    forall i, j :: 0 <= i < j < |s| ==> s[i] != s[j]
  }

  // ---------------------------------------------------------------------------
  // Membership

  lemma {:induction false} RowMembers(e: Extent, c: Point, y: int, x: int, hi: int, p: Point)
    requires ValidExtent(e)
    ensures p in Row(e, c, y, x, hi) <==> p.y == y + c.y && x <= p.x - c.x <= hi && Admits(e, p)
    decreases hi - x
  {
    if x <= hi {
      RowMembers(e, c, y, x + 1, hi, p);
    }
  }

  lemma {:induction false} RowsMembers(e: Extent, c: Point, y: int, hiY: int, hiX: int, p: Point)
    requires ValidExtent(e)
    ensures p in Rows(e, c, y, hiY, hiX)
        <==> y <= p.y - c.y <= hiY && -hiX <= p.x - c.x <= hiX && Admits(e, p)
    decreases hiY - y
  {
    if y <= hiY {
      RowMembers(e, c, y, -hiX, hiX, p);
      RowsMembers(e, c, y + 1, hiY, hiX, p);
    }
  }

  /** A coordinate is in the window exactly when its x offset from the centre
      is within the spawn height, its y offset within the spawn width, and
      the bounded axes admit it. */
  lemma WindowMembers(e: Extent, c: Point, spawnWidth: nat, spawnHeight: nat, p: Point)
    requires ValidExtent(e)
    ensures p in Window(e, c, spawnWidth, spawnHeight) <==>
              && -(spawnHeight as int) <= p.x - c.x <= spawnHeight
              && -(spawnWidth as int) <= p.y - c.y <= spawnWidth
              && Admits(e, p)
  {
    RowsMembers(e, c, -(spawnWidth as int), spawnWidth, spawnHeight, p);
  }

  /** Bounded clipping: on a map of bounded width no window coordinate has
      an x beyond half the map's width in chunks, and likewise for height. */
  lemma WindowClipped(e: Extent, c: Point, spawnWidth: nat, spawnHeight: nat, p: Point)
    requires ValidExtent(e) && p in Window(e, c, spawnWidth, spawnHeight)
    ensures e.width.Some? ==> -(HalfSpan(e.width.value, e.chunkWidth) as int) <= p.x <= HalfSpan(e.width.value, e.chunkWidth)
    ensures e.height.Some? ==> -(HalfSpan(e.height.value, e.chunkHeight) as int) <= p.y <= HalfSpan(e.height.value, e.chunkHeight)
  {
    WindowMembers(e, c, spawnWidth, spawnHeight, p);
  }

  // ---------------------------------------------------------------------------
  // Each coordinate once

  lemma DistinctConcat(a: seq<Point>, b: seq<Point>)
    requires Distinct(a) && Distinct(b)
    requires forall p :: p in a ==> p !in b
    ensures Distinct(a + b)
  {
    forall i, j | 0 <= i < j < |a + b|
      ensures (a + b)[i] != (a + b)[j]
    {
      if i < |a| && j >= |a| {
        assert (a + b)[i] in a && (a + b)[j] in b;
      }
    }
  }

  lemma {:induction false} RowDistinct(e: Extent, c: Point, y: int, x: int, hi: int)
    requires ValidExtent(e)
    ensures Distinct(Row(e, c, y, x, hi))
    decreases hi - x
  {
    if x <= hi {
      var p := Point(x + c.x, y + c.y);
      RowDistinct(e, c, y, x + 1, hi);
      RowMembers(e, c, y, x + 1, hi, p);
      DistinctConcat(if Admits(e, p) then [p] else [], Row(e, c, y, x + 1, hi));
    }
  }

  lemma {:induction false} RowsDistinct(e: Extent, c: Point, y: int, hiY: int, hiX: int)
    requires ValidExtent(e)
    ensures Distinct(Rows(e, c, y, hiY, hiX))
    decreases hiY - y
  {
    if y <= hiY {
      RowDistinct(e, c, y, -hiX, hiX);
      RowsDistinct(e, c, y + 1, hiY, hiX);
      var row := Row(e, c, y, -hiX, hiX);
      forall i | 0 <= i < |row|
        ensures row[i] !in Rows(e, c, y + 1, hiY, hiX)
      {
        var p := row[i];
        RowMembers(e, c, y, -hiX, hiX, p);
        RowsMembers(e, c, y + 1, hiY, hiX, p);
      }
      DistinctConcat(Row(e, c, y, -hiX, hiX), Rows(e, c, y + 1, hiY, hiX));
    }
  }

  /** `auto_spawn` pushes every admitted candidate exactly once. */
  lemma WindowDistinct(e: Extent, c: Point, spawnWidth: nat, spawnHeight: nat)
    requires ValidExtent(e)
    ensures Distinct(Window(e, c, spawnWidth, spawnHeight))
  {
    RowsDistinct(e, c, -(spawnWidth as int), spawnWidth, spawnHeight);
  }

  /** On an unbounded map the window holds one coordinate per candidate. */
  lemma {:induction false} UnboundedRowLength(e: Extent, c: Point, y: int, x: int, hi: int)
    requires ValidExtent(e) && e.width.None? && e.height.None? && x <= hi + 1
    ensures |Row(e, c, y, x, hi)| == hi - x + 1
    decreases hi - x
  {
    if x <= hi {
      UnboundedRowLength(e, c, y, x + 1, hi);
    }
  }

  lemma {:induction false} UnboundedRowsLength(e: Extent, c: Point, y: int, hiY: int, hiX: int)
    requires ValidExtent(e) && e.width.None? && e.height.None? && y <= hiY + 1 && hiX >= 0
    ensures |Rows(e, c, y, hiY, hiX)| == (hiY - y + 1) * (2 * hiX + 1)
    decreases hiY - y
  {
    if y <= hiY {
      UnboundedRowLength(e, c, y, -hiX, hiX);
      UnboundedRowsLength(e, c, y + 1, hiY, hiX);
      var n := 2 * hiX + 1;
      assert (hiY - y + 1) * n == n + (hiY - (y + 1) + 1) * n;
    }
  }

  lemma UnboundedWindowSize(e: Extent, c: Point, spawnWidth: nat, spawnHeight: nat)
    requires ValidExtent(e) && e.width.None? && e.height.None?
    ensures |Window(e, c, spawnWidth, spawnHeight)| == (2 * spawnWidth + 1) * (2 * spawnHeight + 1)
  {
    UnboundedRowsLength(e, c, -(spawnWidth as int), spawnWidth, spawnHeight);
  }

  // ---------------------------------------------------------------------------
  // Worked examples

  /** Centre (0, 0), radius one on each axis, unbounded map: the 3 x 3 block. */
  lemma UnitWindowExample(chunkWidth: nat, chunkHeight: nat)
    requires chunkWidth > 0 && chunkHeight > 0
    ensures var w := Window(Extent(None, None, chunkWidth, chunkHeight), Point(0, 0), 1, 1);
            (set p | p in w) == set x, y | -1 <= x <= 1 && -1 <= y <= 1 :: Point(x, y)
  {
    var e := Extent(None, None, chunkWidth, chunkHeight);
    var block := set x, y | -1 <= x <= 1 && -1 <= y <= 1 :: Point(x, y);
    forall p ensures p in Window(e, Point(0, 0), 1, 1) <==> p in block {
      WindowMembers(e, Point(0, 0), 1, 1, p);
    }
  }

  /** A 40-tile-wide map of 10-tile chunks admits chunk x up to 2 in
      absolute value, so x = 5 is never requested. */
  lemma BoundedWidthExample(c: Point, spawnWidth: nat, spawnHeight: nat, y: int)
    ensures var e := Extent(Some(40), None, 10, 10);
            HalfSpan(40, 10) == 2 && Point(5, y) !in Window(e, c, spawnWidth, spawnHeight)
  {
    WindowMembers(Extent(Some(40), None, 10, 10), c, spawnWidth, spawnHeight, Point(5, y));
  }

  // ---------------------------------------------------------------------------
  // The crossed loop bounds

  /** As written, a spawn width of one and a spawn height of zero give a
      vertical strip: (0, 1) is requested and (1, 0) is not. */
  lemma CrossedAxesExample()
    ensures var w := Window(Extent(None, None, 1, 1), Point(0, 0), 1, 0);
            Point(0, 1) in w && Point(1, 0) !in w
  {
    var e := Extent(None, None, 1, 1);
    WindowMembers(e, Point(0, 0), 1, 0, Point(0, 1));
    WindowMembers(e, Point(0, 0), 1, 0, Point(1, 0));
  }

  /** The window the radius computation evidently intends: x offsets up to
      the spawn width (the number of chunks across the viewport) and y
      offsets up to the spawn height, in the same row-by-row order. */
  function IntendedWindow(e: Extent, c: Point, spawnWidth: nat, spawnHeight: nat): seq<Point>
    requires ValidExtent(e)
  {
    Rows(e, c, -(spawnHeight as int), spawnHeight, spawnWidth)
  }

  lemma IntendedWindowMembers(e: Extent, c: Point, spawnWidth: nat, spawnHeight: nat, p: Point)
    requires ValidExtent(e)
    ensures p in IntendedWindow(e, c, spawnWidth, spawnHeight) <==>
              && -(spawnWidth as int) <= p.x - c.x <= spawnWidth
              && -(spawnHeight as int) <= p.y - c.y <= spawnHeight
              && Admits(e, p)
  {
    RowsMembers(e, c, -(spawnHeight as int), spawnHeight, spawnWidth, p);
  }

  /** The intended window also requests each coordinate once. */
  lemma IntendedWindowDistinct(e: Extent, c: Point, spawnWidth: nat, spawnHeight: nat)
    requires ValidExtent(e)
    ensures Distinct(IntendedWindow(e, c, spawnWidth, spawnHeight))
  {
    RowsDistinct(e, c, -(spawnHeight as int), spawnHeight, spawnWidth);
  }

  /** The two agree exactly when the window is square. */
  lemma CrossedAxesAgreeWhenSquare(e: Extent, c: Point, spawnWidth: nat, spawnHeight: nat)
    requires ValidExtent(e)
    ensures spawnWidth == spawnHeight ==> Window(e, c, spawnWidth, spawnHeight) == IntendedWindow(e, c, spawnWidth, spawnHeight)
    ensures spawnWidth != spawnHeight && e.width.None? && e.height.None? ==>
              (set p | p in Window(e, c, spawnWidth, spawnHeight)) != (set p | p in IntendedWindow(e, c, spawnWidth, spawnHeight))
  {
    if spawnWidth != spawnHeight && e.width.None? && e.height.None? {
      var p := if spawnWidth > spawnHeight then Point(c.x, c.y + spawnWidth) else Point(c.x + spawnHeight, c.y);
      WindowMembers(e, c, spawnWidth, spawnHeight, p);
      IntendedWindowMembers(e, c, spawnWidth, spawnHeight, p);
      var asWritten := set q | q in Window(e, c, spawnWidth, spawnHeight);
      var intended := set q | q in IntendedWindow(e, c, spawnWidth, spawnHeight);
      assert (p in asWritten) != (p in intended);
    }
  }
}
