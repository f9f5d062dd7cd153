/**
 * The integer geometry of backend/watermark.py: where copies of the watermark
 * are composited onto the canvas (tiled on a grid, or once at a centred or
 * explicit origin), and which branch scale_keep_aspect takes.
 *
 * Pixels are not modelled: a canvas is its size plus the list of origins at
 * which the watermark image was composited, in compositing order.
 */
module Watermark {
  import opened Wrappers

  /** A pixel coordinate; `x` grows to the right, `y` downwards. */
  datatype Point = Point(x: int, y: int)

  /** The watermark layer: its size and the origins composited onto it. */
  datatype Canvas = Canvas(width: nat, height: nat, placements: seq<Point>)

  /** The `padding` default of tile_watermark and of both watermark functions. */
  const DefaultPadding: int := 50

  // ---------------------------------------------------------------------------
  // Arithmetic helpers
  // ---------------------------------------------------------------------------

  /** The ceiling of n / d for a positive divisor. */
  function CeilDiv(n: nat, d: int): nat
    requires d > 0
  {
    (n + d - 1) / d
  }

  lemma MulMonotone(a: int, b: int, d: int)
    requires a <= b && d >= 0
    ensures a * d <= b * d
  {
  }

  lemma MulStrict(a: int, b: int, d: int)
    requires a < b && d > 0
    ensures a * d < b * d
  {
  }

  /** CeilDiv(n, d) counts the multiples k * d (k >= 0) that lie below n. */
  lemma CeilDivCounts(n: nat, d: int, k: nat)
    requires d > 0
    ensures k < CeilDiv(n, d) <==> k * d < n
  {
    var q := CeilDiv(n, d);
    var r := (n + d - 1) % d;
    assert n + d - 1 == q * d + r && 0 <= r < d;
    if k < q {
      MulMonotone(k, q - 1, d);
      assert (q - 1) * d == q * d - d;
    } else {
      MulMonotone(q, k, d);
    }
  }

  // ---------------------------------------------------------------------------
  // The tiling grid
  // ---------------------------------------------------------------------------

  /** The distance between neighbouring origins along one axis. */
  function Stride(size: nat, padding: int): int
  {
    size + padding
  }

  /** The origin of the copy in column i and row j of a grid with steps sx, sy. */
  function GridPoint(i: int, j: int, sx: int, sy: int): Point
  {
    Point(i * sx, j * sy)
  }

  /** Column i of the grid: its first `rows` origins, top to bottom. */
  function Column(i: int, rows: nat, sx: int, sy: int): (c: seq<Point>)
    ensures |c| == rows
    ensures forall j :: 0 <= j < rows ==> c[j] == GridPoint(i, j, sx, sy)
  {
    seq(rows, j => GridPoint(i, j, sx, sy))
  }

  /** The first `cols` columns of the grid, left to right, each top to bottom. */
  function Grid(cols: nat, rows: nat, sx: int, sy: int): seq<Point>
  {
    if cols == 0 then [] else Grid(cols - 1, rows, sx, sy) + Column(cols - 1, rows, sx, sy)
  }

  /** Column-major order: p comes strictly before q. */
  predicate Before(p: Point, q: Point)
  {
    p.x < q.x || (p.x == q.x && p.y < q.y)
  }

  lemma {:induction false} GridLength(cols: nat, rows: nat, sx: int, sy: int)
    ensures |Grid(cols, rows, sx, sy)| == cols * rows
  {
    if cols > 0 {
      GridLength(cols - 1, rows, sx, sy);
      assert (cols - 1) * rows + rows == cols * rows;
    }
  }

  /** Every origin of the grid is a grid point of one of its columns and rows. */
  lemma {:induction false} GridSound(cols: nat, rows: nat, sx: int, sy: int, k: int)
    requires 0 <= k < |Grid(cols, rows, sx, sy)|
    ensures exists i, j :: 0 <= i < cols && 0 <= j < rows && Grid(cols, rows, sx, sy)[k] == GridPoint(i, j, sx, sy)
  {
    var prev := Grid(cols - 1, rows, sx, sy);
    if k < |prev| {
      GridSound(cols - 1, rows, sx, sy, k);
      var i, j :| 0 <= i < cols - 1 && 0 <= j < rows && prev[k] == GridPoint(i, j, sx, sy);
      assert Grid(cols, rows, sx, sy)[k] == GridPoint(i, j, sx, sy);
    } else {
      var j := k - |prev|;
      assert Grid(cols, rows, sx, sy)[k] == GridPoint(cols - 1, j, sx, sy);
    }
  }

  /** Every grid point of the first cols columns and rows rows is in the grid. */
  lemma {:induction false} GridComplete(cols: nat, rows: nat, sx: int, sy: int, i: int, j: int)
    requires 0 <= i < cols && 0 <= j < rows
    ensures GridPoint(i, j, sx, sy) in Grid(cols, rows, sx, sy)
  {
    var prev := Grid(cols - 1, rows, sx, sy);
    var col := Column(cols - 1, rows, sx, sy);
    if i < cols - 1 {
      GridComplete(cols - 1, rows, sx, sy, i, j);
      assert GridPoint(i, j, sx, sy) in prev + col;
    } else {
      assert col[j] == GridPoint(i, j, sx, sy);
      assert GridPoint(i, j, sx, sy) in prev + col;
    }
  }

  /** With positive steps the grid is listed in strictly increasing column-major order. */
  lemma {:induction false} GridOrdered(cols: nat, rows: nat, sx: int, sy: int, k: int, l: int)
    requires sx > 0 && sy > 0
    requires 0 <= k < l < |Grid(cols, rows, sx, sy)|
    ensures Before(Grid(cols, rows, sx, sy)[k], Grid(cols, rows, sx, sy)[l])
  {
    var g := Grid(cols, rows, sx, sy);
    var prev := Grid(cols - 1, rows, sx, sy);
    var col := Column(cols - 1, rows, sx, sy);
    assert g == prev + col;
    if l < |prev| {
      GridOrdered(cols - 1, rows, sx, sy, k, l);
    } else if k < |prev| {
      GridSound(cols - 1, rows, sx, sy, k);
      var i, j :| 0 <= i < cols - 1 && 0 <= j < rows && prev[k] == GridPoint(i, j, sx, sy);
      MulStrict(i, cols - 1, sx);
      assert g[l] == col[l - |prev|];
    } else {
      MulStrict(k - |prev|, l - |prev|, sy);
      assert g[k] == col[k - |prev|] && g[l] == col[l - |prev|];
    }
  }

  // ---------------------------------------------------------------------------
  // tile_watermark
  // ---------------------------------------------------------------------------

  /**
   * The nested loops of tile_watermark terminate: either no loop body runs,
   * or every step that is taken is positive. A zero-sized watermark returns
   * before the loops; a zero-width canvas skips the outer loop; a zero-height
   * canvas skips the inner one.
   */
  predicate TileTerminates(width: nat, height: nat, w: nat, h: nat, padding: int)
  {
    w == 0 || h == 0 || width == 0 || (Stride(w, padding) > 0 && (height == 0 || Stride(h, padding) > 0))
  }

  /** The number of rows the inner loop visits for a canvas `height` high. */
  function Rows(height: nat, sy: int): nat
    requires height == 0 || sy > 0
  {
    if height == 0 then 0 else CeilDiv(height, sy)
  }

  /**
   * The origins tile_watermark composites, in order, for a canvas of
   * width x height and a w x h watermark: the grid with steps w + padding
   * and h + padding, cut off at the canvas edges.
   */
  function TileOrigins(width: nat, height: nat, w: nat, h: nat, padding: int): seq<Point>
    requires TileTerminates(width, height, w, h, padding)
  {
    if w == 0 || h == 0 || width == 0 then []
    else Grid(CeilDiv(width, Stride(w, padding)), Rows(height, Stride(h, padding)), Stride(w, padding), Stride(h, padding))
  }

  /** Adding the next row to a column. */
  lemma ColumnExtend(i: int, rows: nat, sx: int, sy: int)
    ensures Column(i, rows + 1, sx, sy) == Column(i, rows, sx, sy) + [GridPoint(i, rows, sx, sy)]
  {
  }

  /** The placement loop of tile_watermark, compositing onto a fresh transparent canvas. */
  method TileWatermark(width: nat, height: nat, w: nat, h: nat, padding: int := DefaultPadding) returns (canvas: Canvas)
    requires TileTerminates(width, height, w, h, padding)
    ensures canvas.width == width && canvas.height == height
    ensures w == 0 || h == 0 ==> canvas.placements == []
    ensures canvas.placements == TileOrigins(width, height, w, h, padding)
  {
    canvas := Canvas(width, height, []);
    if w == 0 || h == 0 {
      return;
    }
    ghost var sx, sy := Stride(w, padding), Stride(h, padding);
    ghost var rows := if width == 0 then 0 else Rows(height, sy);
    ghost var i: nat := 0;
    var x := 0;
    while x < width
      invariant x == i * sx
      invariant width == 0 ==> i == 0
      invariant width > 0 ==> i <= CeilDiv(width, sx)
      invariant canvas.width == width && canvas.height == height
      invariant canvas.placements == Grid(i, rows, sx, sy)
      decreases width - x
    {
      CeilDivCounts(width, sx, i);
      ghost var j: nat := 0;
      var y := 0;
      while y < height
        invariant y == j * sy
        invariant j <= rows
        invariant canvas.width == width && canvas.height == height
        invariant canvas.placements == Grid(i, rows, sx, sy) + Column(i, j, sx, sy)
        decreases height - y
      {
        CeilDivCounts(height, sy, j);
        ColumnExtend(i, j, sx, sy);
        canvas := canvas.(placements := canvas.placements + [Point(x, y)]);
        assert (j + 1) * sy == j * sy + sy;
        y := y + h + padding;
        j := j + 1;
      }
      if height > 0 {
        CeilDivCounts(height, sy, j);
      }
      assert (i + 1) * sx == i * sx + sx;
      x := x + w + padding;
      i := i + 1;
    }
    if width > 0 {
      CeilDivCounts(width, sx, i);
    }
  }

  /** Every origin lies on the canvas. */
  lemma TileWithinCanvas(width: nat, height: nat, w: nat, h: nat, padding: int, k: int)
    requires TileTerminates(width, height, w, h, padding)
    requires 0 <= k < |TileOrigins(width, height, w, h, padding)|
    ensures 0 <= TileOrigins(width, height, w, h, padding)[k].x < width
    ensures 0 <= TileOrigins(width, height, w, h, padding)[k].y < height
  {
    assert w > 0 && h > 0 && width > 0;
    var sx, sy := Stride(w, padding), Stride(h, padding);
    var cols, rows := CeilDiv(width, sx), Rows(height, sy);
    GridSound(cols, rows, sx, sy, k);
    var i, j :| 0 <= i < cols && 0 <= j < rows && Grid(cols, rows, sx, sy)[k] == GridPoint(i, j, sx, sy);
    assert height > 0;
    CeilDivCounts(width, sx, i);
    CeilDivCounts(height, sy, j);
    MulMonotone(0, i, sx);
    MulMonotone(0, j, sy);
  }

  /** Every origin is (i * (w + padding), j * (h + padding)) for naturals i, j. */
  lemma TileOnGrid(width: nat, height: nat, w: nat, h: nat, padding: int, k: int)
    requires TileTerminates(width, height, w, h, padding)
    requires 0 <= k < |TileOrigins(width, height, w, h, padding)|
    ensures exists i, j :: 0 <= i && 0 <= j && TileOrigins(width, height, w, h, padding)[k] == GridPoint(i, j, Stride(w, padding), Stride(h, padding))
  {
    GridSound(CeilDiv(width, Stride(w, padding)), Rows(height, Stride(h, padding)), Stride(w, padding), Stride(h, padding), k);
  }

  /** Every grid point that falls inside the canvas is an origin. */
  lemma TileCovers(width: nat, height: nat, w: nat, h: nat, padding: int, i: nat, j: nat)
    requires TileTerminates(width, height, w, h, padding)
    requires w > 0 && h > 0
    requires 0 <= i * Stride(w, padding) < width && 0 <= j * Stride(h, padding) < height
    ensures GridPoint(i, j, Stride(w, padding), Stride(h, padding)) in TileOrigins(width, height, w, h, padding)
  {
    var sx, sy := Stride(w, padding), Stride(h, padding);
    CeilDivCounts(width, sx, i);
    CeilDivCounts(height, sy, j);
    GridComplete(CeilDiv(width, sx), Rows(height, sy), sx, sy, i, j);
  }

  /**
   * Origins come column by column: x never decreases, y strictly increases
   * within a column, so no origin is composited twice.
   */
  lemma TileOrdered(width: nat, height: nat, w: nat, h: nat, padding: int, k: int, l: int)
    requires TileTerminates(width, height, w, h, padding)
    requires 0 <= k < l < |TileOrigins(width, height, w, h, padding)|
    ensures Before(TileOrigins(width, height, w, h, padding)[k], TileOrigins(width, height, w, h, padding)[l])
  {
    assert w > 0 && h > 0 && width > 0;
    var cols, rows := CeilDiv(width, Stride(w, padding)), Rows(height, Stride(h, padding));
    GridLength(cols, rows, Stride(w, padding), Stride(h, padding));
    assert rows > 0;
    GridOrdered(cols, rows, Stride(w, padding), Stride(h, padding), k, l);
  }

  /** The number of origins is ceil(W / (w + padding)) * ceil(H / (h + padding)). */
  lemma TileCount(width: nat, height: nat, w: nat, h: nat, padding: int)
    requires TileTerminates(width, height, w, h, padding)
    ensures |TileOrigins(width, height, w, h, padding)|
         == if w == 0 || h == 0 || width == 0 || height == 0 then 0
            else CeilDiv(width, Stride(w, padding)) * CeilDiv(height, Stride(h, padding))
  {
    if !(w == 0 || h == 0 || width == 0) {
      GridLength(CeilDiv(width, Stride(w, padding)), Rows(height, Stride(h, padding)), Stride(w, padding), Stride(h, padding));
    }
  }

  // ---------------------------------------------------------------------------
  // Single placement (tile=False)
  // ---------------------------------------------------------------------------

  /**
   * The centred origin ((W - ww) // 2, (H - wh) // 2). Python's `//` floors;
   * Dafny's `/` is Euclidean, which for the positive divisor 2 is the same.
   */
  function CenteredOrigin(width: int, height: int, ww: int, wh: int): (p: Point)
    ensures 2 * p.x <= width - ww < 2 * p.x + 2
    ensures 2 * p.y <= height - wh < 2 * p.y + 2
  {
    Point((width - ww) / 2, (height - wh) / 2)
  }

  /** The centred origin leaves margins that differ by at most one pixel. */
  lemma CenteredBalanced(width: int, height: int, ww: int, wh: int)
    ensures var p := CenteredOrigin(width, height, ww, wh);
      0 <= (width - (p.x + ww)) - p.x <= 1 && 0 <= (height - (p.y + wh)) - p.y <= 1
  {
  }

  /** The centred origin is on the canvas exactly when the watermark is no larger than it. */
  lemma CenteredNonNegative(width: int, height: int, ww: int, wh: int)
    ensures CenteredOrigin(width, height, ww, wh).x >= 0 <==> ww <= width
    ensures CenteredOrigin(width, height, ww, wh).y >= 0 <==> wh <= height
  {
  }

  /** A watermark that fits is placed entirely inside the canvas. */
  lemma CenteredFits(width: int, height: int, ww: int, wh: int)
    requires 0 <= ww <= width && 0 <= wh <= height
    ensures var p := CenteredOrigin(width, height, ww, wh);
      0 <= p.x && p.x + ww <= width && 0 <= p.y && p.y + wh <= height
  {
  }

  /** The `pos` of the non-tiled branch: the explicit position verbatim, else centred. */
  function PlacementOrigin(width: int, height: int, ww: int, wh: int, position: Option<Point>): (p: Point)
    ensures position.Some? ==> p == position.value
    ensures position.None? ==> p == CenteredOrigin(width, height, ww, wh)
  {
    match position
    case Some(pos) => pos
    case None => CenteredOrigin(width, height, ww, wh)
  }

  /**
   * The watermark layer shared by add_watermark_overlay and add_watermark_behind,
   * once the watermark has been scaled to wmWidth x wmHeight: tiled over the
   * whole canvas, or composited once at PlacementOrigin.
   */
  method WatermarkLayer(width: nat, height: nat, wmWidth: nat, wmHeight: nat,
                        tile: bool, padding: int := DefaultPadding, position: Option<Point> := None) returns (layer: Canvas)
    requires tile ==> TileTerminates(width, height, wmWidth, wmHeight, padding)
    ensures layer.width == width && layer.height == height
    ensures tile ==> layer.placements == TileOrigins(width, height, wmWidth, wmHeight, padding)
    ensures !tile ==> layer.placements == [PlacementOrigin(width, height, wmWidth, wmHeight, position)]
  {
    if tile {
      layer := TileWatermark(width, height, wmWidth, wmHeight, padding);
    } else {
      var pos := PlacementOrigin(width, height, wmWidth, wmHeight, position);
      layer := Canvas(width, height, [pos]);
    }
  }

  // ---------------------------------------------------------------------------
  // scale_keep_aspect
  // ---------------------------------------------------------------------------

  /** What scale_keep_aspect does with the image. */
  datatype Resize = KeepSize | FitWidth(targetWidth: int) | FitHeight(targetHeight: int)

  /** A keyword argument counts as given when Python finds it truthy: present and non-zero. */
  predicate Given(target: Option<int>)
  {
    target.Some? && target.value != 0
  }

  /** The branch scale_keep_aspect takes for its two optional targets. */
  function ScaleBranch(targetWidth: Option<int>, targetHeight: Option<int>): (r: Resize)
    ensures r.KeepSize? <==> Given(targetWidth) == Given(targetHeight)
    ensures r.FitWidth? <==> Given(targetWidth) && !Given(targetHeight)
    ensures r.FitHeight? <==> Given(targetHeight) && !Given(targetWidth)
    ensures r.FitWidth? ==> r.targetWidth == targetWidth.value
    ensures r.FitHeight? ==> r.targetHeight == targetHeight.value
  {
    if targetWidth.Some? && targetWidth.value != 0 && !(targetHeight.Some? && targetHeight.value != 0) then
      FitWidth(targetWidth.value)
    else if targetHeight.Some? && targetHeight.value != 0 && !(targetWidth.Some? && targetWidth.value != 0) then
      FitHeight(targetHeight.value)
    else
      KeepSize
  }
}
