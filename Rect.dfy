/**
 * The rectangle commit of src/main.c:118-129: the two corners of a
 * gesture are put in min/max order per axis, then every x of the top and
 * bottom edges gets a 3-pixel vertical run of ink, and every y of the left
 * and right edges a 3-pixel horizontal run.
 */
module Rect {
  import opened Raster

  /** The corners of a gesture in min/max order per axis, as the commit computes them.
      Throughout, (sx, sy) is where the gesture started and (ex, ey) where it was released. */
  datatype Bounds = Bounds(xmin: int, xmax: int, ymin: int, ymax: int)

  function Normalize(sx: int, sy: int, ex: int, ey: int): (r: Bounds)
    ensures r.xmin <= r.xmax && r.ymin <= r.ymax
    ensures {r.xmin, r.xmax} == {sx, ex} && {r.ymin, r.ymax} == {sy, ey}
  {
    Bounds(if ex < sx then ex else sx, if ex > sx then ex else sx,
           if ey < sy then ey else sy, if ey > sy then ey else sy)
  }

  /**
   * The points the commit paints: two horizontal bands of height 3 centred
   * on the top and bottom rows, over the columns xmin..xmax, and two
   * vertical bands of width 3 centred on the left and right columns, over
   * the rows ymin..ymax.
   */
  function Outline(sx: int, sy: int, ex: int, ey: int): set<Point> {
    var b := Normalize(sx, sy, ex, ey);
    Bands(b) + Sides(b)
  }

  /** What the first commit loop paints: the bands of height 3 on the top and bottom rows. */
  function Bands(b: Bounds): set<Point> {
    Block(b.xmin, b.xmax, b.ymin - 1, b.ymin + 1) + Block(b.xmin, b.xmax, b.ymax - 1, b.ymax + 1)
  }

  /** What the second commit loop paints: the bands of width 3 on the left and right columns. */
  function Sides(b: Bounds): set<Point> {
    Block(b.xmin - 1, b.xmin + 1, b.ymin, b.ymax) + Block(b.xmax - 1, b.xmax + 1, b.ymin, b.ymax)
  }

  /** Near(c, v): v lies within one unit of c. */
  predicate Near(c: int, v: int) {
    c - 1 <= v <= c + 1
  }

  /**
   * Membership in the outline, point by point: q is painted exactly when
   * it is within one row of the top or bottom edge and within the columns
   * of the rectangle, or within one column of the left or right edge and
   * within its rows.
   */
  lemma OutlineMember(sx: int, sy: int, ex: int, ey: int, q: Point)
    ensures var b := Normalize(sx, sy, ex, ey);
      q in Outline(sx, sy, ex, ey) <==>
        (b.xmin <= q.0 <= b.xmax && (Near(b.ymin, q.1) || Near(b.ymax, q.1))) ||
        (b.ymin <= q.1 <= b.ymax && (Near(b.xmin, q.0) || Near(b.xmax, q.0)))
  {
    var b := Normalize(sx, sy, ex, ey);
    BlockMember(b.xmin, b.xmax, b.ymin - 1, b.ymin + 1, q);
    BlockMember(b.xmin, b.xmax, b.ymax - 1, b.ymax + 1, q);
    BlockMember(b.xmin - 1, b.xmin + 1, b.ymin, b.ymax, q);
    BlockMember(b.xmax - 1, b.xmax + 1, b.ymin, b.ymax, q);
  }

  /** The painted outline does not depend on which two opposite corners the gesture used, nor in which order. */
  lemma OutlineSymmetric(sx: int, sy: int, ex: int, ey: int)
    ensures Outline(sx, sy, ex, ey) == Outline(ex, ey, sx, sy)
    ensures Outline(sx, sy, ex, ey) == Outline(sx, ey, ex, sy)
  {
    var b := Normalize(sx, sy, ex, ey);
    assert Normalize(ex, ey, sx, sy) == b;
    assert Normalize(sx, ey, ex, sy) == b;
    var o, o1, o2 := Outline(sx, sy, ex, ey), Outline(ex, ey, sx, sy), Outline(sx, ey, ex, sy);
    forall q
      ensures (q in o <==> q in o1) && (q in o <==> q in o2)
    {
      OutlineMember(sx, sy, ex, ey, q);
      OutlineMember(ex, ey, sx, sy, q);
      OutlineMember(sx, ey, ex, sy, q);
    }
  }

  /**
   * The outline is closed: every point of the four edges of the rectangle,
   * corners included, is painted together with its neighbours across the edge.
   */
  lemma OutlineClosed(sx: int, sy: int, ex: int, ey: int, x: int, y: int, t: int)
    requires -1 <= t <= 1
    ensures var b := Normalize(sx, sy, ex, ey);
      (b.xmin <= x <= b.xmax ==> (x, b.ymin + t) in Outline(sx, sy, ex, ey) && (x, b.ymax + t) in Outline(sx, sy, ex, ey)) &&
      (b.ymin <= y <= b.ymax ==> (b.xmin + t, y) in Outline(sx, sy, ex, ey) && (b.xmax + t, y) in Outline(sx, sy, ex, ey))
  {
  }

  /**
   * The outline is hollow and tight: nothing is painted more than one unit
   * outside the rectangle or more than one unit inside its edges, and the
   * four outermost corner pixels are left out.
   */
  lemma OutlineExtent(sx: int, sy: int, ex: int, ey: int, q: Point)
    requires q in Outline(sx, sy, ex, ey)
    ensures var b := Normalize(sx, sy, ex, ey);
      b.xmin - 1 <= q.0 <= b.xmax + 1 && b.ymin - 1 <= q.1 <= b.ymax + 1 &&
      !(b.xmin + 1 < q.0 < b.xmax - 1 && b.ymin + 1 < q.1 < b.ymax - 1) &&
      q != (b.xmin - 1, b.ymin - 1) && q != (b.xmax + 1, b.ymin - 1) &&
      q != (b.xmin - 1, b.ymax + 1) && q != (b.xmax + 1, b.ymax + 1)
  {
    OutlineMember(sx, sy, ex, ey, q);
  }

  /**
   * A gesture released where it started paints a plus sign of five pixels
   * centred on the point, not the 3x3 block the freehand brush stamps.
   */
  lemma PointOutline(x: int, y: int)
    ensures Outline(x, y, x, y) == {(x, y - 1), (x - 1, y), (x, y), (x + 1, y), (x, y + 1)}
  {
    var o := Outline(x, y, x, y);
    forall q
      ensures q in o <==> q in {(x, y - 1), (x - 1, y), (x, y), (x + 1, y), (x, y + 1)}
    {
      OutlineMember(x, y, x, y, q);
    }
  }

  // ---------------------------------------------------------------------
  // The commit loops
  // ---------------------------------------------------------------------

  /**
   * The commit of a rectangle gesture that started at (sx, sy) and was
   * released at (ex, ey), with the two loops of the source.
   */
  method CommitRect(data: array<Byte>, w: int, h: int, sx: int, sy: int, ex: int, ey: int)
    requires Shape(w, h, data.Length)
    modifies data
    ensures data[..] == Fill(old(data[..]), w, h, Outline(sx, sy, ex, ey), Ink)
  {
    ghost var s := data[..];
    var xmin := if ex < sx then ex else sx;
    var xmax := if ex > sx then ex else sx;
    var ymin := if ey < sy then ey else sy;
    var ymax := if ey > sy then ey else sy;
    ghost var b := Bounds(xmin, xmax, ymin, ymax);
    assert b == Normalize(sx, sy, ex, ey);
    PaintRows(data, w, h, xmin, xmax, ymin, ymax);
    PaintColumns(data, w, h, xmin, xmax, ymin, ymax);
    FillUnion(s, w, h, Bands(b), Sides(b), Ink);
  }

  /** Two single-pixel writes after a fill of a union extend each part by one point. */
  lemma FillTwo(s: seq<Byte>, w: int, h: int, a: set<Point>, b: set<Point>, p: Point, q: Point)
    requires Shape(w, h, |s|)
    ensures Fill(Fill(Fill(s, w, h, a + b, Ink), w, h, {p}, Ink), w, h, {q}, Ink)
         == Fill(s, w, h, (a + {p}) + (b + {q}), Ink)
  {
    FillUnion(s, w, h, a + b, {p}, Ink);
    FillUnion(s, w, h, a + b + {p}, {q}, Ink);
    assert a + b + {p} + {q} == (a + {p}) + (b + {q});
  }

  /** Filling a union of two parts, then a union of two more, fills the pairwise unions. */
  lemma FillPairs(s: seq<Byte>, w: int, h: int, a: set<Point>, b: set<Point>, c: set<Point>, d: set<Point>)
    requires Shape(w, h, |s|)
    ensures Fill(Fill(s, w, h, a + b, Ink), w, h, c + d, Ink) == Fill(s, w, h, (a + c) + (b + d), Ink)
  {
    FillUnion(s, w, h, a + b, c + d, Ink);
    assert a + b + (c + d) == (a + c) + (b + d);
  }

  /** The first loop of the commit: 3-pixel vertical runs centred on rows ymin and ymax, for x from xmin to xmax. */
  method PaintRows(data: array<Byte>, w: int, h: int, xmin: int, xmax: int, ymin: int, ymax: int)
    requires Shape(w, h, data.Length) && xmin <= xmax
    modifies data
    ensures data[..] == Fill(old(data[..]), w, h, Bands(Bounds(xmin, xmax, ymin, ymax)), Ink)
  {
    ghost var s := data[..];
    FillOutside(s, w, h, {}, Ink);
    assert Block(xmin, xmin - 1, ymin - 1, ymin + 1) == {} && Block(xmin, xmin - 1, ymax - 1, ymax + 1) == {};
    for x := xmin to xmax + 1
      invariant data[..] == Fill(s, w, h, Block(xmin, x - 1, ymin - 1, ymin + 1) + Block(xmin, x - 1, ymax - 1, ymax + 1), Ink)
    {
      PaintSpanPair(data, w, h, x, ymin, x, ymax, true);
      FillPairs(s, w, h, Block(xmin, x - 1, ymin - 1, ymin + 1), Block(xmin, x - 1, ymax - 1, ymax + 1),
                Block(x, x, ymin - 1, ymin + 1), Block(x, x, ymax - 1, ymax + 1));
      BlockAddColumn(xmin, x - 1, ymin - 1, ymin + 1);
      BlockAddColumn(xmin, x - 1, ymax - 1, ymax + 1);
    }
  }

  /** The second loop of the commit: 3-pixel horizontal runs centred on columns xmin and xmax, for y from ymin to ymax. */
  method PaintColumns(data: array<Byte>, w: int, h: int, xmin: int, xmax: int, ymin: int, ymax: int)
    requires Shape(w, h, data.Length) && ymin <= ymax
    modifies data
    ensures data[..] == Fill(old(data[..]), w, h, Sides(Bounds(xmin, xmax, ymin, ymax)), Ink)
  {
    ghost var s := data[..];
    FillOutside(s, w, h, {}, Ink);
    assert Block(xmin - 1, xmin + 1, ymin, ymin - 1) == {} && Block(xmax - 1, xmax + 1, ymin, ymin - 1) == {};
    for y := ymin to ymax + 1
      invariant data[..] == Fill(s, w, h, Block(xmin - 1, xmin + 1, ymin, y - 1) + Block(xmax - 1, xmax + 1, ymin, y - 1), Ink)
    {
      PaintSpanPair(data, w, h, xmin, y, xmax, y, false);
      FillPairs(s, w, h, Block(xmin - 1, xmin + 1, ymin, y - 1), Block(xmax - 1, xmax + 1, ymin, y - 1),
                Block(xmin - 1, xmin + 1, y, y), Block(xmax - 1, xmax + 1, y, y));
      BlockAddRow(xmin - 1, xmin + 1, ymin, y - 1);
      BlockAddRow(xmax - 1, xmax + 1, ymin, y - 1);
    }
  }

  /** The 3-pixel run centred on (x, y): vertical when `vertical`, horizontal otherwise. */
  function Span(x: int, y: int, vertical: bool): set<Point> {
    if vertical then Block(x, x, y - 1, y + 1) else Block(x - 1, x + 1, y, y)
  }

  /** The pixel at offset t of that run. */
  function SpanPixel(x: int, y: int, vertical: bool, t: int): Point {
    if vertical then (x, y + t) else (x + t, y)
  }

  /** The part of that run at offsets -1 .. t-1. */
  function SpanPart(x: int, y: int, vertical: bool, t: int): set<Point> {
    if vertical then Block(x, x, y - 1, y + t - 1) else Block(x - 1, x + t - 1, y, y)
  }

  lemma SpanPartGrows(x: int, y: int, vertical: bool, t: int)
    requires -1 <= t <= 1
    ensures SpanPart(x, y, vertical, t) + {SpanPixel(x, y, vertical, t)} == SpanPart(x, y, vertical, t + 1)
  {
    if vertical {
      BlockSingle(x, y + t);
      BlockAddRow(x, x, y - 1, y + t - 1);
    } else {
      BlockSingle(x + t, y);
      BlockAddColumn(x - 1, x + t - 1, y, y);
    }
  }

  /**
   * The inner loop of either pass: for t = -1, 0, 1 write the pixel at
   * offset t of the run centred on (x0, y0), then of the run centred on (x1, y1).
   */
  method PaintSpanPair(data: array<Byte>, w: int, h: int, x0: int, y0: int, x1: int, y1: int, vertical: bool)
    requires Shape(w, h, data.Length)
    modifies data
    ensures data[..] == Fill(old(data[..]), w, h, Span(x0, y0, vertical) + Span(x1, y1, vertical), Ink)
  {
    ghost var s := data[..];
    FillOutside(s, w, h, {}, Ink);
    assert SpanPart(x0, y0, vertical, -1) == {} && SpanPart(x1, y1, vertical, -1) == {};
    for t := -1 to 2
      invariant data[..] == Fill(s, w, h, SpanPart(x0, y0, vertical, t) + SpanPart(x1, y1, vertical, t), Ink)
    {
      var p, q := SpanPixel(x0, y0, vertical, t), SpanPixel(x1, y1, vertical, t);
      SetPixel(data, w, h, p.0, p.1);
      SetPixel(data, w, h, q.0, q.1);
      FillTwo(s, w, h, SpanPart(x0, y0, vertical, t), SpanPart(x1, y1, vertical, t), p, q);
      SpanPartGrows(x0, y0, vertical, t);
      SpanPartGrows(x1, y1, vertical, t);
    }
  }
}
