/**
 * The thick-line rasteriser draw_line_buffer (src/main.c:24-37): an
 * integer Bresenham walk from (x0, y0) to (x1, y1) that stamps a 3x3 block
 * of ink centred on every point it visits.
 *
 * The walk is specified by `LinePath`, the sequence of points the loop
 * visits, computed from the loop's own state (`Cursor`) and step (`Next`).
 * `OnWalk` is the loop invariant that ties the error term to the distance
 * still to go; it gives termination, the end point, and the step shape.
 */
module Line {
  import opened Raster

  function Abs(n: int): int {
    if n < 0 then -n else n
  }

  /** The two endpoints of one call, and the constants the C code derives from them. */
  datatype Segment = Segment(x0: int, y0: int, x1: int, y1: int) {
    function Dx(): int { Abs(x1 - x0) }
    function Dy(): int { -Abs(y1 - y0) }
    function Sx(): int { if x0 < x1 then 1 else -1 }
    function Sy(): int { if y0 < y1 then 1 else -1 }
  }

  /** The loop variables of draw_line_buffer: the current point and the error term. */
  datatype Cursor = Cursor(x: int, y: int, err: int)

  function Start(g: Segment): Cursor {
    Cursor(g.x0, g.y0, g.Dx() + g.Dy())
  }

  /** Distance still to go along x, measured in the direction of travel. */
  function RemX(g: Segment, c: Cursor): int {
    if g.Sx() == 1 then g.x1 - c.x else c.x - g.x1
  }

  /** Distance still to go along y, measured in the direction of travel. */
  function RemY(g: Segment, c: Cursor): int {
    if g.Sy() == 1 then g.y1 - c.y else c.y - g.y1
  }

  predicate AtEnd(g: Segment, c: Cursor) {
    c.x == g.x1 && c.y == g.y1
  }

  /**
   * The error term in terms of the distances left: with dx, dy the
   * (non-negative) total distances and a, b the remaining ones.
   */
  function ErrFor(dx: int, dy: int, a: int, b: int): int {
    dx - dy - dx * b + dy * a
  }

  /**
   * The invariant of the walk: the cursor has not passed the end point on
   * either axis, and the error term is determined by the distances left.
   */
  predicate OnWalk(g: Segment, c: Cursor) {
    var a := RemX(g, c);
    var b := RemY(g, c);
    0 <= a <= g.Dx() && 0 <= b <= -g.Dy() &&
    c.err == ErrFor(g.Dx(), -g.Dy(), a, b)
  }

  /** One pass through the loop body after the endpoint test. */
  function Next(g: Segment, c: Cursor): Cursor {
    var e2 := 2 * c.err;
    var err1 := if e2 >= g.Dy() then c.err + g.Dy() else c.err;
    var x := if e2 >= g.Dy() then c.x + g.Sx() else c.x;
    var err2 := if e2 <= g.Dx() then err1 + g.Dx() else err1;
    var y := if e2 <= g.Dx() then c.y + g.Sy() else c.y;
    Cursor(x, y, err2)
  }

  /** q is one step of the walk from p: each axis stays or moves one unit towards the end, and not both stay. */
  predicate Advance(g: Segment, p: Point, q: Point) {
    (q.0 == p.0 || q.0 == p.0 + g.Sx()) &&
    (q.1 == p.1 || q.1 == p.1 + g.Sy()) &&
    p != q
  }

  /** p and q are distinct 8-neighbours. */
  predicate Adjacent(p: Point, q: Point) {
    p != q && Abs(p.0 - q.0) <= 1 && Abs(p.1 - q.1) <= 1
  }

  lemma StartOnWalk(g: Segment)
    ensures OnWalk(g, Start(g))
    ensures RemX(g, Start(g)) == g.Dx() && RemY(g, Start(g)) == -g.Dy()
  {
    var c := Start(g);
    assert g.Dx() * -g.Dy() == -g.Dy() * g.Dx();
  }

  lemma MulNonNeg(a: int, b: int)
    requires a >= 0 && b >= 0
    ensures a * b >= 0
  {
  }

  /**
   * These two lemmas show that the x-test fails once a = 0 and the y-test
   * fails once b = 0, so the walk never passes the end point.
   */
  lemma NoStepPastX(dx: int, dy: int, b: int, err: int)
    requires 0 <= dx && 1 <= b <= dy
    requires err == ErrFor(dx, dy, 0, b)
    ensures 2 * err < -dy
  {
    MulNonNeg(dx, b - 1);
    assert dx * b == dx * (b - 1) + dx;
  }

  lemma NoStepPastY(dx: int, dy: int, a: int, err: int)
    requires 0 <= dy && 1 <= a <= dx
    requires err == ErrFor(dx, dy, a, 0)
    ensures 2 * err > dx
  {
    MulNonNeg(dy, a - 1);
    assert dy * a == dy * (a - 1) + dy;
  }

  /**
   * The arithmetic of one loop pass, with dx, dy the non-negative total
   * distances, a, b the distances left and err = ErrFor(dx, dy, a, b):
   * an axis moves only while it has distance left, at least one axis moves,
   * and the updated error term is again given by the new distances.
   */
  lemma PassArith(dx: int, dy: int, a: int, b: int, err: int)
    requires 0 <= a <= dx && 0 <= b <= dy && (a != 0 || b != 0)
    requires err == ErrFor(dx, dy, a, b)
    ensures 2 * err >= -dy ==> a >= 1
    ensures 2 * err <= dx ==> b >= 1
    ensures 2 * err >= -dy || 2 * err <= dx
    ensures var a' := if 2 * err >= -dy then a - 1 else a;
            var b' := if 2 * err <= dx then b - 1 else b;
            err + (if 2 * err >= -dy then -dy else 0) + (if 2 * err <= dx then dx else 0)
              == ErrFor(dx, dy, a', b')
  {
    if a == 0 {
      NoStepPastX(dx, dy, b, err);
    }
    if b == 0 {
      NoStepPastY(dx, dy, a, err);
    }
    assert dx * (b - 1) == dx * b - dx;
    assert dy * (a - 1) == dy * a - dy;
  }

  /**
   * Away from the end point, one loop pass keeps the invariant, moves each
   * axis by zero or one unit towards the end, moves at least one axis, and
   * so shortens the distance left.
   */
  lemma NextStep(g: Segment, c: Cursor)
    requires OnWalk(g, c) && !AtEnd(g, c)
    ensures OnWalk(g, Next(g, c))
    ensures RemX(g, Next(g, c)) + RemY(g, Next(g, c)) < RemX(g, c) + RemY(g, c)
    ensures Advance(g, (c.x, c.y), (Next(g, c).x, Next(g, c).y))
  {
    var dx, dy := g.Dx(), -g.Dy();
    var a, b := RemX(g, c), RemY(g, c);
    PassArith(dx, dy, a, b, c.err);
    var stepX, stepY := 2 * c.err >= -dy, 2 * c.err <= dx;
    var a', b' := if stepX then a - 1 else a, if stepY then b - 1 else b;
    var c' := Next(g, c);
    assert RemX(g, c') == a' && RemY(g, c') == b';
    assert c'.err == ErrFor(dx, dy, a', b');
  }

  /**
   * The points the loop visits from cursor c when it is allowed at most n
   * more passes. Walk is total; `WalkEnds` shows that n = RemX + RemY
   * passes always suffice to reach the end point, which is the loop's
   * termination argument.
   */
  function Walk(g: Segment, c: Cursor, n: nat): seq<Point>
    decreases n
  {
    if AtEnd(g, c) || n == 0 then [(c.x, c.y)]
    else [(c.x, c.y)] + Walk(g, Next(g, c), n - 1)
  }

  /** The points draw_line_buffer visits, from (x0, y0) to (x1, y1). */
  function LinePath(g: Segment): seq<Point> {
    Walk(g, Start(g), g.Dx() - g.Dy())
  }

  // ---------------------------------------------------------------------
  // Properties of the walk
  // ---------------------------------------------------------------------

  /** One loop pass, field by field, in terms of the constants the loop computed. */
  lemma NextFields(g: Segment, c: Cursor, dx: int, dy: int, sx: int, sy: int)
    requires dx == g.Dx() && dy == g.Dy() && sx == g.Sx() && sy == g.Sy()
    ensures Next(g, c).x == if 2 * c.err >= dy then c.x + sx else c.x
    ensures Next(g, c).y == if 2 * c.err <= dx then c.y + sy else c.y
    ensures Next(g, c).err == c.err + (if 2 * c.err >= dy then dy else 0) + (if 2 * c.err <= dx then dx else 0)
  {
  }

  /** Away from the end and with budget left, the walk is the current point followed by the walk from the next cursor. */
  lemma WalkCons(g: Segment, c: Cursor, n: nat, done: seq<Point>)
    requires !AtEnd(g, c) && n > 0
    ensures done + Walk(g, c, n) == (done + [(c.x, c.y)]) + Walk(g, Next(g, c), n - 1)
  {
  }

  /** With a budget of at least the distance left, the walk runs from c to the end point. */
  lemma {:induction false} WalkEnds(g: Segment, c: Cursor, n: nat)
    requires OnWalk(g, c) && n >= RemX(g, c) + RemY(g, c)
    ensures |Walk(g, c, n)| >= 1 && Walk(g, c, n)[0] == (c.x, c.y)
    ensures Walk(g, c, n)[|Walk(g, c, n)| - 1] == (g.x1, g.y1)
    decreases n
  {
    if !AtEnd(g, c) {
      NextStep(g, c);
      WalkEnds(g, Next(g, c), n - 1);
    }
  }

  lemma {:induction false} WalkSteps(g: Segment, c: Cursor, n: nat)
    requires OnWalk(g, c)
    ensures forall k | 0 <= k < |Walk(g, c, n)| - 1 :: Advance(g, Walk(g, c, n)[k], Walk(g, c, n)[k + 1])
    decreases n
  {
    if !AtEnd(g, c) && n > 0 {
      NextStep(g, c);
      var c' := Next(g, c);
      WalkSteps(g, c', n - 1);
      var p, t := Walk(g, c, n), Walk(g, c', n - 1);
      assert p == [(c.x, c.y)] + t;
      forall k | 0 <= k < |p| - 1
        ensures Advance(g, p[k], p[k + 1])
      {
        if k > 0 {
          assert p[k] == t[k - 1] && p[k + 1] == t[k];
        }
      }
    }
  }

  lemma {:induction false} WalkLength(g: Segment, c: Cursor, n: nat)
    requires OnWalk(g, c) && n >= RemX(g, c) + RemY(g, c)
    ensures Max(RemX(g, c), RemY(g, c)) + 1 <= |Walk(g, c, n)| <= RemX(g, c) + RemY(g, c) + 1
    decreases n
  {
    if !AtEnd(g, c) {
      NextStep(g, c);
      WalkLength(g, Next(g, c), n - 1);
    }
  }

  lemma {:induction false} WalkInBox(g: Segment, c: Cursor, n: nat)
    requires OnWalk(g, c)
    ensures forall p | p in Walk(g, c, n) ::
      0 <= RemX(g, Cursor(p.0, p.1, 0)) <= RemX(g, c) &&
      0 <= RemY(g, Cursor(p.0, p.1, 0)) <= RemY(g, c)
    decreases n
  {
    if !AtEnd(g, c) && n > 0 {
      NextStep(g, c);
      WalkInBox(g, Next(g, c), n - 1);
    }
  }

  function Max(a: int, b: int): int {
    if a < b then b else a
  }

  function Min(a: int, b: int): int {
    if a < b then a else b
  }

  /** The walk starts at (x0, y0) and its last point is (x1, y1). */
  lemma LineEndpoints(g: Segment)
    ensures |LinePath(g)| >= 1
    ensures LinePath(g)[0] == (g.x0, g.y0)
    ensures LinePath(g)[|LinePath(g)| - 1] == (g.x1, g.y1)
  {
    StartOnWalk(g);
    WalkEnds(g, Start(g), g.Dx() - g.Dy());
  }

  /**
   * Every step of the walk moves each coordinate by nothing or by one unit
   * towards the end point, and never stays put: the visited points form a
   * gap-free 8-connected path.
   */
  lemma LineConnected(g: Segment)
    ensures forall k | 0 <= k < |LinePath(g)| - 1 ::
      Advance(g, LinePath(g)[k], LinePath(g)[k + 1]) &&
      Adjacent(LinePath(g)[k], LinePath(g)[k + 1])
  {
    StartOnWalk(g);
    WalkSteps(g, Start(g), g.Dx() - g.Dy());
  }

  /** The walk visits at least one point per unit of the longer axis and at most one per unit of both. */
  lemma LineLength(g: Segment)
    ensures Max(g.Dx(), -g.Dy()) + 1 <= |LinePath(g)| <= g.Dx() - g.Dy() + 1
  {
    StartOnWalk(g);
    WalkLength(g, Start(g), g.Dx() - g.Dy());
  }

  /** Every visited point lies in the bounding box of the two endpoints. */
  lemma LineInBox(g: Segment)
    ensures forall p | p in LinePath(g) ::
      Min(g.x0, g.x1) <= p.0 <= Max(g.x0, g.x1) && Min(g.y0, g.y1) <= p.1 <= Max(g.y0, g.y1)
  {
    StartOnWalk(g);
    WalkInBox(g, Start(g), g.Dx() - g.Dy());
  }

  /** Equal endpoints: the walk is the single point. */
  lemma LineDegenerate(x: int, y: int)
    ensures LinePath(Segment(x, y, x, y)) == [(x, y)]
  {
  }

  // ---------------------------------------------------------------------
  // The brush
  // ---------------------------------------------------------------------

  /** The 3x3 block of points centred on p. */
  function Stamp(p: Point): set<Point> {
    Block(p.0 - 1, p.0 + 1, p.1 - 1, p.1 + 1)
  }

  /** The points covered by stamping the brush at every point of path. */
  function Brush(path: seq<Point>): set<Point> {
    if path == [] then {} else Brush(path[..|path| - 1]) + Stamp(path[|path| - 1])
  }

  lemma BrushSnoc(path: seq<Point>, p: Point)
    ensures Brush(path + [p]) == Brush(path) + Stamp(p)
  {
    assert (path + [p])[..|path|] == path;
  }

  /** q is painted by the brush exactly when it is within one unit, on both axes, of a point of the path. */
  lemma {:induction false} BrushMember(path: seq<Point>, q: Point)
    ensures q in Brush(path) <==>
      exists k :: 0 <= k < |path| && Abs(path[k].0 - q.0) <= 1 && Abs(path[k].1 - q.1) <= 1
  {
    if path != [] {
      var init := path[..|path| - 1];
      BrushMember(init, q);
      assert forall k | 0 <= k < |init| :: init[k] == path[k];
    }
  }

  /** Stamping one more point onto the painted brush paints the brush of the longer path. */
  lemma BrushFill(s: seq<Byte>, w: int, h: int, path: seq<Point>, p: Point)
    requires Shape(w, h, |s|)
    ensures Fill(Fill(s, w, h, Brush(path), Ink), w, h, Stamp(p), Ink) == Fill(s, w, h, Brush(path + [p]), Ink)
  {
    FillUnion(s, w, h, Brush(path), Stamp(p), Ink);
    BrushSnoc(path, p);
  }

  /**
   * After drawing, the whole 3x3 neighbourhood of both endpoints, as far as
   * it lies in the image, holds the ink.
   */
  lemma EndpointsPainted(s: seq<Byte>, w: int, h: int, g: Segment, x: int, y: int, k: int)
    requires Shape(w, h, |s|) && InBounds(w, h, x, y) && 0 <= k < 4
    requires (Abs(x - g.x0) <= 1 && Abs(y - g.y0) <= 1) || (Abs(x - g.x1) <= 1 && Abs(y - g.y1) <= 1)
    ensures 0 <= Offset(w, x, y) + k < |s|
    ensures Fill(s, w, h, Brush(LinePath(g)), Ink)[Offset(w, x, y) + k] == Ink[k]
  {
    var path := LinePath(g);
    LineEndpoints(g);
    if Abs(x - g.x0) <= 1 && Abs(y - g.y0) <= 1 {
      BrushMember(path, (x, y));
    } else {
      assert path[|path| - 1] == (g.x1, g.y1);
      BrushMember(path, (x, y));
    }
    FillAt(s, w, h, Brush(path), Ink, x, y, k);
  }

  /** With equal endpoints exactly the 3x3 block around the point is painted. */
  lemma DegenerateLinePaintsStamp(x: int, y: int)
    ensures Brush(LinePath(Segment(x, y, x, y))) == Stamp((x, y))
  {
    LineDegenerate(x, y);
    assert [(x, y)][..0] == [];
  }

  // ---------------------------------------------------------------------
  // The methods
  // ---------------------------------------------------------------------

  /** The two nested loops of src/main.c:29-31: ink on the 3x3 block around (x, y). */
  method StampAt(data: array<Byte>, w: int, h: int, x: int, y: int)
    requires Shape(w, h, data.Length)
    modifies data
    ensures data[..] == Fill(old(data[..]), w, h, Stamp((x, y)), Ink)
  {
    ghost var s := data[..];
    for i := -1 to 2
      invariant data[..] == Fill(s, w, h, Block(x - 1, x + i - 1, y - 1, y + 1), Ink)
    {
      StampColumn(data, w, h, x + i, y);
      FillUnion(s, w, h, Block(x - 1, x + i - 1, y - 1, y + 1), Block(x + i, x + i, y - 1, y + 1), Ink);
      BlockAddColumn(x - 1, x + i - 1, y - 1, y + 1);
    }
  }

  /** The inner loop of src/main.c:30-31: ink on (x, y - 1), (x, y) and (x, y + 1). */
  method StampColumn(data: array<Byte>, w: int, h: int, x: int, y: int)
    requires Shape(w, h, data.Length)
    modifies data
    ensures data[..] == Fill(old(data[..]), w, h, Block(x, x, y - 1, y + 1), Ink)
  {
    ghost var s := data[..];
    for j := -1 to 2
      invariant data[..] == Fill(s, w, h, Block(x, x, y - 1, y + j - 1), Ink)
    {
      SetPixel(data, w, h, x, y + j);
      FillUnion(s, w, h, Block(x, x, y - 1, y + j - 1), {(x, y + j)}, Ink);
      BlockSingle(x, y + j);
      BlockAddRow(x, x, y - 1, y + j - 1);
    }
  }

  /**
   * draw_line_buffer: walk from (x0, y0) to (x1, y1) and stamp the brush at
   * every visited point. The result is the buffer with the brush's footprint
   * over the whole walk painted; `LinePath` and its lemmas say what the walk is.
   */
  method DrawLine(data: array<Byte>, w: int, h: int, x0: int, y0: int, x1: int, y1: int)
    requires Shape(w, h, data.Length)
    modifies data
    ensures data[..] == Fill(old(data[..]), w, h, Brush(LinePath(Segment(x0, y0, x1, y1))), Ink)
  {
    ghost var s := data[..];
    ghost var g := Segment(x0, y0, x1, y1);
    var dx: int, sx: int := Abs(x1 - x0), if x0 < x1 then 1 else -1;
    var dy: int, sy: int := -Abs(y1 - y0), if y0 < y1 then 1 else -1;
    var err := dx + dy;
    var x, y := x0, y0;
    ghost var done: seq<Point> := [];
    ghost var cur := Start(g);
    ghost var budget: nat := g.Dx() - g.Dy();
    ghost var path := LinePath(g);
    ghost var rest := path;
    StartOnWalk(g);
    FillOutside(s, w, h, {}, Ink);
    while true
      invariant dx == g.Dx() && dy == g.Dy() && sx == g.Sx() && sy == g.Sy()
      invariant cur == Cursor(x, y, err)
      invariant OnWalk(g, cur) && budget >= RemX(g, cur) + RemY(g, cur)
      invariant done + rest == path && rest == Walk(g, cur, budget)
      invariant data[..] == Fill(s, w, h, Brush(done), Ink)
      decreases budget
    {
      StampAt(data, w, h, x, y);
      BrushFill(s, w, h, done, (x, y));
      if x == x1 && y == y1 {
        done := done + [(x, y)];
        break;
      }
      NextStep(g, cur);
      WalkCons(g, cur, budget, done);
      rest := rest[1..];
      NextFields(g, cur, dx, dy, sx, sy);
      done := done + [(x, y)];
      var e2 := 2 * err;
      if e2 >= dy {
        err := err + dy;
        x := x + sx;
      }
      if e2 <= dx {
        err := err + dx;
        y := y + sy;
      }
      cur, budget := Next(g, cur), budget - 1;
    }
  }
}
