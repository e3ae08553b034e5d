/**
 * The pixel buffer: a flat array of w*h pixels, four bytes per pixel,
 * row after row, and the one write the engine performs on it
 * (set_pixel_bgra in src/main.c).
 *
 * Every drawing operation of the engine writes the same opaque colour, so
 * what an operation does to the buffer is fully described by the SET of
 * points it paints: `Fill` is that description, and the other modules
 * specify their methods by it.
 */
module Raster {

  type Byte = b: int | 0 <= b < 256

  /** A pixel colour: four channel bytes, in buffer order. */
  type Quad = q: seq<Byte> | |q| == 4 witness [0, 0, 0, 0]

  /** A point of pixel space, (x, y); it need not lie in the buffer. */
  type Point = (int, int)

  /** The annotation colour as stored in the buffer: red in blue-green-red-alpha order. */
  const Ink: Quad := [0, 0, 255, 255]

  /** The same red in red-green-blue-alpha order, the order of the exported image. */
  const Red: Quad := [255, 0, 0, 255]

  /** A buffer of length n holds a w-by-h image with four bytes per pixel. */
  predicate Shape(w: int, h: int, n: int) {
    w > 0 && h > 0 && n == w * h * 4
  }

  predicate InBounds(w: int, h: int, x: int, y: int) {
    0 <= x < w && 0 <= y < h
  }

  /** Index of the first byte of pixel (x, y). */
  function Offset(w: int, x: int, y: int): int {
    (y * w + x) * 4
  }

  /** The pixel that byte i of a buffer of width w belongs to. */
  function PixelOf(w: int, i: int): Point
    requires w > 0
  {
    ((i / 4) % w, (i / 4) / w)
  }

  /** The points of the axis-aligned block [xa, xb] x [ya, yb]; empty when xb < xa or yb < ya. */
  function Block(xa: int, xb: int, ya: int, yb: int): set<Point> {
    set x, y | xa <= x <= xb && ya <= y <= yb :: (x, y)
  }

  lemma BlockMember(xa: int, xb: int, ya: int, yb: int, q: Point)
    ensures q in Block(xa, xb, ya, yb) <==> xa <= q.0 <= xb && ya <= q.1 <= yb
  {
    if xa <= q.0 <= xb && ya <= q.1 <= yb {
      assert q == (q.0, q.1);
    }
  }

  /** A block grows by one column on the right. */
  lemma BlockAddColumn(xa: int, xb: int, ya: int, yb: int)
    requires xa <= xb + 1
    ensures Block(xa, xb, ya, yb) + Block(xb + 1, xb + 1, ya, yb) == Block(xa, xb + 1, ya, yb)
  {
    var grown := Block(xa, xb + 1, ya, yb);
    forall q | q in grown
      ensures q in Block(xa, xb, ya, yb) + Block(xb + 1, xb + 1, ya, yb)
    {
      BlockMember(xa, xb + 1, ya, yb, q);
      BlockMember(xa, xb, ya, yb, q);
      BlockMember(xb + 1, xb + 1, ya, yb, q);
    }
  }

  /** A block grows by one row at the bottom. */
  lemma BlockAddRow(xa: int, xb: int, ya: int, yb: int)
    requires ya <= yb + 1
    ensures Block(xa, xb, ya, yb) + Block(xa, xb, yb + 1, yb + 1) == Block(xa, xb, ya, yb + 1)
  {
    var grown := Block(xa, xb, ya, yb + 1);
    forall q | q in grown
      ensures q in Block(xa, xb, ya, yb) + Block(xa, xb, yb + 1, yb + 1)
    {
      BlockMember(xa, xb, ya, yb + 1, q);
      BlockMember(xa, xb, ya, yb, q);
      BlockMember(xa, xb, yb + 1, yb + 1, q);
    }
  }

  lemma BlockSingle(x: int, y: int)
    ensures Block(x, x, y, y) == {(x, y)}
  {
    BlockMember(x, x, y, y, (x, y));
  }

  /**
   * The buffer s after colour c has been written at every point of pts that
   * lies in the w-by-h image; points outside the image change nothing.
   */
  function Fill(s: seq<Byte>, w: int, h: int, pts: set<Point>, c: Quad): (r: seq<Byte>)
    requires Shape(w, h, |s|)
    ensures |r| == |s|
  {
    seq(|s|, i requires 0 <= i < |s| => if PixelOf(w, i) in pts then c[i % 4] else s[i])
  }

  // ---------------------------------------------------------------------
  // Index arithmetic
  // ---------------------------------------------------------------------

  lemma DivModUnique(n: int, d: int, q: int, r: int)
    requires d > 0 && 0 <= r < d && n == q * d + r
    ensures n / d == q && n % d == r
  {
    var q', r' := n / d, n % d;
    assert q' * d + r' == q * d + r;
    if q' > q {
      MulAtLeast(q' - q, d);
    } else if q' < q {
      MulAtLeast(q - q', d);
    }
  }

  lemma MulAtLeast(a: int, d: int)
    requires a >= 1 && d > 0
    ensures a * d >= d
  {
  }

  /** Row y of a w-by-h image starts at or after pixel 0 and ends at or before pixel w*h. */
  lemma RowBound(w: int, h: int, y: int)
    requires w > 0 && 0 <= y < h
    ensures 0 <= y * w && y * w + w <= w * h
  {
    MulAtLeast(h - y, w);
    assert (h - y) * w == w * h - y * w;
    assert y == 0 || y * w >= w by {
      if y > 0 {
        MulAtLeast(y, w);
      }
    }
  }

  /** The four bytes of an in-bounds pixel lie in the buffer and map back to that pixel. */
  lemma OffsetInBuffer(w: int, h: int, x: int, y: int, k: int)
    requires w > 0 && h > 0 && InBounds(w, h, x, y) && 0 <= k < 4
    ensures 0 <= Offset(w, x, y) + k < w * h * 4
    ensures PixelOf(w, Offset(w, x, y) + k) == (x, y)
    ensures (Offset(w, x, y) + k) % 4 == k
  {
    var n := y * w + x;
    RowBound(w, h, y);
    assert 0 <= n < w * h;
    assert Offset(w, x, y) + k == n * 4 + k;
    DivModUnique(n * 4 + k, 4, n, k);
    DivModUnique(n, w, y, x);
  }

  /** Every byte of a well-shaped buffer belongs to an in-bounds pixel, at its channel i % 4. */
  lemma PixelOfInBuffer(w: int, h: int, i: int)
    requires w > 0 && h > 0 && 0 <= i < w * h * 4
    ensures InBounds(w, h, PixelOf(w, i).0, PixelOf(w, i).1)
    ensures i == Offset(w, PixelOf(w, i).0, PixelOf(w, i).1) + i % 4
  {
    var n := i / 4;
    var x, y := n % w, n / w;
    assert n < w * h;
    assert n == y * w + x;
  }

  /** No other in-bounds pixel and channel owns byte i: PixelOf and i % 4 are the only ones. */
  lemma PixelOfUnique(w: int, h: int, i: int, x: int, y: int, k: int)
    requires w > 0 && h > 0 && InBounds(w, h, x, y) && 0 <= k < 4
    requires i == Offset(w, x, y) + k
    ensures PixelOf(w, i) == (x, y) && i % 4 == k
  {
    OffsetInBuffer(w, h, x, y, k);
  }

  // ---------------------------------------------------------------------
  // Properties of Fill
  // ---------------------------------------------------------------------

  /** What Fill leaves at the bytes of one in-bounds pixel. */
  lemma FillAt(s: seq<Byte>, w: int, h: int, pts: set<Point>, c: Quad, x: int, y: int, k: int)
    requires Shape(w, h, |s|) && InBounds(w, h, x, y) && 0 <= k < 4
    ensures 0 <= Offset(w, x, y) + k < |s|
    ensures Fill(s, w, h, pts, c)[Offset(w, x, y) + k]
            == if (x, y) in pts then c[k] else s[Offset(w, x, y) + k]
  {
    OffsetInBuffer(w, h, x, y, k);
  }

  /** Painting nothing, or only points outside the image, leaves the buffer as it was. */
  lemma {:induction false} FillOutside(s: seq<Byte>, w: int, h: int, pts: set<Point>, c: Quad)
    requires Shape(w, h, |s|)
    requires forall p | p in pts :: !InBounds(w, h, p.0, p.1)
    ensures Fill(s, w, h, pts, c) == s
  {
    forall i | 0 <= i < |s|
      ensures Fill(s, w, h, pts, c)[i] == s[i]
    {
      PixelOfInBuffer(w, h, i);
    }
  }

  /** Two fills with one colour amount to one fill of the union: the order of the writes does not matter. */
  lemma FillUnion(s: seq<Byte>, w: int, h: int, a: set<Point>, b: set<Point>, c: Quad)
    requires Shape(w, h, |s|)
    ensures Fill(Fill(s, w, h, a, c), w, h, b, c) == Fill(s, w, h, a + b, c)
  {
  }

  /** Only the bytes of painted in-bounds pixels differ from the original. */
  lemma FillFrame(s: seq<Byte>, w: int, h: int, pts: set<Point>, c: Quad, i: int)
    requires Shape(w, h, |s|) && 0 <= i < |s|
    requires Fill(s, w, h, pts, c)[i] != s[i]
    ensures PixelOf(w, i) in pts
    ensures InBounds(w, h, PixelOf(w, i).0, PixelOf(w, i).1)
  {
    PixelOfInBuffer(w, h, i);
  }

  // ---------------------------------------------------------------------
  // set_pixel_bgra
  // ---------------------------------------------------------------------

  /**
   * Write the annotation colour at (x, y) when that pixel is in the image;
   * a point outside the image is silently ignored.
   */
  method SetPixel(data: array<Byte>, w: int, h: int, x: int, y: int)
    requires Shape(w, h, data.Length)
    modifies data
    ensures data[..] == Fill(old(data[..]), w, h, {(x, y)}, Ink)
    ensures !InBounds(w, h, x, y) ==> data[..] == old(data[..])
    ensures InBounds(w, h, x, y) ==>
              0 <= Offset(w, x, y) && Offset(w, x, y) + 4 <= data.Length &&
              data[Offset(w, x, y)..Offset(w, x, y) + 4] == Ink &&
              forall i | 0 <= i < data.Length && !(Offset(w, x, y) <= i < Offset(w, x, y) + 4) ::
                data[i] == old(data[i])
  {
    ghost var s := data[..];
    if x < 0 || x >= w || y < 0 || y >= h {
      FillOutside(s, w, h, {(x, y)}, Ink);
      return;
    }
    OffsetInBuffer(w, h, x, y, 0);
    OffsetInBuffer(w, h, x, y, 3);
    var idx := (y * w + x) * 4;
    data[idx] := 0;
    data[idx + 1] := 0;
    data[idx + 2] := 255;
    data[idx + 3] := 255;
    forall i | 0 <= i < data.Length
      ensures data[i] == Fill(s, w, h, {(x, y)}, Ink)[i]
    {
      PixelOfInBuffer(w, h, i);
      if idx <= i < idx + 4 {
        OffsetInBuffer(w, h, x, y, i - idx);
      }
    }
  }
}
