/**
 * The channel-order conversion between the codec's red-green-blue-alpha
 * order and the display's blue-green-red-alpha order: bytes 0 and 2 of
 * every pixel change places. The same loop runs once after the image is
 * loaded and once before it is exported (src/main.c:50-54, 94-98).
 */
module Channels {
  import opened Raster

  /** The buffer s with bytes 0 and 2 of every pixel exchanged. */
  function SwapRB(s: seq<Byte>): (r: seq<Byte>)
    requires |s| % 4 == 0
    ensures |r| == |s|
  {
    seq(|s|, i requires 0 <= i < |s| =>
      if i % 4 == 0 then s[i + 2] else if i % 4 == 2 then s[i - 2] else s[i])
  }

  /** One colour with its bytes 0 and 2 exchanged. */
  function SwapQuad(c: Quad): Quad {
    [c[2], c[1], c[0], c[3]]
  }

  /** Pixel by pixel: channels 0 and 2 trade places, channels 1 and 3 stay. */
  lemma SwapRBAt(s: seq<Byte>, p: int)
    requires |s| % 4 == 0 && 0 <= p && 4 * p + 4 <= |s|
    ensures SwapRB(s)[4 * p] == s[4 * p + 2]
    ensures SwapRB(s)[4 * p + 1] == s[4 * p + 1]
    ensures SwapRB(s)[4 * p + 2] == s[4 * p]
    ensures SwapRB(s)[4 * p + 3] == s[4 * p + 3]
  {
  }

  /** Converting twice gives back the original buffer, byte for byte. */
  lemma SwapRBInvolution(s: seq<Byte>)
    requires |s| % 4 == 0
    ensures SwapRB(SwapRB(s)) == s
  {
    var r := SwapRB(SwapRB(s));
    forall i | 0 <= i < |s|
      ensures r[i] == s[i]
    {
      var p := i / 4;
      SwapRBAt(s, p);
      SwapRBAt(SwapRB(s), p);
    }
  }

  /** The ink written in display order reads as red in the exported order. */
  lemma InkExportsAsRed()
    ensures SwapQuad(Ink) == Red
    ensures SwapQuad(Red) == Ink
  {
  }

  /** Converting a painted buffer is painting the converted buffer with the converted colour. */
  lemma SwapRBFill(s: seq<Byte>, w: int, h: int, pts: set<Point>, c: Quad)
    requires Shape(w, h, |s|)
    ensures |s| % 4 == 0
    ensures SwapRB(Fill(s, w, h, pts, c)) == Fill(SwapRB(s), w, h, pts, SwapQuad(c))
  {
    assert |s| == 4 * (w * h);
    var a := SwapRB(Fill(s, w, h, pts, c));
    var b := Fill(SwapRB(s), w, h, pts, SwapQuad(c));
    forall i | 0 <= i < |s|
      ensures a[i] == b[i]
    {
      if i % 4 == 0 {
        assert PixelOf(w, i + 2) == PixelOf(w, i) by {
          assert (i + 2) / 4 == i / 4;
        }
      } else if i % 4 == 2 {
        assert PixelOf(w, i - 2) == PixelOf(w, i) by {
          assert (i - 2) / 4 == i / 4;
        }
      }
    }
  }

  /**
   * A whole session seen from outside: an image is converted to display
   * order on load, annotated, and converted back on export. The result is
   * the original image with red at every painted pixel and every other byte
   * as it was loaded.
   */
  lemma LoadAnnotateExport(s: seq<Byte>, w: int, h: int, pts: set<Point>)
    requires Shape(w, h, |s|)
    ensures |s| % 4 == 0
    ensures SwapRB(Fill(SwapRB(s), w, h, pts, Ink)) == Fill(s, w, h, pts, Red)
  {
    assert |s| == 4 * (w * h);
    SwapRBFill(SwapRB(s), w, h, pts, Ink);
    SwapRBInvolution(s);
  }

  /** The conversion loop of src/main.c, run in place over the w*h*4 bytes of the buffer. */
  method SwapChannels(data: array<Byte>, w: int, h: int)
    requires Shape(w, h, data.Length)
    modifies data
    ensures data.Length % 4 == 0
    ensures data[..] == SwapRB(old(data[..]))
  {
    ghost var s := data[..];
    var n := w * h * 4;
    assert n == 4 * (w * h);
    var i := 0;
    ghost var p := 0;
    while i < n
      invariant 0 <= p <= w * h && i == 4 * p
      invariant forall k | 0 <= k < i :: data[k] == SwapRB(s)[k]
      invariant forall k | i <= k < n :: data[k] == s[k]
    {
      SwapRBAt(s, p);
      var r := data[i];
      data[i] := data[i + 2];
      data[i + 2] := r;
      i := i + 4;
      p := p + 1;
    }
  }
}
