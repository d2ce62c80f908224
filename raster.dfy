/**
 * Pixel buffers as the HTML canvas exposes them: `ImageData` (row-major RGBA, four bytes per pixel) and a
 * 2D canvas whose `getImageData` and `putImageData` copy rectangles in and out of its bitmap.
 * Coordinates are integers.
 */
module Raster {
  import opened Wrappers

  /** One channel value of a `Uint8ClampedArray`. */
  type byte = x: int | 0 <= x < 256

  /** A rectangle `{ x, y, w, h }`; `w` and `h` may be negative or zero. */
  datatype Rect = Rect(x: int, y: int, w: int, h: int)

  /** Offset of the first channel of pixel (x, y) in a buffer of width `w` (the source's `idx`). */
  function Idx(w: int, x: int, y: int): int {
    (y * w + x) * 4
  }

  /** Column, row and channel of buffer offset `i` in a buffer of width `w`. */
  function Col(w: nat, i: int): int requires w > 0 { (i / 4) % w }
  function Row(w: nat, i: int): int requires w > 0 { (i / 4) / w }
  function Chan(i: int): int { i % 4 }

  lemma DivModUnique(a: int, b: int, q: int, r: int)
    requires b > 0 && 0 <= r < b && a == q * b + r
    ensures a / b == q && a % b == r
  {
    var q', r' := a / b, a % b;
    assert a == q' * b + r';
    if q' < q {
      MulLe(q' + 1, q, b);
      assert false;
    } else if q < q' {
      MulLe(q + 1, q', b);
      assert false;
    }
  }

  lemma MulLe(a: int, b: int, c: int)
    requires a <= b && c >= 0
    ensures a * c <= b * c
  {
    assert b * c - a * c == (b - a) * c;
  }

  /** The offsets of the four channels of an in-bounds pixel lie in the buffer and decompose back to that pixel. */
  lemma PixelOf(w: nat, h: nat, x: int, y: int, c: int)
    requires 0 <= x < w && 0 <= y < h && 0 <= c < 4
    ensures 0 <= Idx(w, x, y) + c < 4 * w * h
    ensures Col(w, Idx(w, x, y) + c) == x && Row(w, Idx(w, x, y) + c) == y && Chan(Idx(w, x, y) + c) == c
  {
    var p := y * w + x;
    MulLe(y, h - 1, w);
    assert (h - 1) * w == h * w - w;
    assert 0 <= y * w;
    assert p < w * h;
    DivModUnique(p * 4 + c, 4, p, c);
    DivModUnique(p, w, y, x);
  }

  /** Every offset of a w-by-h buffer is a channel of an in-bounds pixel. */
  lemma CoordinatesOf(w: nat, h: nat, i: int)
    requires w > 0 && 0 <= i < 4 * w * h
    ensures 0 <= Col(w, i) < w && 0 <= Row(w, i) < h && 0 <= Chan(i) < 4
    ensures Idx(w, Col(w, i), Row(w, i)) + Chan(i) == i
  {
    var p := i / 4;
    assert i == 4 * p + i % 4;
    assert p < w * h;
    assert p == w * (p / w) + p % w;
    if p / w >= h {
      MulLe(h, p / w, w);
      assert false;
    }
  }

  /** `rect` with negative extents flipped to the equivalent positive ones (the HTML rule for `getImageData`). */
  function Normalize(r: Rect): (n: Rect)
    ensures n.w == (if r.w < 0 then -r.w else r.w) && n.h == (if r.h < 0 then -r.h else r.h)
    ensures n.x == (if r.w < 0 then r.x + r.w else r.x) && n.y == (if r.h < 0 then r.y + r.h else r.y)
  {
    Rect(if r.w < 0 then r.x + r.w else r.x, if r.h < 0 then r.y + r.h else r.y,
         if r.w < 0 then -r.w else r.w, if r.h < 0 then -r.h else r.h)
  }

  /** A normalised rectangle covers the same pixels as the one it came from, and normalising twice changes nothing. */
  lemma NormalizeSpan(r: Rect, px: int, py: int)
    ensures var n := Normalize(r);
      ((r.x <= px < r.x + r.w || r.x + r.w <= px < r.x) <==> n.x <= px < n.x + n.w)
      && ((r.y <= py < r.y + r.h || r.y + r.h <= py < r.y) <==> n.y <= py < n.y + n.h)
    ensures Normalize(Normalize(r)) == Normalize(r)
  {
  }

  /**
   * The pixels of a canvas bitmap (W by H) inside the rectangle with corner (sx, sy) and extent sw by sh,
   * with transparent black for the part that lies outside the bitmap.
   */
  function Crop(pixels: seq<byte>, W: nat, H: nat, sx: int, sy: int, sw: nat, sh: nat): (r: seq<byte>)
    requires |pixels| == 4 * W * H && sw > 0 && sh > 0
    ensures |r| == 4 * sw * sh
  {
    seq(4 * sw * sh, i requires 0 <= i < 4 * sw * sh => Sample(pixels, W, H, sx + Col(sw, i), sy + Row(sw, i), Chan(i)))
  }

  /** Pixel (x, y) of the crop is bitmap pixel (sx + x, sy + y), or transparent black where that lies outside. */
  lemma CropAt(pixels: seq<byte>, W: nat, H: nat, sx: int, sy: int, sw: nat, sh: nat, x: int, y: int, c: int)
    requires |pixels| == 4 * W * H && 0 <= x < sw && 0 <= y < sh && 0 <= c < 4
    ensures PixelIn(sw, sh, x, y, c)
    ensures Crop(pixels, W, H, sx, sy, sw, sh)[Idx(sw, x, y) + c] == Sample(pixels, W, H, sx + x, sy + y, c)
  {
    PixelOf(sw, sh, x, y, c);
  }

  /** Channel `c` of bitmap pixel (x, y), or 0 (transparent black) outside the bitmap. */
  function Sample(pixels: seq<byte>, W: nat, H: nat, x: int, y: int, c: int): byte
    requires |pixels| == 4 * W * H && 0 <= c < 4
  {
    if 0 <= x < W && 0 <= y < H then PixelOf(W, H, x, y, c); pixels[Idx(W, x, y) + c] else 0
  }

  /** (x, y, c) names a channel offset inside a w-by-h buffer. */
  predicate PixelIn(w: nat, h: nat, x: int, y: int, c: int) {
    0 <= x < w && 0 <= y < h && 0 <= c < 4 && 0 <= Idx(w, x, y) + c < 4 * w * h
  }

  /**
   * The bitmap after an iw-by-ih image is written with its top-left corner at (dx, dy): pixels the image
   * covers take its values, the rest keep theirs (the image is clipped to the bitmap).
   */
  function Paste(pixels: seq<byte>, W: nat, H: nat, img: seq<byte>, iw: nat, ih: nat, dx: int, dy: int): (r: seq<byte>)
    requires |pixels| == 4 * W * H && |img| == 4 * iw * ih
    ensures |r| == |pixels|
  {
    if W == 0 then pixels
    else seq(4 * W * H, i requires 0 <= i < 4 * W * H => PastedChannel(pixels, W, H, img, iw, ih, dx, dy, i))
  }

  function PastedChannel(pixels: seq<byte>, W: nat, H: nat, img: seq<byte>, iw: nat, ih: nat, dx: int, dy: int, i: int): byte
    requires |pixels| == 4 * W * H && |img| == 4 * iw * ih && W > 0 && 0 <= i < 4 * W * H
  {
    CoordinatesOf(W, H, i);
    var x, y := Col(W, i) - dx, Row(W, i) - dy;
    if 0 <= x < iw && 0 <= y < ih then PixelOf(iw, ih, x, y, Chan(i)); img[Idx(iw, x, y) + Chan(i)] else pixels[i]
  }

  /** What `Paste` writes at each in-bounds bitmap pixel, stated by coordinates. */
  lemma PasteAt(pixels: seq<byte>, W: nat, H: nat, img: seq<byte>, iw: nat, ih: nat, dx: int, dy: int, x: int, y: int, c: int)
    requires |pixels| == 4 * W * H && |img| == 4 * iw * ih
    requires 0 <= x < W && 0 <= y < H && 0 <= c < 4
    ensures PixelIn(W, H, x, y, c)
    ensures Paste(pixels, W, H, img, iw, ih, dx, dy)[Idx(W, x, y) + c] ==
      if dx <= x < dx + iw && dy <= y < dy + ih then Sample(img, iw, ih, x - dx, y - dy, c) else pixels[Idx(W, x, y) + c]
  {
    PixelOf(W, H, x, y, c);
  }

  /** Cropping a bitmap to its own full extent gives the bitmap back. */
  lemma CropWhole(pixels: seq<byte>, W: nat, H: nat)
    requires |pixels| == 4 * W * H && W > 0 && H > 0
    ensures Crop(pixels, W, H, 0, 0, W, H) == pixels
  {
    var r := Crop(pixels, W, H, 0, 0, W, H);
    forall i | 0 <= i < |pixels| ensures r[i] == pixels[i] {
      CoordinatesOf(W, H, i);
      CropAt(pixels, W, H, 0, 0, W, H, Col(W, i), Row(W, i), Chan(i));
    }
  }

  /** Writing a full-size image at the origin replaces the whole bitmap. */
  lemma PasteWhole(pixels: seq<byte>, W: nat, H: nat, img: seq<byte>)
    requires |pixels| == 4 * W * H && |img| == 4 * W * H
    ensures Paste(pixels, W, H, img, W, H, 0, 0) == img
  {
    if W > 0 {
      var r := Paste(pixels, W, H, img, W, H, 0, 0);
      forall i | 0 <= i < |pixels| ensures r[i] == img[i] {
        CoordinatesOf(W, H, i);
        PasteAt(pixels, W, H, img, W, H, 0, 0, Col(W, i), Row(W, i), Chan(i));
      }
    }
  }

  /** An `ImageData`: `width` by `height` pixels of four channels each. */
  class ImageData {
    const width: nat
    const height: nat
    const data: array<byte>

    ghost predicate Valid() {
      width >= 1 && height >= 1 && data.Length == 4 * width * height
    }

    /** `new ImageData(w, h)`: all channels zero (transparent black); the standard refuses a zero extent. */
    constructor (w: nat, h: nat)
      requires w >= 1 && h >= 1
      ensures Valid() && width == w && height == h && fresh(data)
      ensures forall i :: 0 <= i < data.Length ==> data[i] == 0
    {
      width, height := w, h;
      data := new byte[4 * w * h](_ => 0);
    }

    /** An image holding the given channel values. */
    constructor FromPixels(w: nat, h: nat, pixels: seq<byte>)
      requires w >= 1 && h >= 1 && |pixels| == 4 * w * h
      ensures Valid() && width == w && height == h && fresh(data) && data[..] == pixels
    {
      width, height := w, h;
      data := new byte[|pixels|](i requires 0 <= i < |pixels| => pixels[i]);
    }
  }

  /** A 2D canvas: a W-by-H bitmap. */
  class Canvas {
    const width: nat
    const height: nat
    const data: array<byte>

    ghost predicate Valid() {
      data.Length == 4 * width * height
    }

    constructor (w: nat, h: nat, pixels: seq<byte>)
      requires |pixels| == 4 * w * h
      ensures Valid() && width == w && height == h && fresh(data) && data[..] == pixels
    {
      width, height := w, h;
      data := new byte[|pixels|](i requires 0 <= i < |pixels| => pixels[i]);
    }

    /** What `getImageData(sx, sy, sw, sh)` returns: nothing (an IndexSizeError) for a zero extent, else the normalised rectangle's pixels. */
    function Read(sx: int, sy: int, sw: int, sh: int): (r: Option<seq<byte>>)
      requires Valid()
      reads data
      ensures r.None? <==> sw == 0 || sh == 0
    {
      if sw == 0 || sh == 0 then None
      else
        var n := Normalize(Rect(sx, sy, sw, sh));
        Some(Crop(data[..], width, height, n.x, n.y, n.w, n.h))
    }

    /** `ctx.getImageData(sx, sy, sw, sh)`; `None` stands for the IndexSizeError thrown for a zero width or height. */
    method GetImageData(sx: int, sy: int, sw: int, sh: int) returns (r: Option<ImageData>)
      requires Valid()
      ensures r.None? <==> Read(sx, sy, sw, sh).None?
      ensures r.Some? ==> fresh(r.value) && fresh(r.value.data) && r.value.Valid()
      ensures r.Some? ==> r.value.width == Normalize(Rect(sx, sy, sw, sh)).w && r.value.height == Normalize(Rect(sx, sy, sw, sh)).h
      ensures r.Some? ==> r.value.data[..] == Read(sx, sy, sw, sh).value
    {
      if sw == 0 || sh == 0 {
        return None;
      }
      var n := Normalize(Rect(sx, sy, sw, sh));
      var img := new ImageData.FromPixels(n.w, n.h, Crop(data[..], width, height, n.x, n.y, n.w, n.h));
      return Some(img);
    }

    /**
     * A drawing operation whose pixels the browser computes (`drawImage` with a filter or with smoothing off,
     * `strokeText`, `fillText`): the bitmap becomes `pixels`, the outcome the browser produced.
     */
    method Repaint(pixels: seq<byte>)
      requires Valid() && |pixels| == data.Length
      modifies data
      ensures data[..] == pixels
    {
      forall i | 0 <= i < data.Length {
        data[i] := pixels[i];
      }
    }

    /** `ctx.putImageData(img, dx, dy)`: the image's pixels replace the bitmap's where they overlap. */
    method PutImageData(img: ImageData, dx: int, dy: int)
      requires Valid() && img.Valid() && img.data != data
      modifies data
      ensures data[..] == Paste(old(data[..]), width, height, img.data[..], img.width, img.height, dx, dy)
    {
      ghost var src := img.data[..];
      var p := Paste(data[..], width, height, img.data[..], img.width, img.height, dx, dy);
      forall i | 0 <= i < data.Length {
        data[i] := p[i];
      }
      assert img.data[..] == src;
      assert data[..] == p;
    }
  }
}
