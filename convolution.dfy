/**
 * `applyConvolution` of the image editor: a 3x3 convolution over an RGBA `ImageData`, written into a
 * freshly allocated (all-zero) `ImageData` of the same size.  Only interior pixels are written: each of their
 * colour channels is the clamped weighted sum of the 3x3 neighbourhood, stored through a `Uint8ClampedArray`,
 * and their alpha is copied.  Arithmetic is exact (`real`).
 */
module Convolution {
  import opened Raster

  /** ECMA-262 ToUint8Clamp, the conversion a store into a `Uint8ClampedArray` applies: clamp, then round half to even. */
  function ToUint8Clamp(v: real): (r: byte)
    ensures v <= 0.0 ==> r == 0
    ensures v >= 255.0 ==> r == 255
    ensures 0.0 <= v <= 255.0 ==> -0.5 <= r as real - v <= 0.5
    ensures 0.0 < v < 255.0 && v - v.Floor as real == 0.5 ==> r % 2 == 0
  {
    if v <= 0.0 then 0
    else if v >= 255.0 then 255
    else
      var f := v.Floor;
      if f as real + 0.5 < v then f + 1
      else if v < f as real + 0.5 then f
      else if f % 2 == 0 then f else f + 1
  }

  /** A whole channel value is stored unchanged. */
  lemma ToUint8ClampExact(n: byte)
    ensures ToUint8Clamp(n as real) == n
  {
    assert (n as real).Floor == n;
  }

  /** `Math.min(255, Math.max(0, v))`. */
  function Clamp255(v: real): (r: real)
    ensures 0.0 <= r <= 255.0
    ensures 0.0 <= v <= 255.0 ==> r == v
    ensures v < 0.0 ==> r == 0.0
    ensures v > 255.0 ==> r == 255.0
  {
    if v < 0.0 then 0.0 else if v > 255.0 then 255.0 else v
  }

  /** The sum of the first `n` kernel weights (the source's `k.reduce((a, b) => a + b, 0)` when `n == |k|`). */
  function PrefixSum(k: seq<real>, n: nat): real
    requires n <= |k|
  {
    if n == 0 then 0.0 else PrefixSum(k, n - 1) + k[n - 1]
  }

  function KernelSum(k: seq<real>): real {
    PrefixSum(k, |k|)
  }

  /**
   * `divisor || sum || 1`: the given divisor, else the kernel's sum, else 1.  A divisor of 0 stands for an
   * omitted one, since `||` treats `undefined` and `0` alike.
   */
  function EffectiveDivisor(k: seq<real>, divisor: real): (r: real)
    ensures r != 0.0
    ensures divisor != 0.0 ==> r == divisor
    ensures divisor == 0.0 && KernelSum(k) != 0.0 ==> r == KernelSum(k)
    ensures divisor == 0.0 && KernelSum(k) == 0.0 ==> r == 1.0
  {
    if divisor != 0.0 then divisor else if KernelSum(k) != 0.0 then KernelSum(k) else 1.0
  }

  /**
   * Channel `c` of the nine taps around (x, y).  Tap `m` is the neighbour (x + m % 3 - 1, y + m / 3 - 1):
   * rows top to bottom, each row left to right, the order of the `ky` and `kx` loops.
   */
  function Taps(d: seq<byte>, w: nat, h: nat, x: int, y: int, c: int): (t: seq<byte>)
    requires |d| == 4 * w * h && 0 <= c < 4
    ensures |t| == 9
  {
    seq(9, m => Sample(d, w, h, x + m % 3 - 1, y + m / 3 - 1, c))
  }

  /** The weighted sum of the first `n` values of `t` with the weights `k`. */
  function WeightedSum(t: seq<byte>, k: seq<real>, n: nat): real
    requires n <= |t| && n <= |k|
  {
    if n == 0 then 0.0 else WeightedSum(t, k, n - 1) + Weighted(t[n - 1], k[n - 1])
  }

  /** The weighted sum of channel `c` over the first `n` taps around (x, y), tap `m` weighing `k[m]`. */
  function TapSum(d: seq<byte>, w: nat, h: nat, x: int, y: int, k: seq<real>, c: int, n: nat): real
    requires |d| == 4 * w * h && |k| == 9 && 0 <= c < 4 && n <= 9
  {
    WeightedSum(Taps(d, w, h, x, y, c), k, n)
  }

  /** One tap's contribution: a channel value times its weight. */
  function Weighted(v: byte, weight: real): real {
    v as real * weight
  }

  /**
   * What the store `out[i] = Math.min(255, Math.max(0, sum / div + bias))` leaves in a `Uint8ClampedArray`:
   * the nearest byte, and the clamp's own bound when the value leaves the range.
   */
  function Store(sum: real, div: real, bias: real): (r: byte)
    requires div != 0.0
    ensures 0.0 <= sum / div + bias <= 255.0 ==> -0.5 <= r as real - (sum / div + bias) <= 0.5
    ensures sum / div + bias <= 0.0 ==> r == 0
    ensures sum / div + bias >= 255.0 ==> r == 255
  {
    ToUint8Clamp(Clamp255(sum / div + bias))
  }

  /** Pixel (x, y) has all eight neighbours inside a w-by-h image. */
  predicate Interior(w: nat, h: nat, x: int, y: int) {
    1 <= x < w - 1 && 1 <= y < h - 1
  }

  /** Channel `c` of output pixel (x, y): zero on the border ring, the source alpha, or the clamped, stored weighted sum. */
  function OutChannel(d: seq<byte>, w: nat, h: nat, k: seq<real>, div: real, bias: real, x: int, y: int, c: int): byte
    requires |d| == 4 * w * h && |k| == 9 && 0 <= c < 4 && div != 0.0
  {
    if !Interior(w, h, x, y) then 0
    else if c == 3 then Sample(d, w, h, x, y, 3)
    else Store(TapSum(d, w, h, x, y, k, c, 9), div, bias)
  }

  /** The whole output buffer of `applyConvolution(src, k, div, bias)`, channel by channel. */
  function Convolved(d: seq<byte>, w: nat, h: nat, k: seq<real>, div: real, bias: real): (r: seq<byte>)
    requires w >= 1 && |d| == 4 * w * h && |k| == 9 && div != 0.0
    ensures |r| == |d|
  {
    seq(4 * w * h, i requires 0 <= i < 4 * w * h => OutChannel(d, w, h, k, div, bias, Col(w, i), Row(w, i), Chan(i)))
  }

  /** The colour sums of interior pixel (x, y): the two inner `for` loops over `ky` and `kx`. */
  method NeighbourhoodSums(d: array<byte>, w: nat, h: nat, x: int, y: int, k: seq<real>) returns (r: real, g: real, b: real)
    requires d.Length == 4 * w * h && |k| == 9 && Interior(w, h, x, y)
    ensures r == TapSum(d[..], w, h, x, y, k, 0, 9)
    ensures g == TapSum(d[..], w, h, x, y, k, 1, 9)
    ensures b == TapSum(d[..], w, h, x, y, k, 2, 9)
  {
    r, g, b := 0.0, 0.0, 0.0;
    var n := 0;
    var ky := -1;
    while ky <= 1
      invariant -1 <= ky <= 2 && n == (ky + 1) * 3
      invariant r == TapSum(d[..], w, h, x, y, k, 0, n)
      invariant g == TapSum(d[..], w, h, x, y, k, 1, n)
      invariant b == TapSum(d[..], w, h, x, y, k, 2, n)
    {
      var kx := -1;
      while kx <= 1
        invariant -1 <= kx <= 2 && n == (ky + 1) * 3 + (kx + 1)
        invariant r == TapSum(d[..], w, h, x, y, k, 0, n)
        invariant g == TapSum(d[..], w, h, x, y, k, 1, n)
        invariant b == TapSum(d[..], w, h, x, y, k, 2, n)
      {
        var i := Idx(w, x + kx, y + ky);
        ghost var m := n;
        TapStep(d[..], w, h, x, y, k, 0, m, kx, ky);
        TapStep(d[..], w, h, x, y, k, 1, m, kx, ky);
        TapStep(d[..], w, h, x, y, k, 2, m, kx, ky);
        n := n + 1;
        var kv := k[n - 1];
        r := r + Weighted(d[i], kv);
        g := g + Weighted(d[i + 1], kv);
        b := b + Weighted(d[i + 2], kv);
        kx := kx + 1;
      }
      ky := ky + 1;
    }
  }

  /** One step of the tap loops: tap `m` reads channel `c` of neighbour (x + kx, y + ky), at `Idx(w, x + kx, y + ky) + c`. */
  lemma TapStep(d: seq<byte>, w: nat, h: nat, x: int, y: int, k: seq<real>, c: int, m: nat, kx: int, ky: int)
    requires |d| == 4 * w * h && |k| == 9 && Interior(w, h, x, y) && 0 <= c < 3
    requires -1 <= kx <= 1 && -1 <= ky <= 1 && m == (ky + 1) * 3 + (kx + 1)
    ensures 0 <= Idx(w, x + kx, y + ky) + c < |d|
    ensures TapSum(d, w, h, x, y, k, c, m + 1) == TapSum(d, w, h, x, y, k, c, m) + Weighted(d[Idx(w, x + kx, y + ky) + c], k[m])
  {
    DivModUnique(m, 3, ky + 1, kx + 1);
    PixelOf(w, h, x + kx, y + ky, c);
  }

  /** Output offset `i` lies on a pixel the row-major scan has passed before reaching (x, y). */
  predicate Written(w: nat, i: int, x: int, y: int)
    requires w > 0
  {
    Row(w, i) < y || (Row(w, i) == y && Col(w, i) < x)
  }

  /** What the output buffer holds once the scan reaches (x, y): the result so far, zero beyond. */
  ghost predicate ScannedTo(o: seq<byte>, S: seq<byte>, w: nat, x: int, y: int)
    requires w > 0 && |o| == |S|
  {
    forall i :: 0 <= i < |o| ==> o[i] == if Written(w, i, x, y) then S[i] else 0
  }

  /** The four channels of pixel (x, y) are exactly the offsets between `Idx(w, x, y)` and the next pixel. */
  lemma PixelSlot(w: nat, h: nat, x: int, y: int, i: int)
    requires 0 <= x < w && 0 <= y < h && 0 <= i < 4 * w * h
    ensures Row(w, i) == y && Col(w, i) == x <==> Idx(w, x, y) <= i < Idx(w, x, y) + 4
  {
    CoordinatesOf(w, h, i);
    if Idx(w, x, y) <= i < Idx(w, x, y) + 4 {
      PixelOf(w, h, x, y, i - Idx(w, x, y));
    }
  }

  /** `S` is zero at every offset outside the interior. */
  ghost predicate ZeroOffInterior(S: seq<byte>, w: nat, h: nat)
    requires w > 0
  {
    forall i :: 0 <= i < |S| && !Interior(w, h, Col(w, i), Row(w, i)) ==> S[i] == 0
  }

  /** The four channels of interior pixel (x, y), at `oi`: the clamped sums of the three colours, then the source alpha. */
  lemma InteriorPixel(d: seq<byte>, w: nat, h: nat, k: seq<real>, div: real, bias: real, x: int, y: int, oi: int)
    requires w >= 1 && |d| == 4 * w * h && |k| == 9 && div != 0.0 && Interior(w, h, x, y) && oi == Idx(w, x, y)
    ensures 0 <= oi && oi + 4 <= |d|
    ensures var S := Convolved(d, w, h, k, div, bias);
      && S[oi] == Store(TapSum(d, w, h, x, y, k, 0, 9), div, bias)
      && S[oi + 1] == Store(TapSum(d, w, h, x, y, k, 1, 9), div, bias)
      && S[oi + 2] == Store(TapSum(d, w, h, x, y, k, 2, 9), div, bias)
      && S[oi + 3] == d[oi + 3]
  {
    ConvolvedAt(d, w, h, k, div, bias, x, y, 0);
    ConvolvedAt(d, w, h, k, div, bias, x, y, 1);
    ConvolvedAt(d, w, h, k, div, bias, x, y, 2);
    ConvolvedAt(d, w, h, k, div, bias, x, y, 3);
  }

  /** Offset `Idx(w, x, y) + c` of the result holds channel `c` of output pixel (x, y). */
  lemma ConvolvedAt(d: seq<byte>, w: nat, h: nat, k: seq<real>, div: real, bias: real, x: int, y: int, c: int)
    requires w >= 1 && |d| == 4 * w * h && |k| == 9 && div != 0.0 && 0 <= x < w && 0 <= y < h && 0 <= c < 4
    ensures 0 <= Idx(w, x, y) + c < |d|
    ensures Convolved(d, w, h, k, div, bias)[Idx(w, x, y) + c] == OutChannel(d, w, h, k, div, bias, x, y, c)
  {
    PixelOf(w, h, x, y, c);
  }

  /** The result is zero at every offset outside the interior. */
  lemma ConvolvedZeroOffInterior(d: seq<byte>, w: nat, h: nat, k: seq<real>, div: real, bias: real)
    requires w >= 1 && |d| == 4 * w * h && |k| == 9 && div != 0.0
    ensures ZeroOffInterior(Convolved(d, w, h, k, div, bias), w, h)
  {
  }

  /** Moving the scan from (x0, y0) to (x1, y1) passes only offsets where `S` is zero, so nothing needs writing. */
  lemma SkipBorder(o: seq<byte>, S: seq<byte>, w: nat, h: nat, x0: int, y0: int, x1: int, y1: int)
    requires w > 0 && |o| == |S| == 4 * w * h && ScannedTo(o, S, w, x0, y0) && ZeroOffInterior(S, w, h)
    requires y0 <= y1 && (y0 == y1 ==> x0 <= x1)
    requires y0 == y1 ==> x0 >= w - 1 || x1 <= 1
    requires y0 < y1 ==> x1 == 0 && y1 == y0 + 1 && (x0 >= w - 1 || (x0 == 0 && (y0 == 0 || y0 >= h - 1)))
    ensures ScannedTo(o, S, w, x1, y1)
  {
    forall i | 0 <= i < |S| ensures o[i] == if Written(w, i, x1, y1) then S[i] else 0 {
      CoordinatesOf(w, h, i);
    }
  }

  /** Writing the four channels of pixel (x, y), at `oi`, from `S` moves the scan one pixel on. */
  lemma WritePixel(before: seq<byte>, after: seq<byte>, S: seq<byte>, w: nat, h: nat, x: int, y: int, oi: int)
    requires 0 <= x < w && 0 <= y < h && |before| == |after| == |S| == 4 * w * h && ScannedTo(before, S, w, x, y)
    requires oi == Idx(w, x, y) && 0 <= oi && oi + 4 <= |S|
    requires after == before[oi := S[oi]][oi + 1 := S[oi + 1]][oi + 2 := S[oi + 2]][oi + 3 := S[oi + 3]]
    ensures ScannedTo(after, S, w, x + 1, y)
  {
    forall i | 0 <= i < |after| ensures after[i] == if Written(w, i, x + 1, y) then S[i] else 0 {
      PixelSlot(w, h, x, y, i);
    }
  }

  /**
   * `applyConvolution(src, kernel, divisor, bias)`: a fresh image of the same size whose border ring is zero
   * and whose interior pixels are convolved (colour) or copied (alpha).
   */
  method ApplyConvolution(src: ImageData, kernel: seq<real>, divisor: real, bias: real) returns (out: ImageData)
    requires src.Valid() && |kernel| == 9
    ensures fresh(out) && fresh(out.data) && out.Valid()
    ensures out.width == src.width && out.height == src.height
    ensures out.data[..] == Convolved(src.data[..], src.width, src.height, kernel, EffectiveDivisor(kernel, divisor), bias)
  {
    var w, h := src.width, src.height;
    out := new ImageData(w, h);
    var d, o := src.data, out.data;
    var div := EffectiveDivisor(kernel, divisor);
    ghost var S := Convolved(d[..], w, h, kernel, div, bias);
    ConvolvedZeroOffInterior(d[..], w, h, kernel, div, bias);
    SkipBorder(o[..], S, w, h, 0, 0, 0, 1);
    var y := 1;
    while y < h - 1
      invariant 1 <= y && (y <= h - 1 || y == 1)
      invariant ScannedTo(o[..], S, w, 0, y)
    {
      ConvolveRow(d, o, w, h, kernel, div, bias, y);
      y := y + 1;
    }
    SkipBorder(o[..], S, w, h, 0, y, 0, h);
    assert o[..] == S;
  }

  /** One pass of the `x` loop: the interior pixels of row `y`, left to right, leaving the scan at the next row. */
  method ConvolveRow(d: array<byte>, o: array<byte>, w: nat, h: nat, kernel: seq<real>, div: real, bias: real, y: int)
    requires d != o && w >= 1 && d.Length == o.Length == 4 * w * h && |kernel| == 9 && div != 0.0 && 1 <= y < h - 1
    requires ScannedTo(o[..], Convolved(d[..], w, h, kernel, div, bias), w, 0, y)
    modifies o
    ensures ScannedTo(o[..], Convolved(d[..], w, h, kernel, div, bias), w, 0, y + 1)
  {
    ghost var S := Convolved(d[..], w, h, kernel, div, bias);
    ConvolvedZeroOffInterior(d[..], w, h, kernel, div, bias);
    SkipBorder(o[..], S, w, h, 0, y, 1, y);
    var x := 1;
    while x < w - 1
      invariant 1 <= x && (x <= w - 1 || x == 1)
      invariant ScannedTo(o[..], S, w, x, y)
    {
      var r, g, b := NeighbourhoodSums(d, w, h, x, y, kernel);
      var oi := Idx(w, x, y);
      InteriorPixel(d[..], w, h, kernel, div, bias, x, y, oi);
      ghost var before := o[..];
      o[oi] := Store(r, div, bias);
      ghost var o1 := o[..];
      assert o1 == before[oi := S[oi]];
      o[oi + 1] := Store(g, div, bias);
      ghost var o2 := o[..];
      assert o2 == o1[oi + 1 := S[oi + 1]];
      o[oi + 2] := Store(b, div, bias);
      ghost var o3 := o[..];
      assert o3 == o2[oi + 2 := S[oi + 2]];
      o[oi + 3] := d[oi + 3];
      assert o[..] == o3[oi + 3 := S[oi + 3]];
      WritePixel(before, o[..], S, w, h, x, y, oi);
      x := x + 1;
    }
    SkipBorder(o[..], S, w, h, x, y, 0, y + 1);
  }

  /** The clamped store of a whole value is that value, whichever side of the range the clamp acts on. */
  lemma StoreOfClamped(v: real)
    ensures ToUint8Clamp(Clamp255(v)) == ToUint8Clamp(v)
  {
  }

  /** Every channel of a border-ring pixel of the output is zero: the ring is transparent black. */
  lemma BorderIsZero(d: seq<byte>, w: nat, h: nat, k: seq<real>, div: real, bias: real, x: int, y: int, c: int)
    requires w >= 1 && |d| == 4 * w * h && |k| == 9 && div != 0.0
    requires 0 <= x < w && 0 <= y < h && 0 <= c < 4 && (x == 0 || y == 0 || x == w - 1 || y == h - 1)
    ensures PixelIn(w, h, x, y, c) && Convolved(d, w, h, k, div, bias)[Idx(w, x, y) + c] == 0
  {
    ConvolvedAt(d, w, h, k, div, bias, x, y, c);
  }

  /** An image narrower or shorter than three pixels has no interior, so it comes out entirely zero. */
  lemma NarrowIsZero(d: seq<byte>, w: nat, h: nat, k: seq<real>, div: real, bias: real)
    requires w >= 1 && |d| == 4 * w * h && |k| == 9 && div != 0.0 && (w < 3 || h < 3)
    ensures Convolved(d, w, h, k, div, bias) == seq(|d|, _ => 0)
  {
    var r := Convolved(d, w, h, k, div, bias);
    forall i | 0 <= i < |d| ensures r[i] == 0 {
      CoordinatesOf(w, h, i);
    }
  }

  /** Every one of the nine taps of (x, y)'s 3x3 neighbourhood holds the value `v` in channel `c`. */
  predicate UniformAround(d: seq<byte>, w: nat, h: nat, x: int, y: int, c: int, v: byte)
    requires |d| == 4 * w * h && 0 <= c < 4
  {
    forall m :: 0 <= m < 9 ==> Taps(d, w, h, x, y, c)[m] == v
  }

  /** The weighted sum of `n` copies of `v` is `v` times the sum of the first `n` weights. */
  lemma {:induction false} WeightedSumUniform(t: seq<byte>, k: seq<real>, v: byte, n: nat)
    requires n <= |t| && n <= |k| && forall m :: 0 <= m < |t| ==> t[m] == v
    ensures WeightedSum(t, k, n) == v as real * PrefixSum(k, n)
  {
    if n > 0 {
      WeightedSumUniform(t, k, v, n - 1);
      Distribute(v as real, PrefixSum(k, n - 1), k[n - 1]);
    }
  }

  lemma Distribute(v: real, a: real, b: real)
    ensures v * (a + b) == v * a + v * b
  {
  }

  /**
   * A kernel whose weights sum to 1, used with a divisor of 1 and no bias, leaves a colour channel
   * unchanged at an interior pixel whose whole neighbourhood has the same value there.
   */
  lemma UniformIsPreserved(d: seq<byte>, w: nat, h: nat, k: seq<real>, x: int, y: int, c: int, v: byte)
    requires w >= 1 && |d| == 4 * w * h && |k| == 9 && 0 <= c < 3 && KernelSum(k) == 1.0
    requires Interior(w, h, x, y) && UniformAround(d, w, h, x, y, c, v)
    ensures PixelIn(w, h, x, y, c) && Convolved(d, w, h, k, 1.0, 0.0)[Idx(w, x, y) + c] == v
  {
    WeightedSumUniform(Taps(d, w, h, x, y, c), k, v, 9);
    ToUint8ClampExact(v);
    PixelOf(w, h, x, y, c);
  }

  /** As written, a one-pixel opaque white image comes out transparent black: the whole image is border ring. */
  lemma OnePixelVanishes(k: seq<real>, div: real, bias: real)
    requires |k| == 9 && div != 0.0
    ensures Convolved([255, 255, 255, 255], 1, 1, k, div, bias) == [0, 0, 0, 0]
  {
    NarrowIsZero([255, 255, 255, 255], 1, 1, k, div, bias);
  }

  /** The evidently intended convolution: interior pixels as `Convolved`, border-ring pixels copied from the source. */
  function ConvolvedKeepingBorder(d: seq<byte>, w: nat, h: nat, k: seq<real>, div: real, bias: real): (r: seq<byte>)
    requires w >= 1 && |d| == 4 * w * h && |k| == 9 && div != 0.0
    ensures |r| == |d|
  {
    seq(4 * w * h, i requires 0 <= i < 4 * w * h =>
      if Interior(w, h, Col(w, i), Row(w, i)) then OutChannel(d, w, h, k, div, bias, Col(w, i), Row(w, i), Chan(i)) else d[i])
  }

  /** With the border kept, a border pixel is unchanged and an interior pixel is convolved as before (see ConvolvedAt). */
  lemma KeptBorderAt(d: seq<byte>, w: nat, h: nat, k: seq<real>, div: real, bias: real, x: int, y: int, c: int)
    requires w >= 1 && |d| == 4 * w * h && |k| == 9 && div != 0.0 && 0 <= x < w && 0 <= y < h && 0 <= c < 4
    ensures PixelIn(w, h, x, y, c)
    ensures !Interior(w, h, x, y) ==> ConvolvedKeepingBorder(d, w, h, k, div, bias)[Idx(w, x, y) + c] == d[Idx(w, x, y) + c]
    ensures Interior(w, h, x, y) ==>
      ConvolvedKeepingBorder(d, w, h, k, div, bias)[Idx(w, x, y) + c] == OutChannel(d, w, h, k, div, bias, x, y, c)
  {
    PixelOf(w, h, x, y, c);
  }

  /** With the border kept, an image with no interior comes out unchanged. */
  lemma NarrowIsKept(d: seq<byte>, w: nat, h: nat, k: seq<real>, div: real, bias: real)
    requires w >= 1 && |d| == 4 * w * h && |k| == 9 && div != 0.0 && (w < 3 || h < 3)
    ensures ConvolvedKeepingBorder(d, w, h, k, div, bias) == d
  {
    var r := ConvolvedKeepingBorder(d, w, h, k, div, bias);
    forall i | 0 <= i < |d| ensures r[i] == d[i] {
      CoordinatesOf(w, h, i);
    }
  }
}
