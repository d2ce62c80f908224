/**
 * "Apply" in the image editor: the chosen effect is applied to the selected region (or the whole image) of
 * a canvas at the image's own resolution, an optional caption is drawn, the result is optionally upscaled
 * 2x and sharpened, and it is exported under a name derived from the original file name.
 */
module EditorExport {
  import opened Wrappers
  import opened Raster
  import Convolution
  import Text
  import EditorView

  /** The effect buttons; `NoEffect` is the `"none"` kind. */
  datatype Effect = NoEffect | Blur | Pixelate | Grayscale | Sepia | Brightness | Contrast | Saturation | Sharpen | Glow

  /** One function of a CSS `filter` string, with the number written into it. */
  datatype Filter =
    | BlurPx(px: int)
    | GrayscaleBy(amount: real)
    | SepiaBy(amount: real)
    | BrightnessBy(factor: real)
    | ContrastBy(factor: real)
    | SaturateBy(factor: real)

  /** `Math.round`: the nearest integer, halves rounded up. */
  function JsRound(a: real): (r: int)
    ensures r as real - 0.5 <= a < r as real + 0.5
  {
    (a + 0.5).Floor
  }

  function Min100(a: real): real {
    if a <= 100.0 then a else 100.0
  }

  /** `cssFilterFor(effect, amount)`: the filter list for the filter-drawn effects; `[]` is the string `"none"`. */
  function CssFilterFor(effect: Effect, amount: real): (r: seq<Filter>)
    ensures r == [] <==> effect == NoEffect || effect == Pixelate || effect == Sharpen
    ensures |r| <= 2
  {
    match effect
    case Blur => [BlurPx(JsRound(amount))]
    case Grayscale => [GrayscaleBy(Min100(amount) / 100.0)]
    case Sepia => [SepiaBy(Min100(amount) / 100.0)]
    case Brightness => [BrightnessBy(1.0 + amount / 100.0)]
    case Contrast => [ContrastBy(1.0 + amount / 100.0)]
    case Saturation => [SaturateBy(1.0 + amount / 100.0)]
    case Glow => [BlurPx(JsRound(amount)), BrightnessBy(1.0 + amount / 200.0)]
    case _ => []
  }

  /**
   * Grayscale and sepia never exceed full strength and reach it from intensity 100 on; a positive intensity
   * raises brightness, contrast and saturation; glow is the blur of the same amount followed by the
   * brightening of half the amount.
   */
  lemma FilterParameters(a: real)
    ensures CssFilterFor(Grayscale, a)[0].amount <= 1.0 && CssFilterFor(Sepia, a)[0].amount <= 1.0
    ensures a >= 100.0 ==> CssFilterFor(Grayscale, a)[0].amount == 1.0 && CssFilterFor(Sepia, a)[0].amount == 1.0
    ensures a > 0.0 ==>
      CssFilterFor(Brightness, a)[0].factor > 1.0 && CssFilterFor(Contrast, a)[0].factor > 1.0
      && CssFilterFor(Saturation, a)[0].factor > 1.0
    ensures CssFilterFor(Glow, a) == CssFilterFor(Blur, a) + CssFilterFor(Brightness, a / 2.0)
  {
  }

  /** The pixelation block size `max(4, floor(intensity / 2))`. */
  function BlockSize(intensity: int): (r: int)
    ensures r >= 4
    ensures intensity >= 8 ==> 2 * r <= intensity < 2 * r + 2
    ensures intensity < 8 ==> r == 4
  {
    var half := intensity / 2;
    if half > 4 then half else 4
  }

  /** One side of the small canvas that pixelation downscales to: `max(1, floor(extent / size))`. */
  function DownscaleTarget(extent: int, size: int): (t: int)
    requires size > 0
    ensures t >= 1
    ensures extent >= size ==> t * size <= extent < (t + 1) * size
    ensures extent < size ==> t == 1
    ensures extent >= 1 ==> t <= extent && t <= (extent + size - 1) / size
  {
    DownscaleFacts(extent, size);
    var q := extent / size;
    if q > 1 then q else 1
  }

  /** Floor division is monotonic in the dividend. */
  lemma DivMono(a: int, b: int, s: int)
    requires s > 0 && a <= b
    ensures a / s <= b / s
  {
    var qa, qb := a / s, b / s;
    if qa > qb {
      MulLe(qb + 1, qa, s);
      assert false;
    }
  }

  /** A dividend of at least the divisor has a quotient of at least 1; a smaller one, at most 0. */
  lemma DivAtLeastOne(a: int, s: int)
    requires s > 0
    ensures a >= s ==> a / s >= 1
    ensures a < s ==> a / s <= 0
    ensures a >= s ==> (a / s) * s <= a < (a / s + 1) * s
  {
    var q := a / s;
    assert (q + 1) * s == q * s + s;
    if q <= 0 {
      MulLe(q, 0, s);
    } else {
      MulLe(1, q, s);
    }
  }

  lemma DownscaleFacts(extent: int, size: int)
    requires size > 0
    ensures extent >= size ==> extent / size >= 1 && (extent / size) * size <= extent < (extent / size + 1) * size
    ensures extent < size ==> extent / size <= 0
    ensures extent >= 1 ==> extent / size <= extent
    ensures extent >= 1 ==> extent / size <= (extent + size - 1) / size && 1 <= (extent + size - 1) / size
  {
    DivAtLeastOne(extent, size);
    DivAtLeastOne(extent + size - 1, size);
    var q := extent / size;
    if q >= 1 {
      MulLe(1, size, q);
      assert q <= size * q == q * size <= extent;
    }
    if extent >= 1 {
      DivMono(extent, extent + size - 1, size);
    }
  }

  /** The sharpen strength `1 + intensity / 50`. */
  function SharpenStrength(intensity: int): real {
    1.0 + intensity as real / 50.0
  }

  /** The fixed strength of the sharpening after a 2x upscale. */
  const UpscaleStrength: real := 1.2

  /** The sharpen kernel `[0, -k, 0, -k, 1 + 4k, -k, 0, -k, 0]`: its weights add up to 1 whatever k is. */
  function SharpenKernel(k: real): (r: seq<real>)
    ensures |r| == 9 && Convolution.KernelSum(r) == 1.0
    ensures Convolution.EffectiveDivisor(r, 1.0) == 1.0
  {
    var r := [0.0, -k, 0.0, -k, 1.0 + 4.0 * k, -k, 0.0, -k, 0.0];
    assert Convolution.PrefixSum(r, 1) == 0.0;
    assert Convolution.PrefixSum(r, 2) == -k;
    assert Convolution.PrefixSum(r, 3) == -k;
    assert Convolution.PrefixSum(r, 4) == -2.0 * k;
    assert Convolution.PrefixSum(r, 5) == 1.0 + 2.0 * k;
    assert Convolution.PrefixSum(r, 6) == 1.0 + k;
    assert Convolution.PrefixSum(r, 7) == 1.0 + k;
    assert Convolution.PrefixSum(r, 8) == 1.0;
    assert Convolution.PrefixSum(r, 9) == 1.0;
    r
  }

  /** Sharpening leaves any interior pixel of a uniform 3-by-3 patch as it was. */
  lemma SharpenKeepsUniform(d: seq<byte>, w: nat, h: nat, k: real, x: int, y: int, c: int, v: byte)
    requires w >= 1 && |d| == 4 * w * h && 0 <= c < 3
    requires Convolution.Interior(w, h, x, y) && Convolution.UniformAround(d, w, h, x, y, c, v)
    ensures PixelIn(w, h, x, y, c) && Convolution.Convolved(d, w, h, SharpenKernel(k), 1.0, 0.0)[Idx(w, x, y) + c] == v
  {
    Convolution.UniformIsPreserved(d, w, h, SharpenKernel(k), x, y, c, v);
  }

  /** How the caption is drawn: font size, outline width and the anchor of both passes. */
  datatype Caption = Caption(fontPx: int, lineWidth: int, x: int, y: int)

  /** The caption style for a W-by-H image: `max(24, floor(W / 24))`, `max(3, floor(W / 320))`, `floor(0.04 W)`, `floor(0.1 H)`. */
  function CaptionFor(W: nat, H: nat): (c: Caption)
    ensures c.fontPx >= 24 && c.lineWidth >= 3
    ensures W >= 24 * 24 ==> W < 24 * (c.fontPx + 1) && 24 * c.fontPx <= W
    ensures 0 <= 100 * c.x <= 4 * W && 0 <= 10 * c.y <= H
    ensures W >= 1 ==> c.x < W
    ensures H >= 1 ==> c.y < H
  {
    var font := if W / 24 > 24 then W / 24 else 24;
    var line := if W / 320 > 3 then W / 320 else 3;
    Caption(font, line, (4 * W) / 100, H / 10)
  }

  /** `name.replace(/\.[^.]+$/, "")`: a final `.` and the non-empty, dot-free rest after it are removed. */
  function StripExtension(name: string): (r: string)
    ensures |r| <= |name| && r == name[..|r|]
  {
    match Text.LastIndexOf(name, '.')
    case Some(i) => if i < |name| - 1 then name[..i] else name
    case None => name
  }

  /** The exported file name `edited-<name without extension>.png`. */
  function ExportName(name: string): (r: string)
    ensures |r| >= 11 && r[..7] == "edited-" && r[|r| - 4..] == ".png"
  {
    "edited-" + StripExtension(name) + ".png"
  }

  /** A name with an extension loses exactly the extension. */
  lemma {:induction false} StripsExtension(stem: string, ext: string)
    requires ext != [] && forall j :: 0 <= j < |ext| ==> ext[j] != '.'
    ensures StripExtension(stem + "." + ext) == stem
  {
    var s := stem + "." + ext;
    var i := Text.LastIndexOf(s, '.');
    assert s[|stem|] == '.';
    forall j | |stem| < j < |s| ensures s[j] != '.' {
      assert s[j] == ext[j - |stem| - 1];
    }
    assert i.Some? && i.value == |stem|;
    assert s[..|stem|] == stem;
  }

  /** A name without a dot, or one ending in a dot, is kept whole. */
  lemma KeepsName(name: string)
    requires (forall j :: 0 <= j < |name| ==> name[j] != '.') || (name != [] && name[|name| - 1] == '.')
    ensures StripExtension(name) == name
  {
  }

  /** `Math.trunc`, the conversion of a coordinate to a `long` (wrap-around modulo 2^32 is not modelled). */
  function Trunc(v: real): (r: int)
    ensures v >= 0.0 ==> r as real <= v < r as real + 1.0
    ensures v < 0.0 ==> r as real - 1.0 < v <= r as real
  {
    if v >= 0.0 then v.Floor else -((-v).Floor)
  }

  /** `rect || { x: 0, y: 0, w: W, h: H }`, in the integer pixels the canvas calls use. */
  function Region(rect: Option<EditorView.Selection>, W: nat, H: nat): (r: Rect)
    ensures rect.None? ==> r == Rect(0, 0, W, H)
    ensures rect.Some? ==> r.x == Trunc(rect.value.x) && r.y == Trunc(rect.value.y)
    ensures rect.Some? ==> r.w == Trunc(rect.value.w) && r.h == Trunc(rect.value.h)
  {
    match rect
    case None => Rect(0, 0, W, H)
    case Some(s) => Rect(Trunc(s.x), Trunc(s.y), Trunc(s.w), Trunc(s.h))
  }

  /** One step of the export, as the canvas is asked to perform it. */
  datatype Command =
    | PixelateRegion(region: Rect, block: int, smallW: int, smallH: int)
    | FilterRegion(region: Rect, filters: seq<Filter>)
    | SharpenRegion(region: Rect, kernel: seq<real>)
    | DrawCaption(text: string, style: Caption)
    | UpscaleTo(width: nat, height: nat, kernel: seq<real>)

  /** `effect` is one of those drawn through a CSS filter. */
  predicate Filtered(effect: Effect) {
    effect != NoEffect && effect != Pixelate && effect != Sharpen
  }

  /** The region step of `applyAndExport`. `None`: a canvas call throws. */
  function EffectSteps(W: nat, H: nat, R: Rect, effect: Effect, intensity: int): Option<seq<Command>> {
    if effect == NoEffect then Some([])
    else if R.w == 0 || R.h == 0 then None
    else if effect == Pixelate then
      var b := BlockSize(intensity);
      Some([PixelateRegion(R, b, DownscaleTarget(R.w, b), DownscaleTarget(R.h, b))])
    else if effect == Sharpen then Some([SharpenRegion(R, SharpenKernel(SharpenStrength(intensity)))])
    else if W == 0 || H == 0 then None
    else Some([FilterRegion(R, CssFilterFor(effect, intensity as real))])
  }

  /**
   * The steps `applyAndExport` performs on a W-by-H image, or `None` when it throws: `getImageData` refuses a
   * region with a zero width or height (pixelate, sharpen), `drawImage` refuses a zero-size canvas (the
   * filtered copy of such a region, a zero-size image, or a zero-size image being upscaled).
   */
  function ExportPlan(W: nat, H: nat, rect: Option<EditorView.Selection>, effect: Effect, intensity: int, text: string,
                      upscale: bool): (r: Option<seq<Command>>)
    ensures r.None? <==>
      (effect != NoEffect && (Region(rect, W, H).w == 0 || Region(rect, W, H).h == 0))
      || (Filtered(effect) && (W == 0 || H == 0))
      || (upscale && (W == 0 || H == 0))
    ensures r.Some? ==> |r.value| == (if effect == NoEffect then 0 else 1) + (if Text.IsBlank(text) then 0 else 1) + (if upscale then 1 else 0)
    ensures r.Some? && upscale ==> r.value[|r.value| - 1] == UpscaleTo(2 * W, 2 * H, SharpenKernel(UpscaleStrength))
  {
    var effectSteps := EffectSteps(W, H, Region(rect, W, H), effect, intensity);
    var caption := if Text.Trim(text) != [] then [DrawCaption(text, CaptionFor(W, H))] else [];
    if effectSteps.None? || (upscale && (W == 0 || H == 0)) then None
    else Some(effectSteps.value + caption + (if upscale then [UpscaleTo(2 * W, 2 * H, SharpenKernel(UpscaleStrength))] else []))
  }

  /** With no effect, no caption and no upscale there is nothing to do, whatever the image and the selection. */
  lemma PlainExportIsEmpty(W: nat, H: nat, rect: Option<EditorView.Selection>, intensity: int, text: string)
    requires Text.IsBlank(text)
    ensures ExportPlan(W, H, rect, NoEffect, intensity, text, false) == Some([])
  {
  }

  /**
   * The sharpen step as written: the region's pixels (normalised by `getImageData`) are convolved and put back
   * with their top-left corner at the region's own `x` and `y`.
   */
  function SharpenedAsWritten(pixels: seq<byte>, W: nat, H: nat, R: Rect, k: real): (r: seq<byte>)
    requires |pixels| == 4 * W * H && R.w != 0 && R.h != 0
    ensures |r| == |pixels|
  {
    var n := Normalize(R);
    var crop := Crop(pixels, W, H, n.x, n.y, n.w, n.h);
    Paste(pixels, W, H, Convolution.Convolved(crop, n.w, n.h, SharpenKernel(k), 1.0, 0.0), n.w, n.h, R.x, R.y)
  }

  /** The sharpen step as intended: the convolved pixels go back where they were taken from. */
  function Sharpened(pixels: seq<byte>, W: nat, H: nat, R: Rect, k: real): (r: seq<byte>)
    requires |pixels| == 4 * W * H && R.w != 0 && R.h != 0
    ensures |r| == |pixels|
  {
    var n := Normalize(R);
    var crop := Crop(pixels, W, H, n.x, n.y, n.w, n.h);
    Paste(pixels, W, H, Convolution.Convolved(crop, n.w, n.h, SharpenKernel(k), 1.0, 0.0), n.w, n.h, n.x, n.y)
  }

  /**
   * The sharpen step as written changes only the pixels under the convolved image pasted at the raw anchor:
   * every pixel outside that rectangle keeps its bytes.
   */
  lemma SharpenedAsWrittenKeepsOutside(pixels: seq<byte>, W: nat, H: nat, R: Rect, k: real, x: int, y: int, c: int)
    requires |pixels| == 4 * W * H && R.w != 0 && R.h != 0 && 0 <= x < W && 0 <= y < H && 0 <= c < 4
    ensures PixelIn(W, H, x, y, c)
    ensures var n := Normalize(R);
      !(R.x <= x < R.x + n.w && R.y <= y < R.y + n.h) ==>
        SharpenedAsWritten(pixels, W, H, R, k)[Idx(W, x, y) + c] == pixels[Idx(W, x, y) + c]
  {
    var n := Normalize(R);
    var conv := Convolution.Convolved(Crop(pixels, W, H, n.x, n.y, n.w, n.h), n.w, n.h, SharpenKernel(k), 1.0, 0.0);
    assert SharpenedAsWritten(pixels, W, H, R, k) == Paste(pixels, W, H, conv, n.w, n.h, R.x, R.y);
    PasteAt(pixels, W, H, conv, n.w, n.h, R.x, R.y, x, y, c);
  }

  /** For a selection dragged down and to the right the two agree. */
  lemma AnchorAgrees(pixels: seq<byte>, W: nat, H: nat, R: Rect, k: real)
    requires |pixels| == 4 * W * H && R.w > 0 && R.h > 0
    ensures SharpenedAsWritten(pixels, W, H, R, k) == Sharpened(pixels, W, H, R, k)
  {
  }

  /** Intended sharpening depends only on the pixels a selection covers, not on the direction it was dragged. */
  lemma SharpenedIgnoresDirection(pixels: seq<byte>, W: nat, H: nat, R: Rect, k: real)
    requires |pixels| == 4 * W * H && R.w != 0 && R.h != 0
    ensures Sharpened(pixels, W, H, R, k) == Sharpened(pixels, W, H, Normalize(R), k)
  {
    NormalizeSpan(R, 0, 0);
  }

  /**
   * Intended sharpening changes nothing outside the selection, and inside it each channel is the convolution
   * of the selected pixels at the same position relative to the selection.
   */
  lemma SharpenedAt(pixels: seq<byte>, W: nat, H: nat, R: Rect, k: real, x: int, y: int, c: int)
    requires |pixels| == 4 * W * H && R.w != 0 && R.h != 0 && 0 <= x < W && 0 <= y < H && 0 <= c < 4
    ensures PixelIn(W, H, x, y, c)
    ensures var n := Normalize(R);
      !(n.x <= x < n.x + n.w && n.y <= y < n.y + n.h) ==> Sharpened(pixels, W, H, R, k)[Idx(W, x, y) + c] == pixels[Idx(W, x, y) + c]
    ensures var n := Normalize(R);
      n.x <= x < n.x + n.w && n.y <= y < n.y + n.h ==>
        PixelIn(n.w, n.h, x - n.x, y - n.y, c) &&
        Sharpened(pixels, W, H, R, k)[Idx(W, x, y) + c] ==
          Convolution.Convolved(Crop(pixels, W, H, n.x, n.y, n.w, n.h), n.w, n.h, SharpenKernel(k), 1.0, 0.0)[Idx(n.w, x - n.x, y - n.y) + c]
  {
    var n := Normalize(R);
    var conv := Convolution.Convolved(Crop(pixels, W, H, n.x, n.y, n.w, n.h), n.w, n.h, SharpenKernel(k), 1.0, 0.0);
    assert Sharpened(pixels, W, H, R, k) == Paste(pixels, W, H, conv, n.w, n.h, n.x, n.y);
    PasteAt(pixels, W, H, conv, n.w, n.h, n.x, n.y, x, y, c);
    if n.x <= x < n.x + n.w && n.y <= y < n.y + n.h {
      PixelOf(n.w, n.h, x - n.x, y - n.y, c);
    }
  }

  /**
   * A 3-by-3 white image with the whole image selected by dragging from its bottom-right corner up to its
   * top-left one: as written the sharpened pixels land outside the canvas and the corner keeps its value;
   * as intended the corner is on the convolution's border ring and becomes 0.
   */
  lemma UpLeftSelectionMissesCanvas()
    ensures var white := seq(36, _ => 255 as byte);
      SharpenedAsWritten(white, 3, 3, Rect(3, 3, -3, -3), 2.0)[0] == 255
      && Sharpened(white, 3, 3, Rect(3, 3, -3, -3), 2.0)[0] == 0
  {
    var white := seq(36, _ => 255 as byte);
    CropWhole(white, 3, 3);
    var conv := Convolution.Convolved(white, 3, 3, SharpenKernel(2.0), 1.0, 0.0);
    PasteAt(white, 3, 3, conv, 3, 3, 3, 3, 0, 0, 0);
    PasteWhole(white, 3, 3, conv);
    Convolution.BorderIsZero(white, 3, 3, SharpenKernel(2.0), 1.0, 0.0, 0, 0, 0);
  }

  /** The drawing `f` turns every bitmap of `from` bytes into one of `to` bytes. */
  ghost predicate Resizes(f: seq<byte> -> seq<byte>, from: nat, to: nat) {
    forall b: seq<byte> :: |b| == from ==> |f(b)| == to
  }

  /**
   * The image bitmap after the effect step. `paint` is what the browser draws for a pixelate or filter
   * effect, applied to the bitmap as it stands.
   */
  function AfterEffect(pixels: seq<byte>, W: nat, H: nat, R: Rect, effect: Effect, intensity: int,
                       paint: seq<byte> -> seq<byte>): (r: seq<byte>)
    requires |pixels| == 4 * W * H && (effect == Sharpen ==> R.w != 0 && R.h != 0)
    requires Resizes(paint, 4 * W * H, 4 * W * H)
    ensures |r| == |pixels|
    ensures effect == NoEffect ==> r == pixels
    ensures effect == Sharpen ==> r == SharpenedAsWritten(pixels, W, H, R, SharpenStrength(intensity))
    ensures effect != NoEffect && effect != Sharpen ==> r == paint(pixels)
  {
    if effect == Sharpen then SharpenedAsWritten(pixels, W, H, R, SharpenStrength(intensity))
    else if effect == NoEffect then pixels
    else paint(pixels)
  }

  /**
   * The image bitmap after the effect and caption steps: `caption` is what `strokeText` and `fillText` draw,
   * and it draws on the bitmap the effect step left.
   */
  function Edited(pixels: seq<byte>, W: nat, H: nat, R: Rect, effect: Effect, intensity: int, text: string,
                  paint: seq<byte> -> seq<byte>, caption: seq<byte> -> seq<byte>): (r: seq<byte>)
    requires |pixels| == 4 * W * H && (effect == Sharpen ==> R.w != 0 && R.h != 0)
    requires Resizes(paint, 4 * W * H, 4 * W * H) && Resizes(caption, 4 * W * H, 4 * W * H)
    ensures |r| == |pixels|
    ensures Text.IsBlank(text) ==> r == AfterEffect(pixels, W, H, R, effect, intensity, paint)
    ensures !Text.IsBlank(text) ==> r == caption(AfterEffect(pixels, W, H, R, effect, intensity, paint))
  {
    var afterEffect := AfterEffect(pixels, W, H, R, effect, intensity, paint);
    if Text.Trim(text) != [] then caption(afterEffect) else afterEffect
  }

  /** The 2x upscale step: `resample` draws the edited bitmap smoothed at 2W by 2H, which is then sharpened with strength 1.2. */
  function Upscaled(edited: seq<byte>, W: nat, H: nat, resample: seq<byte> -> seq<byte>): (r: seq<byte>)
    requires W >= 1 && |edited| == 4 * W * H && Resizes(resample, 4 * W * H, 4 * (2 * W) * (2 * H))
    ensures |r| == 4 * (2 * W) * (2 * H)
  {
    Convolution.Convolved(resample(edited), 2 * W, 2 * H, SharpenKernel(UpscaleStrength), 1.0, 0.0)
  }

  /** The exported picture: file name, size and pixels (PNG encoding is not modelled). */
  datatype Export = Export(name: string, width: nat, height: nat, pixels: seq<byte>)

  /**
   * `applyAndExport` on `base`, the image drawn at its natural size. `paint`, `caption` and `resample` are
   * what the browser draws, each on the bitmap the step before it left: a pixelate or filter effect, the
   * caption, and the smoothed 2x copy. `None`: a canvas call throws and nothing is exported.
   */
  method ApplyAndExport(base: Canvas, rect: Option<EditorView.Selection>, effect: Effect, intensity: int, text: string,
                        upscale: bool, fileName: string, paint: seq<byte> -> seq<byte>, caption: seq<byte> -> seq<byte>,
                        resample: seq<byte> -> seq<byte>)
    returns (r: Option<Export>)
    requires base.Valid()
    requires Resizes(paint, 4 * base.width * base.height, 4 * base.width * base.height)
    requires Resizes(caption, 4 * base.width * base.height, 4 * base.width * base.height)
    requires Resizes(resample, 4 * base.width * base.height, 4 * (2 * base.width) * (2 * base.height))
    modifies base.data
    ensures r.None? <==> ExportPlan(base.width, base.height, rect, effect, intensity, text, upscale).None?
    ensures r.Some? ==> r.value.name == ExportName(fileName)
    ensures r.Some? && !upscale ==>
      r.value.width == base.width && r.value.height == base.height
      && r.value.pixels == Edited(old(base.data[..]), base.width, base.height, Region(rect, base.width, base.height),
                                  effect, intensity, text, paint, caption)
    ensures r.Some? && upscale ==>
      base.width >= 1 && r.value.width == 2 * base.width && r.value.height == 2 * base.height
      && r.value.pixels == Upscaled(Edited(old(base.data[..]), base.width, base.height, Region(rect, base.width, base.height),
                                           effect, intensity, text, paint, caption), base.width, base.height, resample)
  {
    var W, H := base.width, base.height;
    var R := Region(rect, W, H);
    if effect != NoEffect && (R.w == 0 || R.h == 0) {
      return None;
    }
    if Filtered(effect) && (W == 0 || H == 0) {
      return None;
    }
    ghost var before := base.data[..];
    ApplyEffect(base, R, effect, intensity, paint);
    CaptionStep(base, text, caption);
    assert base.data[..] == Edited(before, W, H, R, effect, intensity, text, paint, caption);
    if !upscale {
      return Some(Export(ExportName(fileName), W, H, base.data[..]));
    }
    if W == 0 || H == 0 {
      return None;
    }
    var pixels := UpscaleCopy(base, resample);
    return Some(Export(ExportName(fileName), 2 * W, 2 * H, pixels));
  }

  /** The effect step on the canvas: sharpen through the convolution, the other effects as `paint` draws them. */
  method ApplyEffect(base: Canvas, R: Rect, effect: Effect, intensity: int, paint: seq<byte> -> seq<byte>)
    requires base.Valid() && (effect != NoEffect ==> R.w != 0 && R.h != 0)
    requires Resizes(paint, 4 * base.width * base.height, 4 * base.width * base.height)
    modifies base.data
    ensures base.data[..] == AfterEffect(old(base.data[..]), base.width, base.height, R, effect, intensity, paint)
  {
    ghost var before := base.data[..];
    if effect == Sharpen {
      var data := base.GetImageData(R.x, R.y, R.w, R.h);
      var out := Convolution.ApplyConvolution(data.value, SharpenKernel(SharpenStrength(intensity)), 1.0, 0.0);
      base.PutImageData(out, R.x, R.y);
      assert base.data[..] == SharpenedAsWritten(before, base.width, base.height, R, SharpenStrength(intensity));
    } else if effect != NoEffect {
      base.Repaint(paint(base.data[..]));
    }
  }

  /** The caption step on the canvas: a non-blank text is drawn, by `caption`, over what is there. */
  method CaptionStep(base: Canvas, text: string, caption: seq<byte> -> seq<byte>)
    requires base.Valid() && Resizes(caption, 4 * base.width * base.height, 4 * base.width * base.height)
    modifies base.data
    ensures Text.IsBlank(text) ==> base.data[..] == old(base.data[..])
    ensures !Text.IsBlank(text) ==> base.data[..] == caption(old(base.data[..]))
  {
    if Text.Trim(text) != [] {
      base.Repaint(caption(base.data[..]));
    }
  }

  /** The 2x step: a fresh canvas holds `resample` of the bitmap, which is read, sharpened and put back. */
  method UpscaleCopy(base: Canvas, resample: seq<byte> -> seq<byte>) returns (pixels: seq<byte>)
    requires base.Valid() && base.width >= 1 && base.height >= 1
    requires Resizes(resample, 4 * base.width * base.height, 4 * (2 * base.width) * (2 * base.height))
    ensures pixels == Upscaled(base.data[..], base.width, base.height, resample)
  {
    var W, H := base.width, base.height;
    var resampled := resample(base.data[..]);
    var up := new Canvas(2 * W, 2 * H, resampled);
    var data := up.GetImageData(0, 0, 2 * W, 2 * H);
    CropWhole(resampled, 2 * W, 2 * H);
    var out := Convolution.ApplyConvolution(data.value, SharpenKernel(UpscaleStrength), 1.0, 0.0);
    up.PutImageData(out, 0, 0);
    PasteWhole(resampled, 2 * W, 2 * H, out.data[..]);
    pixels := up.data[..];
  }

  /** An export with no effect and no caption reproduces the image byte for byte, whatever the browser would draw. */
  lemma PlainExportIsIdentity(pixels: seq<byte>, W: nat, H: nat, R: Rect, intensity: int, text: string,
                              paint: seq<byte> -> seq<byte>, caption: seq<byte> -> seq<byte>)
    requires |pixels| == 4 * W * H && Text.IsBlank(text)
    requires Resizes(paint, 4 * W * H, 4 * W * H) && Resizes(caption, 4 * W * H, 4 * W * H)
    ensures Edited(pixels, W, H, R, NoEffect, intensity, text, paint, caption) == pixels
  {
  }

  /**
   * A caption is drawn on the sharpened bitmap, and the 2x export resamples the captioned one: the chain of
   * steps passes each bitmap on to the next.
   */
  lemma SharpenCaptionUpscale(pixels: seq<byte>, W: nat, H: nat, R: Rect, intensity: int, text: string,
                              paint: seq<byte> -> seq<byte>, caption: seq<byte> -> seq<byte>, resample: seq<byte> -> seq<byte>)
    requires W >= 1 && |pixels| == 4 * W * H && R.w != 0 && R.h != 0 && !Text.IsBlank(text)
    requires Resizes(paint, 4 * W * H, 4 * W * H) && Resizes(caption, 4 * W * H, 4 * W * H)
    requires Resizes(resample, 4 * W * H, 4 * (2 * W) * (2 * H))
    ensures Upscaled(Edited(pixels, W, H, R, Sharpen, intensity, text, paint, caption), W, H, resample)
      == Convolution.Convolved(resample(caption(SharpenedAsWritten(pixels, W, H, R, SharpenStrength(intensity)))),
                               2 * W, 2 * H, SharpenKernel(UpscaleStrength), 1.0, 0.0)
  {
  }

  /** The upscaled export keeps the resampled alpha inside and, as written, zeroes its one-pixel border ring. */
  lemma UpscaledBorder(edited: seq<byte>, W: nat, H: nat, resample: seq<byte> -> seq<byte>, x: int, y: int, c: int)
    requires W >= 1 && H >= 1 && |edited| == 4 * W * H && Resizes(resample, 4 * W * H, 4 * (2 * W) * (2 * H))
    requires 0 <= x < 2 * W && 0 <= y < 2 * H && 0 <= c < 4
    ensures PixelIn(2 * W, 2 * H, x, y, c)
    ensures (x == 0 || y == 0 || x == 2 * W - 1 || y == 2 * H - 1) ==> Upscaled(edited, W, H, resample)[Idx(2 * W, x, y) + c] == 0
    ensures Convolution.Interior(2 * W, 2 * H, x, y) && c == 3 ==>
      Upscaled(edited, W, H, resample)[Idx(2 * W, x, y) + 3] == resample(edited)[Idx(2 * W, x, y) + 3]
  {
    Convolution.ConvolvedAt(resample(edited), 2 * W, 2 * H, SharpenKernel(UpscaleStrength), 1.0, 0.0, x, y, c);
  }

  /**
   * The selection in full-resolution image pixels, as intended: the preview selection mapped back through
   * the contain fit, zoom and pan that `draw` uses for a W-by-H preview of an iw-by-ih image.
   */
  function ImageRegion(sel: EditorView.Selection, W: real, H: real, iw: real, ih: real, scale: real,
                       offset: EditorView.Point): (r: EditorView.Selection)
    requires W > 0.0 && H > 0.0 && iw > 0.0 && ih > 0.0 && scale > 0.0
    ensures var p := EditorView.Fit(W, H, iw, ih, scale, offset);
      r.w * p.drawW == sel.w * iw && r.h * p.drawH == sel.h * ih
  {
    var p := EditorView.Fit(W, H, iw, ih, scale, offset);
    var s := EditorView.ContainScale(W, H, iw, ih) * scale;
    EditorView.ContainScalePositive(W, H, iw, ih);
    EditorView.Selection((sel.x - p.dx) / s, (sel.y - p.dy) / s, sel.w / s, sel.h / s)
  }

  /** Selecting exactly the drawn image in the preview selects the whole image. */
  lemma ImageRegionOfFrame(W: real, H: real, iw: real, ih: real, scale: real, offset: EditorView.Point)
    requires W > 0.0 && H > 0.0 && iw > 0.0 && ih > 0.0 && scale > 0.0
    ensures var p := EditorView.Fit(W, H, iw, ih, scale, offset);
      ImageRegion(EditorView.Selection(p.dx, p.dy, p.drawW, p.drawH), W, H, iw, ih, scale, offset)
        == EditorView.Selection(0.0, 0.0, iw, ih)
  {
    EditorView.ContainScalePositive(W, H, iw, ih);
  }

  /**
   * The 1024-by-576 preview of a 2048-by-1152 image, unzoomed and unpanned: selecting the top-left quarter of
   * the preview selects the top-left quarter of the image, but the export edits the region with the preview's
   * numbers, a sixteenth of the image.
   */
  lemma PreviewSelectionIsNotImageSelection()
    ensures var sel := EditorView.Selection(0.0, 0.0, 512.0, 288.0);
      Region(Some(sel), 2048, 1152) == Rect(0, 0, 512, 288)
      && ImageRegion(sel, 1024.0, 576.0, 2048.0, 1152.0, 1.0, EditorView.Point(0.0, 0.0)) == EditorView.Selection(0.0, 0.0, 1024.0, 576.0)
  {
    assert EditorView.ContainScale(1024.0, 576.0, 2048.0, 1152.0) == 0.5;
  }
}
