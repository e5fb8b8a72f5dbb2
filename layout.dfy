/** The frame geometry engine (src/domain/layout.ts): border, bordered base size,
    padding to the target ratio and centring of the untouched photo. */
module Layout {
  import opened Types
  import opened Constants
  import opened AspectRatio

  datatype LayoutInput = LayoutInput(source: ImageSize, borderPercent: real, ratio: AspectRatioOption)

  /** JavaScript's Math.round: the nearest integer, a half rounded up (towards +Infinity). */
  function Round(x: real): (r: int)
    ensures x - 0.5 < r as real <= x + 0.5
  {
    (x + 0.5).Floor
  }

  function Min(a: int, b: int): (m: int)
  {
    if a <= b then a else b
  }

  /** The border width in pixels: the given percentage of the shorter side, rounded,
      and never negative. */
  function SafeBorder(source: ImageSize, borderPercent: real): (r: nat)
    ensures var exact := Min(source.width, source.height) as real * (borderPercent / 100.0);
      && exact - 0.5 < r as real
      && (r > 0 ==> r as real <= exact + 0.5)
      && (exact < 0.5 ==> r == 0)
  {
    var rounded := Round(Min(source.width, source.height) as real * (borderPercent / 100.0));
    if rounded < 0 then 0 else rounded
  }

  /** `baseWidth / baseHeight > targetRatio` as JavaScript evaluates it: a zero height
      gives +Infinity (greater than any ratio) or, with a zero width too, NaN (never greater). */
  predicate WiderThan(baseWidth: nat, baseHeight: nat, targetRatio: real)
  {
    if baseHeight == 0 then baseWidth > 0
    else baseWidth as real / baseHeight as real > targetRatio
  }

  /** The bordered base size: the border added on all four sides of the photo. */
  function BaseSize(input: LayoutInput): (base: (nat, nat))
    ensures base.0 - input.source.width == base.1 - input.source.height
                                        == 2 * SafeBorder(input.source, input.borderPercent)
  {
    var safeBorder := SafeBorder(input.source, input.borderPercent);
    (input.source.width + safeBorder * 2, input.source.height + safeBorder * 2)
  }

  /** The canvas size: the base itself for "original"; otherwise the base padded in one
      direction so that its ratio approaches the target: a base wider than the target
      keeps its width and takes the rounded height width / ratio, any other keeps its
      height and takes the rounded width height * ratio. Never smaller than the base. */
  function PaddedCanvas(baseWidth: nat, baseHeight: nat, ratio: AspectRatioOption, targetRatio: real): (canvas: (int, int))
    requires ratio != Original ==> targetRatio > 0.0
    ensures canvas.0 >= baseWidth && canvas.1 >= baseHeight
    ensures ratio == Original ==> canvas == (baseWidth, baseHeight)
    ensures ratio != Original && WiderThan(baseWidth, baseHeight, targetRatio) ==>
      canvas.0 == baseWidth && -0.5 < canvas.1 as real - baseWidth as real / targetRatio <= 0.5
    ensures ratio != Original && !WiderThan(baseWidth, baseHeight, targetRatio) ==>
      canvas.1 == baseHeight && -0.5 < canvas.0 as real - baseHeight as real * targetRatio <= 0.5
  {
    if ratio == Original then (baseWidth, baseHeight)
    else if WiderThan(baseWidth, baseHeight, targetRatio) then
      PadVerticallyGrows(baseWidth, baseHeight, targetRatio);
      (baseWidth, Round(baseWidth as real / targetRatio))
    else
      PadHorizontallyGrows(baseWidth, baseHeight, targetRatio);
      (Round(baseHeight as real * targetRatio), baseHeight)
  }

  /** calculateLayout: the border, the bordered base, the padding to the target ratio
      and the offset that centres the photo on the canvas. */
  function CalculateLayout(input: LayoutInput): (r: LayoutResult)
    // the frame only adds padding: the canvas holds the bordered photo
    ensures r.canvasWidth >= input.source.width + 2 * SafeBorder(input.source, input.borderPercent)
    ensures r.canvasHeight >= input.source.height + 2 * SafeBorder(input.source, input.borderPercent)
    // the photo fits, with at least the border on each of the four sides
    ensures SafeBorder(input.source, input.borderPercent) <= r.drawX
    ensures SafeBorder(input.source, input.borderPercent) <= r.canvasWidth - r.drawX - input.source.width
    ensures SafeBorder(input.source, input.borderPercent) <= r.drawY
    ensures SafeBorder(input.source, input.borderPercent) <= r.canvasHeight - r.drawY - input.source.height
    // centred: the left (top) margin equals the right (bottom) one or exceeds it by one pixel
    ensures 0 <= r.drawX - (r.canvasWidth - r.drawX - input.source.width) <= 1
    ensures 0 <= r.drawY - (r.canvasHeight - r.drawY - input.source.height) <= 1
  {
    var source := input.source;
    var safeBorder := SafeBorder(source, input.borderPercent);
    var base := BaseSize(input);
    var targetRatio := ResolveAspectRatio(input.ratio, source.width, source.height);
    var canvas := PaddedCanvas(base.0, base.1, input.ratio, targetRatio);
    var drawX := Round((canvas.0 - source.width) as real / 2.0);
    var drawY := Round((canvas.1 - source.height) as real / 2.0);
    CentredOffset(canvas.0 - source.width, safeBorder);
    CentredOffset(canvas.1 - source.height, safeBorder);
    LayoutResult(canvas.0, canvas.1, drawX, drawY)
  }

  /** For a base wider than the target, the rounded height baseWidth / ratio is at
      least the base height. */
  lemma PadVerticallyGrows(baseWidth: nat, baseHeight: nat, targetRatio: real)
    requires targetRatio > 0.0 && WiderThan(baseWidth, baseHeight, targetRatio)
    ensures Round(baseWidth as real / targetRatio) >= baseHeight
  {
    var w, h := baseWidth as real, baseHeight as real;
    if baseHeight > 0 {
      assert w / h * h == w;
      assert w > targetRatio * h;
    }
    assert w / targetRatio * targetRatio == w;
    assert w / targetRatio > h - 0.5;
  }

  /** For a base no wider than the target, the rounded width baseHeight * ratio is at
      least the base width. */
  lemma PadHorizontallyGrows(baseWidth: nat, baseHeight: nat, targetRatio: real)
    requires !WiderThan(baseWidth, baseHeight, targetRatio)
    ensures Round(baseHeight as real * targetRatio) >= baseWidth
  {
    var w, h := baseWidth as real, baseHeight as real;
    if baseHeight > 0 {
      assert w / h * h == w;
      assert w <= targetRatio * h;
    }
  }

  /** Rounding half the spare room gives an offset that leaves at least `border`
      on both sides and splits the room evenly, the odd pixel going first. */
  lemma CentredOffset(spare: int, border: nat)
    requires spare >= 2 * border
    ensures var offset := Round(spare as real / 2.0);
      border <= offset && border <= spare - offset && 0 <= offset - (spare - offset) <= 1
  {
  }

  /** With "original" the canvas is exactly the bordered base. */
  lemma OriginalKeepsBase(input: LayoutInput)
    requires input.ratio == Original
    ensures var r := CalculateLayout(input);
      (r.canvasWidth, r.canvasHeight) == BaseSize(input)
  {
  }

  /** With a preset, the dimension that is not padded stays the base one, and the padded
      one is within half a pixel of what the exact ratio asks for. */
  lemma PresetPadsOneSide(input: LayoutInput)
    requires input.ratio != Original
    ensures var r := CalculateLayout(input);
      var baseWidth, baseHeight := BaseSize(input).0, BaseSize(input).1;
      var target := AspectRatios[input.ratio];
      if WiderThan(baseWidth, baseHeight, target) then
        r.canvasWidth == baseWidth
        && -0.5 < r.canvasHeight as real - r.canvasWidth as real / target <= 0.5
      else
        r.canvasHeight == baseHeight
        && -0.5 < r.canvasWidth as real - r.canvasHeight as real * target <= 0.5
  {
    var base := BaseSize(input);
    var target := ResolveAspectRatio(input.ratio, input.source.width, input.source.height);
    var canvas := PaddedCanvas(base.0, base.1, input.ratio, target);
    assert (CalculateLayout(input).canvasWidth, CalculateLayout(input).canvasHeight) == canvas;
  }

  /** Whatever side was padded, canvasWidth misses targetRatio * canvasHeight by at most
      one pixel, so the canvas ratio approaches the preset as the canvas grows. */
  lemma {:induction false} PresetRatioWithinOnePixel(input: LayoutInput)
    requires input.ratio != Original
    ensures var r := CalculateLayout(input);
      var target := AspectRatios[input.ratio];
      -1.0 <= r.canvasWidth as real - target * r.canvasHeight as real <= 1.0
  {
    PresetTables();
    PresetPadsOneSide(input);
    var r := CalculateLayout(input);
    var baseWidth, baseHeight := BaseSize(input).0, BaseSize(input).1;
    var target := AspectRatios[input.ratio];
    var w, h := r.canvasWidth as real, r.canvasHeight as real;
    if WiderThan(baseWidth, baseHeight, target) {
      assert -0.5 < h - w / target <= 0.5;
      assert w / target * target == w;
      assert target * h - w == target * (h - w / target);
      assert target <= 2.0;
    }
  }

  /** src/domain/layout.test.ts: 1200 x 900 at 10% with "original" gives a
      1380 x 1080 canvas with the photo at (90, 90). */
  lemma ExampleOriginal()
    ensures CalculateLayout(LayoutInput(ImageSize(1200, 900), 10.0, Original))
         == LayoutResult(1380, 1080, 90, 90)
  {
  }

  /** src/domain/layout.test.ts: 1200 x 900 at 12% with "story" pads vertically to a
      ratio within 0.005 of 9/16 and a height above 940. */
  lemma ExampleStory()
    ensures var r := CalculateLayout(LayoutInput(ImageSize(1200, 900), 12.0, Story));
      r == LayoutResult(1416, 2517, 108, 809)
      && -0.005 < r.canvasWidth as real / r.canvasHeight as real - 0.5625 < 0.005
      && r.canvasHeight > 940
  {
  }

  /** src/domain/layout.test.ts: 1200 x 900 at 6% with "post-horizontal" pads
      horizontally to a ratio within 0.005 of 1.91 and a width above 1216. */
  lemma ExamplePostHorizontal()
    ensures var r := CalculateLayout(LayoutInput(ImageSize(1200, 900), 6.0, PostHorizontal));
      r == LayoutResult(1925, 1008, 363, 54)
      && -0.005 < r.canvasWidth as real / r.canvasHeight as real - 1.91 < 0.005
      && r.canvasWidth > 1216
  {
  }
}
