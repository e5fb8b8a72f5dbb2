/** The minimum-margin check of src/domain/borderCalc.ts. */
module BorderCalc {
  import opened Types
  import Layout

  /** max(0, floor(borderPixels)): the requirement as a whole, non-negative pixel count. */
  function SafeRequirement(borderPixels: real): (r: nat)
    ensures r as real <= borderPixels || (r == 0 && borderPixels < 0.0)
    ensures borderPixels >= 0.0 ==> borderPixels < r as real + 1.0
  {
    if borderPixels.Floor < 0 then 0 else borderPixels.Floor
  }

  /** A whole-pixel distance `d` meets the requirement max(0, floor(borderPixels)). */
  predicate Meets(d: int, borderPixels: real)
  {
    d >= 0 && d as real > borderPixels - 1.0
  }

  /** ensureMinimumBorder: the distance from each canvas edge to the photo's top-left
      corner (drawX and canvasWidth - drawX across, drawY and canvasHeight - drawY down)
      is a whole number of pixels no smaller than zero and than borderPixels - 1. */
  function EnsureMinimumBorder(layout: LayoutResult, borderPixels: real): (r: bool)
    ensures r <==>
      && Meets(layout.drawX, borderPixels)
      && Meets(layout.canvasWidth - layout.drawX, borderPixels)
      && Meets(layout.drawY, borderPixels)
      && Meets(layout.canvasHeight - layout.drawY, borderPixels)
  {
    var safeBorder := SafeRequirement(borderPixels);
    var minX := Layout.Min(layout.drawX, layout.canvasWidth - layout.drawX);
    var minY := Layout.Min(layout.drawY, layout.canvasHeight - layout.drawY);
    minX >= safeBorder && minY >= safeBorder
  }

  /** A fractional or negative requirement behaves exactly like its clamped floor. */
  lemma RequirementIsClampedFloor(layout: LayoutResult, borderPixels: real)
    ensures EnsureMinimumBorder(layout, borderPixels)
         == EnsureMinimumBorder(layout, SafeRequirement(borderPixels) as real)
  {
  }

  /** Antitone: a layout that honours a requirement honours every smaller one. */
  lemma Antitone(layout: LayoutResult, b: real, smaller: real)
    requires smaller <= b && EnsureMinimumBorder(layout, b)
    ensures EnsureMinimumBorder(layout, smaller)
  {
  }

  /** A requirement of zero or less only asks that the four distances be non-negative. */
  lemma NonPositiveRequirement(layout: LayoutResult, borderPixels: real)
    requires borderPixels <= 0.0
    ensures EnsureMinimumBorder(layout, borderPixels) <==>
      layout.drawX >= 0 && layout.canvasWidth - layout.drawX >= 0
      && layout.drawY >= 0 && layout.canvasHeight - layout.drawY >= 0
  {
  }

  /** Every layout calculateLayout produces passes the check for its own border width. */
  lemma LayoutHonoursItsBorder(input: Layout.LayoutInput)
    ensures EnsureMinimumBorder(Layout.CalculateLayout(input),
                                Layout.SafeBorder(input.source, input.borderPercent) as real)
  {
  }
}
