/** Resolving a ratio option to a numeric width / height ratio (src/domain/aspectRatio.ts). */
module AspectRatio {
  import opened Types
  import opened Constants

  /** The target width / height ratio for `option`. "original" takes the photo's
      own ratio, falling back to 1 for a zero height; a preset ignores the photo. */
  function ResolveAspectRatio(option: AspectRatioOption, sourceWidth: nat, sourceHeight: nat): (r: real)
    ensures option == Original && sourceHeight == 0 ==> r == 1.0
    ensures option == Original && sourceHeight > 0 ==> r * sourceHeight as real == sourceWidth as real
    ensures option != Original ==> option in AspectRatios && r == AspectRatios[option]
    ensures r >= 0.0
    ensures option != Original || sourceWidth > 0 || sourceHeight == 0 ==> r > 0.0
  {
    if option == Original then
      if sourceHeight == 0 then 1.0 else sourceWidth as real / sourceHeight as real
    else
      PresetTables();
      AspectRatios[option]
  }

  /** A preset's ratio does not depend on the photo at all. */
  lemma PresetIgnoresSource(option: AspectRatioOption, w1: nat, h1: nat, w2: nat, h2: nat)
    requires option != Original
    ensures ResolveAspectRatio(option, w1, h1) == ResolveAspectRatio(option, w2, h2)
  {
  }

  /** The documented example: a 1000 x 500 photo has ratio 2 under "original",
      and the presets give their table values. */
  lemma ResolveExamples()
    ensures ResolveAspectRatio(Original, 1000, 500) == 2.0
    ensures ResolveAspectRatio(Story, 1000, 500) == 0.5625
    ensures ResolveAspectRatio(PostVertical, 1000, 500) == 0.8
    ensures ResolveAspectRatio(PostHorizontal, 1000, 500) == 1.91
  {
  }
}
