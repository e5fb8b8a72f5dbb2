/** The fixed tables and bounds of src/shared/constants.ts. */
module Constants {
  import opened Wrappers
  import opened Types

  /** The property name under which an option is stored in the label and ratio records. */
  function Key(option: AspectRatioOption): (key: string)
  {
    match option
    case Story => "story"
    case Square => "square"
    case PostVertical => "post-vertical"
    case PostHorizontal => "post-horizontal"
    case Original => "original"
  }

  /** ASPECT_RATIO_LABELS: every option has a human-readable label. */
  const AspectRatioLabels: map<AspectRatioOption, string> := map[
    Story := "Instagram Story (9:16)",
    Square := "Instagram Square (1:1)",
    PostVertical := "Instagram Post Vertical (4:5)",
    PostHorizontal := "Instagram Post Horizontal (1.91:1)",
    Original := "Original"
  ]

  /** ASPECT_RATIOS: width / height of every preset; "original" has no entry. */
  const AspectRatios: map<AspectRatioOption, real> := map[
    Story := 9.0 / 16.0,
    Square := 1.0,
    PostVertical := 4.0 / 5.0,
    PostHorizontal := 1.91 / 1.0
  ]

  const BorderPercentMin: real := 0.0
  const BorderPercentMax: real := 20.0
  const DefaultBorderPercent: real := 8.0
  const DefaultRatio: AspectRatioOption := Story

  /** The option whose record key is `key`, if there is one (the key lookup
      that `value in ASPECT_RATIO_LABELS` performs). */
  function OptionOfKey(key: string): (r: Option<AspectRatioOption>)
    ensures r.Some? ==> r.value in AspectRatioLabels && Key(r.value) == key
    ensures r.None? ==> forall o | o in AspectRatioLabels :: Key(o) != key
  {
    if key == "story" then Some(Story)
    else if key == "square" then Some(Square)
    else if key == "post-vertical" then Some(PostVertical)
    else if key == "post-horizontal" then Some(PostHorizontal)
    else if key == "original" then Some(Original)
    else None
  }

  /** Record keys name options one to one: looking up an option's own key gives it back. */
  lemma OptionOfKeyInverse(option: AspectRatioOption)
    ensures OptionOfKey(Key(option)) == Some(option)
  {
    match option
    case Story =>
    case Square =>
    case PostVertical =>
    case PostHorizontal =>
    case Original =>
  }

  /** Every option has a label; exactly the four presets have a ratio, and those
      ratios are the exact fractions 9/16, 1, 4/5 and 1.91, all positive. */
  lemma PresetTables()
    ensures forall o: AspectRatioOption :: o in AspectRatioLabels
    ensures forall o: AspectRatioOption :: o in AspectRatios <==> o != Original
    ensures AspectRatios[Story] == 0.5625 && AspectRatios[Square] == 1.0
    ensures AspectRatios[PostVertical] == 0.8 && AspectRatios[PostHorizontal] == 1.91
    ensures forall o | o in AspectRatios :: AspectRatios[o] > 0.0
  {
    forall o: AspectRatioOption
      ensures o in AspectRatioLabels
      ensures o in AspectRatios <==> o != Original
    {
      match o
      case Story =>
      case Square =>
      case PostVertical =>
      case PostHorizontal =>
      case Original =>
    }
  }

  /** The default border lies inside the allowed range and the default ratio is a labelled option. */
  lemma DefaultsInRange()
    ensures BorderPercentMin <= DefaultBorderPercent <= BorderPercentMax
    ensures DefaultRatio in AspectRatioLabels && DefaultRatio in AspectRatios
  {
  }
}
