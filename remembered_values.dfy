/** Validation of the remembered editor preferences (normalizeRememberedValues in
    src/shared/rememberedValues.ts); the localStorage reads and writes around it are
    not modelled. */
module RememberedValues {
  import opened Wrappers
  import opened Types
  import opened Constants

  /** A property value as JSON or a caller can hand it over: a finite number, one of
      the three non-finite numbers, or something that is not a number at all. */
  datatype NumberValue = Finite(x: real) | NaN | PositiveInfinity | NegativeInfinity | NotANumber

  /** The untyped input: a falsy value or a non-object, or an object whose
      `borderPercent` and `ratio` properties are read (`ratio` is None unless it is a string). */
  datatype Input = NotObject | Object(borderPercent: NumberValue, ratio: Option<string>)

  datatype Remembered = Remembered(borderPercent: real, ratio: AspectRatioOption)

  /** isAspectRatioOption: a string naming one of the labelled options. */
  function IsAspectRatioOption(value: Option<string>): (r: bool)
    ensures r <==> exists o | o in AspectRatioLabels :: value == Some(Key(o))
  {
    if value.None? then false
    else
      var option := OptionOfKey(value.value);
      if option.Some? then OptionOfKeyInverse(option.value); true else false
  }

  /** Math.min(BORDER_PERCENT_MAX, Math.max(BORDER_PERCENT_MIN, x)). */
  function Clamp(x: real): (r: real)
    ensures BorderPercentMin <= r <= BorderPercentMax
    ensures BorderPercentMin <= x <= BorderPercentMax ==> r == x
    ensures x < BorderPercentMin ==> r == BorderPercentMin
    ensures x > BorderPercentMax ==> r == BorderPercentMax
  {
    var atLeastMin := if BorderPercentMin > x then BorderPercentMin else x;
    if BorderPercentMax < atLeastMin then BorderPercentMax else atLeastMin
  }

  /** normalizeRememberedValues: null for anything but an object with a finite numeric
      border and a known ratio key; otherwise the border clamped into [0, 20] and the ratio. */
  function Normalize(value: Input): (r: Option<Remembered>)
    ensures r.Some? <==>
      value.Object? && value.borderPercent.Finite? && IsAspectRatioOption(value.ratio)
    ensures r.Some? ==>
      && BorderPercentMin <= r.value.borderPercent <= BorderPercentMax
      && value.ratio == Some(Key(r.value.ratio))
      && (BorderPercentMin <= value.borderPercent.x <= BorderPercentMax ==> r.value.borderPercent == value.borderPercent.x)
    ensures r.Some? ==> r.value.borderPercent == Clamp(value.borderPercent.x)
  {
    if value.NotObject? then None
    else if !value.borderPercent.Finite? then None
    else if !IsAspectRatioOption(value.ratio) then None
    else Some(Remembered(Clamp(value.borderPercent.x), OptionOfKey(value.ratio.value).value))
  }

  /** The object JSON.stringify writes for remembered values and JSON.parse reads back. */
  function Serialize(values: Remembered): (stored: Input)
  {
    Object(Finite(values.borderPercent), Some(Key(values.ratio)))
  }

  /** Normalising an already normalised value changes nothing. */
  lemma NormalizeIdempotent(value: Input)
    requires Normalize(value).Some?
    ensures Normalize(Serialize(Normalize(value).value)) == Normalize(value)
  {
    var n := Normalize(value).value;
    OptionOfKeyInverse(n.ratio);
  }

  /** saveRememberedValues: what it stores, or None when normalisation fails and
      nothing is written. */
  function Saved(values: Input): (r: Option<Input>)
    ensures r.None? <==> Normalize(values).None?
  {
    match Normalize(values)
    case None => None
    case Some(normalized) => Some(Serialize(normalized))
  }

  /** Loading what save wrote gives back the normalised values that were saved. */
  lemma LoadAfterSave(values: Input)
    requires Saved(values).Some?
    ensures Normalize(Saved(values).value) == Normalize(values)
  {
    NormalizeIdempotent(values);
  }
}
