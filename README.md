# just-frames core, modelled in Dafny

just-frames puts a border around a photo, pads the result out to an Instagram
aspect ratio and exports it, carrying the photo's Exif metadata over to the
exported JPEG. This project models the deterministic core of that program and
proves its properties:

- `Exif` (exif.dfy): the JPEG marker walk that finds the first Exif APP1
  segment and the splice that puts a segment back right after SOI. Marker codes
  follow Table B.1 of ITU-T T.81; a segment's big-endian length counts its own
  two bytes (clause B.1.1.4); an Exif APP1 payload starts with `Exif\0\0`
  (section 4.7.2 of Exif 2.x). The scan is a `while` loop over `offset`
  proved equal to a recursive specification built from one step function with
  three outcomes (stop, found, continue at the next segment). The splice fills a
  freshly allocated array with three block copies.
- `Layout`, `AspectRatio`, `BorderCalc`, `Constants`, `Types`: the frame
  geometry. Ratios and percentages are exact `real`s (9/16, 1, 4/5 and 1.91 are
  exact), image sizes are naturals, and `Math.round(x)` is `floor(x + 1/2)`,
  which is what JavaScript computes for every finite `x`.
- `RememberedValues`: the validator and clamp applied to stored preferences.
- `RafThrottle`: the closure state of `createRafThrottled` as a class whose
  methods `Call` and `Fire` update the pending frame and the latest arguments;
  ghost fields count scheduled frames and log handler invocations.

Notes on the code as written:

- The marker scan stops in four ways: fewer than 4 bytes left at the offset
  (the loop guard), no `0xFF` at the marker position, an EOI or SOS marker, and
  a segment whose declared length runs past the end of the buffer.
- `Math.round` rounds halves up, towards +Infinity. Every rounded quantity here
  is either clamped with `max(0, ·)` or non-negative, so negative halves never
  arise.
- `ensureMinimumBorder` compares `canvasWidth - drawX` and `canvasHeight - drawY`
  against the requirement. These are distances from the photo's top-left corner
  to the far canvas edges, so they include the photo's own size. They are not the
  right and bottom margins. `BorderCalc.EnsureMinimumBorder` states the check as
  written. `Layout.CalculateLayout` proves the true right and bottom margins are
  at least the border.
- `AspectRatioOption` has five values. The TypeScript union in
  `src/shared/types.ts` omits `square`, but the constant tables define it and
  the ratio selector offers it.
- The signature test reads the six bytes at offset + 4 whatever the length field
  says. Any length field below 8 declares a segment that ends before the
  signature does, yet such a segment is accepted when the signature bytes follow
  it in the buffer; with a length below 2 the returned slice is even shorter than
  the marker and length bytes. `Exif.ShortLengthFieldQuirk` exhibits a length of
  0, and the model keeps this behaviour. For the same reason
  `Exif.ExtractedSegmentSurvivesExport` asks for a segment of at least 10 bytes.

## Model

| member | source | states |
|---|---|---|
| Exif.IsExifSegment | src/shared/exif.ts:8-9 | true exactly when the six bytes at the offset lie inside the buffer and equal `45 78 69 66 00 00`; false whenever any of them would lie past the end |
| Exif.ReadUint16 | src/shared/exif.ts:11-12 | the result is below 65536 and its high and low bytes are the two bytes read, big-endian |
| Exif.Uint16Bytes | tests/e2e/exif.spec.ts:13-14 | a length field is two bytes |
| Exif.ReadUint16Inverse | src/shared/exif.ts:11-12 | reading back a written 16-bit length gives the length |
| Exif.SegmentEnd | src/shared/exif.ts:31-33 | a segment ends at least 2 bytes after its marker, so the walk always advances |
| Exif.StepAt | src/shared/exif.ts:21-42 | one loop iteration: it stops exactly when fewer than 4 bytes remain, the marker position does not hold `FF`, the marker is EOI or SOS, or the segment runs past the end; continuing moves to exactly offset + 2 + length, at least 2 further and inside the buffer; it reports a found segment exactly when it does not stop, the marker is APP1 and the signature sits at offset + 4 |
| Exif.ScanFrom | src/shared/exif.ts:20-45 | the offset the walk returns lies at or after its start and holds a found segment |
| Exif.Extract | src/shared/exif.ts:14-46 | none for a buffer under 4 bytes or without SOI; otherwise a returned segment is exactly the input slice from its marker to offset + 2 + length, starts `FF E1`, and the input has the signature at offset + 4 |
| Exif.ExtractExifSegment | src/shared/exif.ts:14-46 | the loop over `offset` returns exactly what the recursive scan specifies |
| Exif.VisitedScanAgrees | src/shared/exif.ts:21-43 | once the walk reaches an offset, the answer is the answer from that offset |
| Exif.FoundPrecedesTerminal | src/shared/exif.ts:26-29 | the returned segment is on the walk and every offset the walk visits before it is a passed-over segment, never EOI or SOS |
| Exif.NothingPastTerminal | src/shared/exif.ts:26-29 | a walk that reaches EOI or SOS returns none, so no segment at or after SOS is returned |
| Exif.FoundOnWalkIsExtracted | src/shared/exif.ts:21-42 | a found Exif segment that the walk from offset 2 reaches is the slice extraction returns, from its marker to offset + 2 + length |
| Exif.Inserted | src/shared/exif.ts:48-66 | unchanged for no segment, an empty one, or a buffer without SOI; otherwise length is the sum, the SOI prefix is kept, the segment follows it, and every later byte is shifted by the segment length |
| Exif.InsertExifSegment | src/shared/exif.ts:48-66 | the array filled by three block copies holds exactly the splice specified by `Inserted` |
| Exif.BuildExifSegment | tests/e2e/exif.spec.ts:8-17 | a built segment is 10 bytes longer than its payload, holds the signature at bytes 4-9 and the payload after it |
| Exif.BuiltSegmentWellFormed | tests/e2e/exif.spec.ts:8-17 | a built segment whose length fits 16 bits has marker `FF E1`, a length field matching its size and the signature |
| Exif.InsertThenExtract | src/shared/exif.ts:14-65 | extracting after inserting a well-formed segment after SOI gives that segment back, even when the buffer already held one |
| Exif.RoundTrip | tests/e2e/exif.spec.ts:77-81 | for any payload that fits the length field and any buffer starting with SOI, extract(insert(buffer, build(payload))) is the built segment |
| Exif.ExtractedSegmentSurvivesExport | tests/e2e/exif.spec.ts:83-99 | a segment extracted from the original photo whose length covers the signature is found again, unchanged, after insertion into a freshly encoded JPEG |
| Exif.ShortLengthFieldQuirk | src/shared/exif.ts:31-39 | with a length field of 0 the scan returns just the 2-byte APP1 marker |
| Constants.OptionOfKey | src/shared/constants.ts:3-9 | a found option is labelled and has that key; no labelled option has a key that is not found |
| Constants.OptionOfKeyInverse | src/shared/constants.ts:3-9 | looking up an option's own key gives the option back |
| Constants.PresetTables | src/shared/constants.ts:3-16 | every option has a label; exactly the non-original options have a ratio; the ratios are exactly 9/16, 1, 4/5 and 1.91, all positive |
| Constants.DefaultsInRange | src/shared/constants.ts:18-21 | 0 <= default border 8 <= 20 and the default ratio `story` is a labelled preset |
| AspectRatio.ResolveAspectRatio | src/domain/aspectRatio.ts:4-17 | `original` with zero height gives 1; `original` otherwise gives r with r * height = width; a preset gives its table value; the result is never negative, and it is positive for a preset or a non-empty photo |
| AspectRatio.PresetIgnoresSource | src/domain/aspectRatio.ts:16 | a preset's ratio does not depend on the photo's dimensions |
| AspectRatio.ResolveExamples | src/domain/layout.test.ts:8-24 | 1000 x 500 under `original` gives 2; the presets give 9/16, 4/5 and 1.91 |
| Layout.Round | src/domain/layout.ts:18 | the rounded value is within half of x, halves going up: x - 1/2 < r <= x + 1/2 |
| Layout.SafeBorder | src/domain/layout.ts:15-19 | the border is a natural number within half a pixel of the given percentage of the shorter side, and 0 when that is below half a pixel |
| Layout.PaddedCanvas | src/domain/layout.ts:24-36 | the canvas is never smaller than the base; `original` keeps the base; a base wider than the target keeps its width and gets the height nearest to width / ratio, a half rounded up; any other keeps its height and gets the width nearest to height * ratio, a half rounded up |
| Layout.CalculateLayout | src/domain/layout.ts:10-47 | the canvas never crops the bordered photo; the photo fits with at least the border on all four sides; left and right margins, and top and bottom, differ by 0 or 1 |
| Layout.PadVerticallyGrows | src/domain/layout.ts:29-31 | for a base wider than the target, the rounded padded height is at least the base height |
| Layout.PadHorizontallyGrows | src/domain/layout.ts:32-35 | for a base not wider than the target, the rounded padded width is at least the base width |
| Layout.CentredOffset | src/domain/layout.ts:38-39 | half the spare room, rounded, leaves at least the border on both sides and splits it evenly up to one pixel |
| Layout.OriginalKeepsBase | src/domain/layout.ts:24-27 | with `original` the canvas is the bordered base size |
| Layout.PresetPadsOneSide | src/domain/layout.ts:27-36 | with a preset, the wider-than-target case keeps the width and the height is the nearest integer to width / ratio, a half rounded up; otherwise the height is kept and the width is the nearest integer to height * ratio, a half rounded up |
| Layout.PresetRatioWithinOnePixel | src/domain/layout.ts:27-36 | for every preset, canvasWidth is within one pixel of ratio * canvasHeight |
| Layout.ExampleOriginal | src/domain/layout.test.ts:27-38 | 1200 x 900 at 10% with `original` gives 1380 x 1080 drawn at (90, 90) |
| Layout.ExampleStory | src/domain/layout.test.ts:40-50 | 1200 x 900 at 12% with `story` gives 1416 x 2517, a ratio within 0.005 of 9/16 and a height above 940 |
| Layout.ExamplePostHorizontal | src/domain/layout.test.ts:52-62 | 1200 x 900 at 6% with `post-horizontal` gives 1925 x 1008, a ratio within 0.005 of 1.91 and a width above 1216 |
| BorderCalc.SafeRequirement | src/domain/borderCalc.ts:7 | the requirement is a natural number no larger than a non-negative input and less than one below it, and 0 for a negative input |
| BorderCalc.EnsureMinimumBorder | src/domain/borderCalc.ts:3-12 | true exactly when each of drawX, canvasWidth - drawX, drawY and canvasHeight - drawY is non-negative and greater than the requirement minus one |
| BorderCalc.RequirementIsClampedFloor | src/domain/borderCalc.ts:7 | a negative or fractional requirement gives the same answer as its clamped floor |
| BorderCalc.Antitone | src/domain/borderCalc.ts:7-11 | a layout that meets a requirement meets every smaller one |
| BorderCalc.NonPositiveRequirement | src/domain/borderCalc.ts:7-11 | a requirement of 0 or less only asks that the four distances be non-negative |
| BorderCalc.LayoutHonoursItsBorder | src/domain/borderCalc.ts:3-12 | every computed layout passes the check for its own border width |
| RememberedValues.IsAspectRatioOption | src/shared/rememberedValues.ts:15-16 | true exactly when the value is a string that is the key of a labelled option |
| RememberedValues.Clamp | src/shared/rememberedValues.ts:33-36 | the result lies in [0, 20]; an in-range value is unchanged; values below or above go to 0 or 20 |
| RememberedValues.Normalize | src/shared/rememberedValues.ts:18-39 | some result exactly for an object with a finite numeric border and a known ratio key; the border is clamped into [0, 20]: 0 below the range, 20 above it, unchanged within it; the ratio is the one named |
| RememberedValues.NormalizeIdempotent | src/shared/rememberedValues.ts:33-38 | normalising the stored form of a normalised value gives it back unchanged |
| RememberedValues.Saved | src/shared/rememberedValues.ts:58-69 | nothing is written exactly when normalisation fails |
| RememberedValues.LoadAfterSave | src/shared/rememberedValues.ts:51-68 | loading what save wrote gives the normalised values that were saved |
| RafThrottle.RafThrottled.constructor | src/shared/rafThrottle.ts:7-8 | a new wrapper has no pending frame and no latest arguments |
| RafThrottle.RafThrottled.Call | src/shared/rafThrottle.ts:10-16 | every call overwrites the latest arguments and leaves a frame pending; a frame is scheduled exactly when none was pending; the handler does not run |
| RafThrottle.RafThrottled.Fire | src/shared/rafThrottle.ts:16-24 | clears the pending frame and the latest arguments; the handler runs once with the latest arguments if there were any, and not at all otherwise |
| RafThrottle.RafThrottled.CallsNeverExceedFrames | src/shared/rafThrottle.ts:12-20 | the handler never runs more often than frames were scheduled |
| RafThrottle.CoalescesCallsIntoOneFrame | src/shared/rafThrottle.test.ts:5-25 | two calls before the frame fires request one frame and the handler log is empty; firing runs the handler once, and the log is exactly the second call's arguments |
| RafThrottle.AllowsNewFrameAfterFire | src/shared/rafThrottle.test.ts:27-45 | a call after the frame has fired requests a second frame; the handler log is exactly one call, with the first call's arguments |

## Left out

- `calculateCanvasScale`: `Editor.ts` and `layout.test.ts` import it, but `src/domain/layout.ts` does not define it. With no definition to follow, it is not modelled.
- Floating point: ratios, percentages and quotients are exact reals. The IEEE representation of 1.91 and 9/16, and `Math.round` on inexact doubles, are not modelled.
- Image dimensions are natural numbers. Fractional, negative or non-finite dimensions are not modelled.
- `loadRememberedValues` / `saveRememberedValues` storage: `window.localStorage`, `JSON.parse` / `JSON.stringify` and the `typeof window` guard are not modelled. `RememberedValues.Saved` gives only what would be written.
- RememberedValues.IsAspectRatioOption: accepts exactly the five option keys. JavaScript's `in` also accepts inherited names such as `"toString"`, and that prototype-chain quirk is not modelled.
- `RememberedValues.Input` reads `borderPercent` and `ratio` as plain values. Getters, other properties and arrays are covered only as "not a finite number" or "not a string".
- RafThrottle.RafThrottled: a scheduled frame is the `pending` flag. The real `requestAnimationFrame` timing, the numeric frame id and the handler's own effects are not modelled. Handler invocations are a ghost log.
- Exif: byte buffers are immutable sequences, so `ArrayBuffer` identity and aliasing are not modelled (`insertExifSegment` returning the very same buffer is modelled as returning an equal sequence).
- `src/features/editor/Editor.ts`, `src/features/editor/ui.ts`, `src/app/main.ts`, `src/shared/imageIO.ts`: DOM construction, canvas drawing, event wiring, file and blob I/O, sharing and downloads are not part of this model.
