/** The value types shared by the geometry code (src/shared/types.ts). */
module Types {

  /** The frame ratios a user can pick. The TypeScript union in types.ts lists
      four of them, but the constant tables and the ratio selector also offer
      "square", so all five are reachable and all five are modelled. */
  datatype AspectRatioOption = Story | Square | PostVertical | PostHorizontal | Original

  /** Natural pixel dimensions of a decoded photo. */
  datatype ImageSize = ImageSize(width: nat, height: nat)

  /** The expanded canvas and where the untouched photo's top-left corner lands on it. */
  datatype LayoutResult = LayoutResult(canvasWidth: int, canvasHeight: int, drawX: int, drawY: int)
}
