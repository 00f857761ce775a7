# ButtonIconButtonRow layout, modelled in Dafny

This project models the measure-and-place policy of the `ButtonIconButtonRow`
composable in `app/src/main/java/com/mvukosav/uicmp/MainActivity.kt`. The
`SubcomposeLayout` lays out three children in one horizontal row: a left
button, an icon and a right button. It works as follows:

- It relaxes the incoming constraints so that both minimums are 0.
- It measures the icon under the relaxed constraints.
- It computes a shared side budget, `sideMaxWidth`. This is half of the width
  the icon leaves over, less the spacing.
- It measures each button with its maximum width capped at that budget.
- It takes the row height as the tallest child, but at least `minHeight`.
- The row claims the full incoming width. It centres the icon horizontally,
  puts the left button flush left and the right button flush right, and
  centres every child vertically.

Files:

- `kotlin_int.dfy` (module `KotlinInt`): the Kotlin `Int` arithmetic the block
  uses. This covers the 32-bit range and `/`, which truncates toward zero
  (`Quot`, proved against a characterisation and compared with Dafny's
  Euclidean `/`). It also covers `max`/`coerceAtLeast` and `maxOrNull`.
- `geometry.dfy` (module `Geometry`): Compose's `Constraints`, measured sizes
  and placements, plus the two `copy` derivations the block uses.
- `button_icon_button_row.dfy` (module `ButtonIconButtonRow`): the measure
  block, split into `MeasureSlots` and `Place`, with `Layout` composing them.
  The lemmas state the layout's promises.

Child measurement is a parameter. Each child is a function
`Measurer = Constraints -> Size`. `Honest(m)` states Compose's rule that a
measured size lies within the constraints it was measured under. Only the
lemmas that need honest children assume it.

In a few places a natural reading of the component differs from what its code
does. The model follows the code:

- The icon's x offset uses Kotlin's truncating `/`, not floor division. The two
  differ only when the icon is wider than the row by an odd amount. For
  example, with `maxW = 20` and `iconW = 33`, the code gives `-6`, while floor
  division gives `-7` (`KotlinInt.QuotOfNegativeOdd`).
- The code does not clamp the vertical offsets to 0. The model shows this is
  never needed (`VerticallyCentred` includes `0 <= y`).
- The code has no check that rejects an unbounded width. Instead, `Layout`
  requires a bounded `maxWidth`.
- The icon's height cap is a `heightIn` modifier on the icon, not a change to
  the constraints it is measured under (see "Left out").

## Model

| member | source | states |
|---|---|---|
| `KotlinInt.Quot` | app/src/main/java/com/mvukosav/uicmp/MainActivity.kt:219 | Kotlin `/` by a positive divisor rounds toward zero: on a non-negative dividend `q*b <= a < q*b + b`, on a negative one `q*b - b < a <= q*b` |
| `KotlinInt.QuotUnique` | app/src/main/java/com/mvukosav/uicmp/MainActivity.kt:257 | the bounds in `Quot`'s contract determine the quotient uniquely |
| `KotlinInt.QuotVersusEuclid` | app/src/main/java/com/mvukosav/uicmp/MainActivity.kt:257 | truncating division equals Dafny's `/`, except on a negative dividend with non-zero remainder, where it is one more |
| `KotlinInt.QuotOfNegativeOdd` | app/src/main/java/com/mvukosav/uicmp/MainActivity.kt:257 | `-13 / 2` is `-6` in Kotlin but `-7` under Euclidean division: the icon offset when the icon is 13 pixels wider than the row |
| `KotlinInt.Max` | app/src/main/java/com/mvukosav/uicmp/MainActivity.kt:220 | `max`/`coerceAtLeast` is an upper bound of both arguments and equals one of them |
| `KotlinInt.MaxOrNull` | app/src/main/java/com/mvukosav/uicmp/MainActivity.kt:252-254 | `maxOrNull` is `null` exactly on the empty list; otherwise it is an element of the list and at least every element |
| `Geometry.Loose` | app/src/main/java/com/mvukosav/uicmp/MainActivity.kt:205 | relaxed constraints have both minimums 0 and the same maximums; a size fits them exactly when it is within the maximums, so every size the original admitted is still admitted |
| `Geometry.WithMaxWidth` | app/src/main/java/com/mvukosav/uicmp/MainActivity.kt:236 | `copy(maxWidth = w)` is well formed when `w` is at least the minimum, has maximum width `w` and keeps every other bound |
| `ButtonIconButtonRow.HalfAvailable` | app/src/main/java/com/mvukosav/uicmp/MainActivity.kt:219 | `halfAvailable` is never negative; it is 0 when the icon is wider than the row, and otherwise half of the leftover width rounded down; it never exceeds the row width |
| `ButtonIconButtonRow.SideMaxWidth` | app/src/main/java/com/mvukosav/uicmp/MainActivity.kt:220 | `0 <= sideMaxWidth <= halfAvailable`; when the spacing fits, `sideMaxWidth + spacingPx == halfAvailable`, otherwise the budget is 0 |
| `ButtonIconButtonRow.MeasureSlots` | app/src/main/java/com/mvukosav/uicmp/MainActivity.kt:204-250 | the icon is measured under the relaxed constraints; both buttons are measured under identical, well-formed constraints with min 0 and max width `sideMaxWidth`, where `0 <= sideMaxWidth <= halfAvailable <= maxWidth` |
| `ButtonIconButtonRow.RowHeight` | app/src/main/java/com/mvukosav/uicmp/MainActivity.kt:252-254 | the row height is at least `minHeight` and every child's height, and equals one of them, so it is `max(leftH, iconH, rightH, minHeight)` |
| `ButtonIconButtonRow.Place` | app/src/main/java/com/mvukosav/uicmp/MainActivity.kt:256-266 | the row is `maxWidth` wide; the left button is at x 0; the right button's trailing edge is at `maxWidth`; the icon's x is half the leftover width, truncated toward zero; every child's y is non-negative and vertically centres it, rounded down |
| `ButtonIconButtonRow.Layout` | app/src/main/java/com/mvukosav/uicmp/MainActivity.kt:204-268 | the whole block, for a bounded width: the row claims the full incoming width, is at least `minHeight` tall, and starts the left button at 0 |
| `ButtonIconButtonRow.SideBudgetBounds` | app/src/main/java/com/mvukosav/uicmp/MainActivity.kt:219-220 | `0 <= sideMaxWidth <= halfAvailable <= maxW` for every row width, icon width and spacing |
| `ButtonIconButtonRow.SideBudgetScenarios` | app/src/main/java/com/mvukosav/uicmp/MainActivity.kt:219-220 | 360/32/8 gives budgets 164 and 156; a 20-pixel row with a 32-pixel icon gives 0 and 0 |
| `ButtonIconButtonRow.SidesMeasuredAlike` | app/src/main/java/com/mvukosav/uicmp/MainActivity.kt:235-250 | the left button's constraints equal the right button's, whatever either button contains |
| `ButtonIconButtonRow.SidesWithinBudget` | app/src/main/java/com/mvukosav/uicmp/MainActivity.kt:235-250 | honestly measured buttons are at most `sideMaxWidth` wide and at most the row's maximum height |
| `ButtonIconButtonRow.RowHeightScenarios` | app/src/main/java/com/mvukosav/uicmp/MainActivity.kt:252-254 | heights 10/40/15 give 40 with `minHeight` 0, and 50 with `minHeight` 50 |
| `ButtonIconButtonRow.HeightFallbackUnused` | app/src/main/java/com/mvukosav/uicmp/MainActivity.kt:254 | the `?: minHeight` fallback is never taken, since a three-element list always has a maximum |
| `ButtonIconButtonRow.IconPlacementIgnoresSides` | app/src/main/java/com/mvukosav/uicmp/MainActivity.kt:257 | the icon's x offset is the same whatever the buttons contain |
| `ButtonIconButtonRow.NoOverlap` | app/src/main/java/com/mvukosav/uicmp/MainActivity.kt:219-220 | when the icon fits and `halfAvailable >= spacingPx`, honest buttons leave at least `spacingPx` between each of them and the icon |
| `ButtonIconButtonRow.IconCentredBetweenSides` | app/src/main/java/com/mvukosav/uicmp/MainActivity.kt:257-264 | buttons that measure alike leave equal gaps around a fitting icon, except that the right gap is one pixel wider when the leftover width is odd |
| `ButtonIconButtonRow.NoOverflow` | app/src/main/java/com/mvukosav/uicmp/MainActivity.kt:216-265 | with valid constraints, honest children and an `Int`-sized spacing, every intermediate difference, the row height and the right button's offset fit in Kotlin's 32-bit `Int`, so no value wraps around |

## Left out

- Actual child measurement is not modelled. This includes `Icon`, `Button` and `Text` with ellipsis truncation, font metrics and button padding. Each child is an arbitrary `Measurer`, and the `Honest` assumption stands in for Compose's rule that a measured size fits its constraints.
- `Modifier.heightIn(max = iconMaxHeight)` on the icon is not modelled. It is library code. The icon's height is whatever its `Measurer` reports.
- `spacing.roundToPx()` is not modelled. It is a floating-point density conversion. `spacingPx` is a non-negative integer input, so a negative `spacing` argument is not covered.
- `placeRelative` mirroring for right-to-left layouts is not modelled. Offsets are left-to-right only.
- `Layout` requires a bounded incoming width. The block has no check of its own for `Constraints.Infinity`, and Compose's `layout()` call is what rejects an unbounded width.
- Compose's bit-packed limits on `Constraints` values are not modelled. Dimensions are bounded only by Kotlin's `Int` range.
- Subcomposition, slot ids, recomposition and click handling are not modelled. They are the host's machinery, not layout arithmetic.
- The rest of the file is not part of this model: the activity, the demo screen, `TwoButtonsRow` (weights come from Compose's `Row`), `ButtonIconButtonConstraintRow` (geometry comes from the ConstraintLayout solver), and the previews.
- Determinism is not stated as a lemma. Each operation is a Dafny function, so identical inputs give identical layouts by construction.
