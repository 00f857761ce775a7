/** The measure-and-place policy of `ButtonIconButtonRow`: a left button, an
    icon centred in the row and a right button. The icon is measured first;
    whatever width it leaves is split evenly between the two buttons, less the
    spacing kept on each side of the icon; the row takes the full incoming
    width and the height of its tallest child. */
module ButtonIconButtonRow {
  import opened KotlinInt
  import opened Geometry

  /** Measuring one child: the size its content reports under given
      constraints. Text truncation, font metrics and the button's own padding
      all live behind this function. */
  type Measurer = Constraints -> Size

  /** The contract Compose holds every measurement to: the reported size lies
      within the constraints it was measured under. */
  ghost predicate Honest(measure: Measurer) {
    forall c: Constraints :: c.Valid() ==> Fits(measure(c), c)
  }

  /** `((maxW - iconW) / 2).coerceAtLeast(0)`: half of the width the icon
      leaves over, rounded down, or 0 when the icon is wider than the row. */
  function HalfAvailable(maxW: int, iconW: nat): (h: int)
    ensures 0 <= h
    ensures maxW < iconW ==> h == 0
    ensures iconW <= maxW ==> 2 * h <= maxW - iconW <= 2 * h + 1
    ensures 0 <= maxW ==> h <= maxW
  {
    Max(Quot(maxW - iconW, 2), 0)
  }

  /** `max(0, halfAvailable - spacingPx)`: the widest a side button may be and
      still leave `spacingPx` between it and the icon, or 0 when even that is
      not possible. */
  function SideMaxWidth(halfAvailable: int, spacingPx: nat): (w: int)
    requires 0 <= halfAvailable
    ensures 0 <= w <= halfAvailable
    ensures spacingPx <= halfAvailable ==> w + spacingPx == halfAvailable
    ensures halfAvailable < spacingPx ==> w == 0
  {
    Max(0, halfAvailable - spacingPx)
  }

  /** The values the measure block derives before it places anything. */
  datatype Measured = Measured(
    loose: Constraints,
    icon: Size,
    halfAvailable: int,
    sideMaxWidth: int,
    leftConstraints: Constraints,
    rightConstraints: Constraints,
    left: Size,
    right: Size)

  /** The measuring half of the block: relax the incoming constraints, measure
      the icon under them, derive the side budget from the icon's width and
      measure both buttons under the relaxed constraints capped at that budget. */
  function MeasureSlots(c: Constraints, spacingPx: nat, icon: Measurer, left: Measurer, right: Measurer): (m: Measured)
    requires c.Valid()
    ensures m.loose.Valid() && m.loose.minWidth == 0 && m.loose.minHeight == 0
    ensures m.loose.maxWidth == c.maxWidth && m.loose.maxHeight == c.maxHeight
    ensures m.icon == icon(m.loose)
    ensures m.halfAvailable == HalfAvailable(c.maxWidth, m.icon.width)
    ensures m.sideMaxWidth == SideMaxWidth(m.halfAvailable, spacingPx)
    ensures 0 <= m.sideMaxWidth <= m.halfAvailable <= c.maxWidth
    ensures m.leftConstraints == m.rightConstraints
    ensures m.leftConstraints.Valid()
    ensures m.leftConstraints.minWidth == 0 && m.leftConstraints.maxWidth == m.sideMaxWidth
    ensures m.leftConstraints.minHeight == 0 && m.leftConstraints.maxHeight == c.maxHeight
    ensures m.left == left(m.leftConstraints) && m.right == right(m.rightConstraints)
  {
    var loose := Loose(c);
    var iconSize := icon(loose);
    var halfAvailable := HalfAvailable(c.maxWidth, iconSize.width);
    var sideMaxWidth := SideMaxWidth(halfAvailable, spacingPx);
    var leftConstraints := WithMaxWidth(loose, sideMaxWidth);
    var rightConstraints := WithMaxWidth(loose, sideMaxWidth);
    Measured(loose, iconSize, halfAvailable, sideMaxWidth,
             leftConstraints, rightConstraints,
             left(leftConstraints), right(rightConstraints))
  }

  /** `listOf(left.height, icon.height, right.height).maxOrNull()
      ?.coerceAtLeast(minHeight) ?: minHeight`: the least height that holds
      every child and is at least `minHeight`. */
  function RowHeight(minHeight: int, left: Size, icon: Size, right: Size): (h: int)
    ensures minHeight <= h
    ensures left.height <= h && icon.height <= h && right.height <= h
    ensures h == minHeight || h == left.height || h == icon.height || h == right.height
  {
    var heights := [left.height, icon.height, right.height];
    match MaxOrNull(heights)
    case Some(tallest) =>
      assert heights[0] <= tallest && heights[1] <= tallest && heights[2] <= tallest;
      Max(tallest, minHeight)
    case None => minHeight
  }

  /** `y` puts a child of height `child` in the vertical middle of a row of
      height `row`, rounding the offset down. */
  predicate VerticallyCentred(y: int, row: int, child: int) {
    0 <= y && 2 * y <= row - child <= 2 * y + 1
  }

  /** What `layout(width, height) { … }` reports: the row's size and where
      each child is placed, in left-to-right coordinates. */
  datatype RowLayout = RowLayout(width: int, height: int, icon: Placement, left: Placement, right: Placement)

  /** The placing half of the block. */
  function Place(c: Constraints, m: Measured): (r: RowLayout)
    ensures r.width == c.maxWidth
    ensures r.height == RowHeight(c.minHeight, m.left, m.icon, m.right)
    ensures r.left.x == 0
    ensures r.right.x + m.right.width == c.maxWidth
    ensures m.icon.width <= c.maxWidth ==> 2 * r.icon.x <= c.maxWidth - m.icon.width <= 2 * r.icon.x + 1
    ensures c.maxWidth < m.icon.width ==> 2 * r.icon.x - 1 <= c.maxWidth - m.icon.width <= 2 * r.icon.x
    ensures VerticallyCentred(r.icon.y, r.height, m.icon.height)
    ensures VerticallyCentred(r.left.y, r.height, m.left.height)
    ensures VerticallyCentred(r.right.y, r.height, m.right.height)
  {
    var maxW := c.maxWidth;
    var height := RowHeight(c.minHeight, m.left, m.icon, m.right);
    var iconX := Quot(maxW - m.icon.width, 2);
    var iconY := Quot(height - m.icon.height, 2);
    var leftY := Quot(height - m.left.height, 2);
    var rightX := maxW - m.right.width;
    var rightY := Quot(height - m.right.height, 2);
    RowLayout(maxW, height, Placement(iconX, iconY), Placement(0, leftY), Placement(rightX, rightY))
  }

  /** The whole measure block: measure, then place. The row reports
      `constraints.maxWidth` as its own width, which Compose only accepts when
      that width is bounded. */
  function Layout(c: Constraints, spacingPx: nat, icon: Measurer, left: Measurer, right: Measurer): (r: RowLayout)
    requires c.Valid() && c.HasBoundedWidth()
    ensures r.width == c.maxWidth
    ensures c.minHeight <= r.height
    ensures r.left.x == 0
  {
    Place(c, MeasureSlots(c, spacingPx, icon, left, right))
  }

  // ---------------------------------------------------------------------
  // Properties of the side budget

  /** The budget never goes negative and never exceeds the row, so the side
      constraints are well formed and lie inside the incoming ones. */
  lemma SideBudgetBounds(maxW: int, iconW: nat, spacingPx: nat)
    requires 0 <= maxW
    ensures 0 <= SideMaxWidth(HalfAvailable(maxW, iconW), spacingPx) <= HalfAvailable(maxW, iconW) <= maxW
  {
  }

  /** A 360-pixel row with a 32-pixel icon and 8 pixels of spacing, and a row
      narrower than its icon. */
  lemma SideBudgetScenarios()
    ensures HalfAvailable(360, 32) == 164 && SideMaxWidth(164, 8) == 156
    ensures HalfAvailable(20, 32) == 0 && SideMaxWidth(0, 8) == 0
  {
  }

  /** Both buttons are measured under the same constraints, and those depend
      only on the row and the icon: changing what either button holds (its
      text, say) changes neither. */
  lemma SidesMeasuredAlike(c: Constraints, spacingPx: nat, icon: Measurer,
                           left1: Measurer, right1: Measurer, left2: Measurer, right2: Measurer)
    requires c.Valid()
    ensures MeasureSlots(c, spacingPx, icon, left1, right1).leftConstraints
         == MeasureSlots(c, spacingPx, icon, left2, right2).rightConstraints
  {
  }

  /** Honest buttons fit their budget: neither is wider than `sideMaxWidth`
      nor taller than the row's maximum height. */
  lemma SidesWithinBudget(c: Constraints, spacingPx: nat, icon: Measurer, left: Measurer, right: Measurer)
    requires c.Valid() && Honest(left) && Honest(right)
    ensures var m := MeasureSlots(c, spacingPx, icon, left, right);
      && m.left.width <= m.sideMaxWidth && m.right.width <= m.sideMaxWidth
      && m.left.height <= c.maxHeight && m.right.height <= c.maxHeight
  {
    var m := MeasureSlots(c, spacingPx, icon, left, right);
    assert Fits(left(m.leftConstraints), m.leftConstraints);
    assert Fits(right(m.rightConstraints), m.rightConstraints);
  }

  // ---------------------------------------------------------------------
  // Properties of the row height

  lemma RowHeightScenarios()
    ensures RowHeight(0, Size(0, 10), Size(0, 40), Size(0, 15)) == 40
    ensures RowHeight(50, Size(0, 10), Size(0, 40), Size(0, 15)) == 50
  {
  }

  /** The `?: minHeight` fallback never applies: a three-element list always
      has a maximum. */
  lemma HeightFallbackUnused(left: Size, icon: Size, right: Size)
    ensures MaxOrNull([left.height, icon.height, right.height]).Some?
  {
  }

  // ---------------------------------------------------------------------
  // Properties of the placement

  /** The icon's horizontal offset depends only on the row and the icon,
      whatever the buttons hold. (Its vertical offset follows the row height,
      which the buttons can raise.) */
  lemma IconPlacementIgnoresSides(c: Constraints, spacingPx: nat, icon: Measurer,
                                  left1: Measurer, right1: Measurer, left2: Measurer, right2: Measurer)
    requires c.Valid() && c.HasBoundedWidth()
    ensures Layout(c, spacingPx, icon, left1, right1).icon.x == Layout(c, spacingPx, icon, left2, right2).icon.x
  {
  }

  /** When the icon fits and half of the spare width covers the spacing, honest
      buttons leave at least `spacingPx` between each of them and the icon. */
  lemma NoOverlap(c: Constraints, spacingPx: nat, icon: Measurer, left: Measurer, right: Measurer)
    requires c.Valid() && c.HasBoundedWidth() && Honest(left) && Honest(right)
    requires icon(Loose(c)).width <= c.maxWidth
    requires spacingPx <= HalfAvailable(c.maxWidth, icon(Loose(c)).width)
    ensures var m := MeasureSlots(c, spacingPx, icon, left, right);
            var r := Layout(c, spacingPx, icon, left, right);
      && r.left.x + m.left.width + spacingPx <= r.icon.x
      && r.icon.x + m.icon.width + spacingPx <= r.right.x
  {
    SidesWithinBudget(c, spacingPx, icon, left, right);
  }

  /** Two buttons that measure alike sit symmetrically about the icon: the gap
      on the right equals the gap on the left, or exceeds it by the one pixel
      that rounding the icon's offset down leaves over. */
  lemma IconCentredBetweenSides(c: Constraints, spacingPx: nat, icon: Measurer, button: Measurer)
    requires c.Valid() && c.HasBoundedWidth()
    requires icon(Loose(c)).width <= c.maxWidth
    ensures var m := MeasureSlots(c, spacingPx, icon, button, button);
            var r := Layout(c, spacingPx, icon, button, button);
            var leftGap := r.icon.x - (r.left.x + m.left.width);
            var rightGap := r.right.x - (r.icon.x + m.icon.width);
      rightGap - leftGap == (c.maxWidth - m.icon.width) % 2
  {
  }

  /** With a bounded incoming width and honest children, no value the block
      computes leaves Kotlin's `Int` range, so the unbounded arithmetic here
      is the arithmetic the device performs. */
  lemma NoOverflow(c: Constraints, spacingPx: nat, icon: Measurer, left: Measurer, right: Measurer)
    requires c.Valid() && c.HasBoundedWidth() && spacingPx <= IntMax
    requires Honest(icon) && Honest(left) && Honest(right)
    ensures var m := MeasureSlots(c, spacingPx, icon, left, right);
            var r := Layout(c, spacingPx, icon, left, right);
      && IsInt(c.maxWidth - m.icon.width)
      && IsInt(m.halfAvailable - spacingPx)
      && IsInt(r.height)
      && IsInt(r.height - m.icon.height) && IsInt(r.height - m.left.height) && IsInt(r.height - m.right.height)
      && IsInt(r.right.x)
  {
    var m := MeasureSlots(c, spacingPx, icon, left, right);
    assert Fits(icon(m.loose), m.loose);
    SidesWithinBudget(c, spacingPx, icon, left, right);
  }
}
