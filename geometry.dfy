/** The layout vocabulary the measure block works in: Compose's `Constraints`,
    the size a measured child reports, and the offset a child is placed at. */
module Geometry {
  import opened KotlinInt

  /** `Constraints.Infinity`: a maximum dimension that imposes no bound. */
  const Infinity: int := IntMax

  /** The bounds a child is measured within (Compose `Constraints`). */
  datatype Constraints = Constraints(minWidth: int, maxWidth: int, minHeight: int, maxHeight: int)
  {
    /** What Compose's `Constraints` constructor admits. */
    predicate Valid() {
      && 0 <= minWidth <= maxWidth <= Infinity
      && 0 <= minHeight <= maxHeight <= Infinity
    }

    predicate HasBoundedWidth() {
      maxWidth != Infinity
    }
  }

  /** The width and height of a measured child (a `Placeable`). */
  datatype Size = Size(width: nat, height: nat)

  /** The offset of a child's top-left corner inside the row. */
  datatype Placement = Placement(x: int, y: int)

  predicate Fits(s: Size, c: Constraints) {
    c.minWidth <= s.width <= c.maxWidth && c.minHeight <= s.height <= c.maxHeight
  }

  /** `c.copy(minWidth = 0, minHeight = 0)`: the same maxima with no minimum, so
      a child may take any size up to the maxima, and every size the original
      constraints admitted is still admitted. */
  function Loose(c: Constraints): (l: Constraints)
    requires c.Valid()
    ensures l.Valid()
    ensures l.minWidth == 0 && l.minHeight == 0
    ensures l.maxWidth == c.maxWidth && l.maxHeight == c.maxHeight
    ensures forall s: Size :: Fits(s, l) <==> s.width <= c.maxWidth && s.height <= c.maxHeight
    ensures forall s: Size :: Fits(s, c) ==> Fits(s, l)
  {
    c.(minWidth := 0, minHeight := 0)
  }

  /** `c.copy(maxWidth = w)`; Compose's constructor rejects a maximum below the
      minimum, which callers here never pass. */
  function WithMaxWidth(c: Constraints, w: int): (r: Constraints)
    requires c.Valid() && c.minWidth <= w <= Infinity
    ensures r.Valid()
    ensures r.maxWidth == w
    ensures r.minWidth == c.minWidth && r.minHeight == c.minHeight && r.maxHeight == c.maxHeight
  {
    c.(maxWidth := w)
  }
}
