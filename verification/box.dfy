/** `AreaBox` of `box.rs`: an axis-aligned region given by four signed
    `isize` extents. Sizes derived from it are kept as integers; the
    original converts them to `f32`. */
module Geometry {
  import opened Ints

  datatype AreaBox = AreaBox(left: int, right: int, top: int, down: int) {
    /** Every extent is a representable `isize`. */
    predicate Valid() {
      IsIsize(left) && IsIsize(right) && IsIsize(top) && IsIsize(down)
    }

    /** `this` encloses `inner` on both axes. */
    predicate Contains(inner: AreaBox) {
      left <= inner.left && inner.right <= right && top <= inner.top && inner.down <= down
    }
  }

  const ZERO: AreaBox := AreaBox(0, 0, 0, 0)
  const MAX: AreaBox := AreaBox(ISIZE_MIN, ISIZE_MAX, ISIZE_MIN, ISIZE_MAX)

  /** `expand(offset)` does not overflow `isize` on any extent. */
  predicate CanExpand(b: AreaBox, offset: int) {
    IsIsize(b.left + offset) && IsIsize(b.right + offset)
    && IsIsize(b.top + offset) && IsIsize(b.down + offset)
  }

  /** `expand`: shifts all four extents by the same offset, so the box
      moves diagonally and keeps its width and height. */
  function Expand(b: AreaBox, offset: int): (r: AreaBox)
    requires CanExpand(b, offset)
    ensures r.Valid()
    ensures r.right - r.left == b.right - b.left && r.down - r.top == b.down - b.top
    ensures r.left - b.left == offset && r.top - b.top == offset
  {
    AreaBox(b.left + offset, b.right + offset, b.top + offset, b.down + offset)
  }

  lemma ExpandZero(b: AreaBox)
    requires b.Valid()
    ensures Expand(b, 0) == b
  {
  }

  lemma ExpandCompose(b: AreaBox, x: int, y: int)
    requires CanExpand(b, x) && CanExpand(Expand(b, x), y)
    ensures CanExpand(b, x + y) && Expand(Expand(b, x), y) == Expand(b, x + y)
  {
  }

  /** `MAX` cannot be expanded by any non-zero offset without overflow. */
  lemma MaxExpandOverflows(offset: int)
    ensures CanExpand(MAX, offset) <==> offset == 0
  {
  }

  /** `fit_in`: the smallest box enclosing both arguments (min of the near
      extents, max of the far extents). */
  function FitIn(a: AreaBox, b: AreaBox): (r: AreaBox)
    ensures r.Contains(a) && r.Contains(b)
    ensures forall c: AreaBox :: c.Contains(a) && c.Contains(b) ==> c.Contains(r)
    ensures a.Valid() && b.Valid() ==> r.Valid()
  {
    AreaBox(Min(a.left, b.left), Max(a.right, b.right), Min(a.top, b.top), Max(a.down, b.down))
  }

  lemma FitInCommutative(a: AreaBox, b: AreaBox)
    ensures FitIn(a, b) == FitIn(b, a)
  {
  }

  lemma FitInAssociative(a: AreaBox, b: AreaBox, c: AreaBox)
    ensures FitIn(FitIn(a, b), c) == FitIn(a, FitIn(b, c))
  {
  }

  lemma FitInIdempotent(b: AreaBox)
    ensures FitIn(b, b) == b
  {
  }

  /** Accumulating from `ZERO` leaves every box that straddles the origin
      unchanged, and only those. */
  lemma ZeroFitIn(b: AreaBox)
    ensures FitIn(ZERO, b) == b <==> b.left <= 0 <= b.right && b.top <= 0 <= b.down
  {
  }

  lemma ZeroFitInExample()
    ensures FitIn(ZERO, AreaBox(-5, 10, -5, 10)) == AreaBox(-5, 10, -5, 10)
  {
  }

  /** `to_size_f32` subtracts without overflowing `isize`. */
  predicate CanSize(b: AreaBox) {
    IsIsize(b.right - b.left) && IsIsize(b.down - b.top)
  }

  /** `to_size_f32`: the (width, height) of the box, with no clamping, so
      a box whose far extent lies before its near one has a negative size. */
  function ToSize(b: AreaBox): (r: (int, int))
    requires CanSize(b)
    ensures b.left + r.0 == b.right && b.top + r.1 == b.down
    ensures r.0 < 0 <==> b.right < b.left
    ensures r.1 < 0 <==> b.down < b.top
  {
    (b.right - b.left, b.down - b.top)
  }

  /** The size of `MAX` does not fit in `isize`. */
  lemma MaxSizeOverflows()
    ensures !CanSize(MAX)
  {
  }

  /** The size is invariant under `expand`. */
  lemma ExpandKeepsSize(b: AreaBox, offset: int)
    requires CanExpand(b, offset) && CanSize(b)
    ensures CanSize(Expand(b, offset)) && ToSize(Expand(b, offset)) == ToSize(b)
  {
  }

  /** An inverted box yields a negative width. */
  lemma InvertedBoxExample()
    ensures ToSize(AreaBox(10, 4, 0, 3)) == (-6, 3)
  {
  }
}
