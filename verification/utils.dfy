/** `is_in_area` of `utils/mod.rs`: the inclusive point-in-rectangle test. */
module Utils {
  import opened Ints

  /** `x + w` and `y + h` do not overflow `i32`. */
  predicate AreaFits(x: int, y: int, w: int, h: int) {
    IsI32(x) && IsI32(y) && IsI32(w) && IsI32(h) && IsI32(x + w) && IsI32(y + h)
  }

  /** The additions `is_in_area` actually evaluates do not overflow `i32`:
      `&&` short-circuits, so `x + w` is computed only once `px >= x` holds
      and `y + h` only once the first three tests hold. */
  predicate InAreaDefined(px: int, py: int, x: int, y: int, w: int, h: int) {
    IsI32(px) && IsI32(py) && IsI32(x) && IsI32(y) && IsI32(w) && IsI32(h)
    && (px >= x ==> IsI32(x + w))
    && (px >= x && px <= x + w && py >= y ==> IsI32(y + h))
  }

  /** `is_in_area`: the point lies on or inside the rectangle with corner
      `(x, y)`, width `w` and height `h`; both ends of each range count.
      Put another way, the point's offset from the corner lies in
      `0..=w` by `0..=h`. */
  function IsInArea(px: int, py: int, x: int, y: int, w: int, h: int): (r: bool)
    requires InAreaDefined(px, py, x, y, w, h)
    ensures r <==> 0 <= px - x <= w && 0 <= py - y <= h
  {
    (px >= x) && (px <= x + w) && (py >= y) && (py <= y + h)
  }

  /** A rectangle whose far edge would overflow is still a valid argument
      when the point lies left of it: the sum is never computed. */
  lemma ShortCircuitExample()
    ensures !AreaFits(1, 0, I32_MAX, 0)
    ensures InAreaDefined(0, 0, 1, 0, I32_MAX, 0) && !IsInArea(0, 0, 1, 0, I32_MAX, 0)
  {
  }

  /** Moving the point and the rectangle together does not change the
      answer. */
  lemma IsInAreaTranslate(px: int, py: int, x: int, y: int, w: int, h: int, dx: int, dy: int)
    requires InAreaDefined(px, py, x, y, w, h) && InAreaDefined(px + dx, py + dy, x + dx, y + dy, w, h)
    ensures IsInArea(px + dx, py + dy, x + dx, y + dy, w, h) == IsInArea(px, py, x, y, w, h)
  {
  }

  /** All four corners are inside when the size is not negative. */
  lemma CornersInside(x: int, y: int, w: int, h: int)
    requires AreaFits(x, y, w, h) && w >= 0 && h >= 0
    ensures IsInArea(x, y, x, y, w, h) && IsInArea(x + w, y, x, y, w, h)
    ensures IsInArea(x, y + h, x, y, w, h) && IsInArea(x + w, y + h, x, y, w, h)
  {
  }

  /** A negative width or height leaves nothing inside. */
  lemma NegativeSizeEmpty(px: int, py: int, x: int, y: int, w: int, h: int)
    requires InAreaDefined(px, py, x, y, w, h) && (w < 0 || h < 0)
    ensures !IsInArea(px, py, x, y, w, h)
  {
  }

  /** The edges are inside and one step beyond them, where that step is
      still an `i32`, is not. */
  lemma EdgesInclusive(x: int, y: int, w: int, h: int)
    requires AreaFits(x, y, w, h) && w >= 0 && h >= 0
    ensures IsInArea(x + w, y + h, x, y, w, h)
    ensures IsI32(x + w + 1) ==> !IsInArea(x + w + 1, y, x, y, w, h)
    ensures IsI32(y + h + 1) ==> !IsInArea(x, y + h + 1, x, y, w, h)
    ensures IsI32(x - 1) ==> !IsInArea(x - 1, y, x, y, w, h)
    ensures IsI32(y - 1) ==> !IsInArea(x, y - 1, x, y, w, h)
  {
  }
}
