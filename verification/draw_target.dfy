/** Glyph-bounds accumulation of `utils/draw_target.rs`. `union_recti`
    combines two integer rectangles (origin and size) and
    `render_text_custom` folds it over the raster bounds of every glyph,
    starting from the zero rectangle, to size its scratch canvas. Font
    loading and rasterisation are not modelled: the glyph bounds are input. */
module DrawTarget {

  /** `RectI`: origin `(ox, oy)` and size `(w, h)`, all `i32`. */
  datatype RectI = RectI(ox: int, oy: int, w: int, h: int)

  const ZeroRect: RectI := RectI(0, 0, 0, 0)

  /** `union_recti`: the smaller origin on each axis and the larger size on
      each axis, taken independently. */
  function UnionRectI(a: RectI, b: RectI): (r: RectI)
    ensures r.ox <= a.ox && r.ox <= b.ox && (r.ox == a.ox || r.ox == b.ox)
    ensures r.oy <= a.oy && r.oy <= b.oy && (r.oy == a.oy || r.oy == b.oy)
    ensures r.w >= a.w && r.w >= b.w && (r.w == a.w || r.w == b.w)
    ensures r.h >= a.h && r.h >= b.h && (r.h == a.h || r.h == b.h)
  {
    RectI(
      if a.ox < b.ox then a.ox else b.ox,
      if a.oy < b.oy then a.oy else b.oy,
      if a.w < b.w then b.w else a.w,
      if a.h < b.h then b.h else a.h)
  }

  lemma UnionCommutative(a: RectI, b: RectI)
    ensures UnionRectI(a, b) == UnionRectI(b, a)
  {
  }

  lemma UnionAssociative(a: RectI, b: RectI, c: RectI)
    ensures UnionRectI(UnionRectI(a, b), c) == UnionRectI(a, UnionRectI(b, c))
  {
  }

  lemma UnionIdempotent(a: RectI)
    ensures UnionRectI(a, a) == a
  {
  }

  /** The far edge of the union is the smaller origin plus the larger size,
      which can stop short of an input's far edge: the result is not the
      bounding rectangle of its inputs. */
  lemma UnionNotExtentUnion()
    ensures var a, b := RectI(0, 0, 10, 10), RectI(5, 5, 10, 10);
            var u := UnionRectI(a, b);
            u == RectI(0, 0, 10, 10) && u.ox + u.w < b.ox + b.w && u.oy + u.h < b.oy + b.h
  {
  }

  /** The fold of `render_text_custom` over the glyph bounds, in order. */
  method CombinedBounds(bounds: seq<RectI>) returns (combined: RectI)
    ensures combined.ox <= 0 && combined.oy <= 0 && combined.w >= 0 && combined.h >= 0
    ensures forall k :: 0 <= k < |bounds| ==> combined.ox <= bounds[k].ox && combined.oy <= bounds[k].oy
    ensures forall k :: 0 <= k < |bounds| ==> combined.w >= bounds[k].w && combined.h >= bounds[k].h
    ensures combined.ox == 0 || exists k :: 0 <= k < |bounds| && combined.ox == bounds[k].ox
    ensures combined.oy == 0 || exists k :: 0 <= k < |bounds| && combined.oy == bounds[k].oy
    ensures combined.w == 0 || exists k :: 0 <= k < |bounds| && combined.w == bounds[k].w
    ensures combined.h == 0 || exists k :: 0 <= k < |bounds| && combined.h == bounds[k].h
  {
    combined := ZeroRect;
    var i := 0;
    while i < |bounds|
      invariant 0 <= i <= |bounds|
      invariant combined.ox <= 0 && combined.oy <= 0 && combined.w >= 0 && combined.h >= 0
      invariant forall k :: 0 <= k < i ==> combined.ox <= bounds[k].ox && combined.oy <= bounds[k].oy
      invariant forall k :: 0 <= k < i ==> combined.w >= bounds[k].w && combined.h >= bounds[k].h
      invariant combined.ox == 0 || exists k :: 0 <= k < i && combined.ox == bounds[k].ox
      invariant combined.oy == 0 || exists k :: 0 <= k < i && combined.oy == bounds[k].oy
      invariant combined.w == 0 || exists k :: 0 <= k < i && combined.w == bounds[k].w
      invariant combined.h == 0 || exists k :: 0 <= k < i && combined.h == bounds[k].h
    {
      combined := UnionRectI(combined, bounds[i]);
      i := i + 1;
    }
  }
}
