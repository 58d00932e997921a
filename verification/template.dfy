/** `TemplateControl` of `widgets/template.rs`: the skeleton new controls
    start from. It carries no id of its own, so nothing here mints one. */
module Template {

  datatype TemplateControl = TemplateControl(
    pos: (int, int),
    gPos: (int, int),
    size: (nat, nat),
    needUpdate: bool)

  /** `Default`: everything at zero and a pending redraw. */
  function Default(): (r: TemplateControl)
    ensures r.pos == (0, 0) && r.size == (0, 0) && r.gPos == (0, 0) && r.needUpdate
  {
    TemplateControl((0, 0), (0, 0), (0, 0), true)
  }

  /** `new`: placed at `(x, y)` with size `(w, h)`, global position at the
      local one, the rest from `Default`. */
  function New(x: int, y: int, w: nat, h: nat): (r: TemplateControl)
    ensures r.pos == (x, y) && r.size == (w, h) && r.gPos == (x, y) && r.needUpdate
  {
    Default().(pos := (x, y), size := (w, h), gPos := (x, y))
  }

  /** `clone`: an exact copy of the geometry with a pending redraw. */
  function Clone(c: TemplateControl): (r: TemplateControl)
    ensures r.pos == c.pos && r.size == c.size && r.gPos == c.gPos && r.needUpdate
  {
    TemplateControl(c.pos, c.gPos, c.size, true)
  }

  /** A clone differs from its original at most in the redraw flag, and a
      clone of a clone is the clone. */
  lemma CloneStable(c: TemplateControl)
    ensures Clone(c) == c.(needUpdate := true)
    ensures Clone(Clone(c)) == Clone(c)
  {
  }
}
