/** `ButtonControl` of `widgets/button.rs`. Its click callback is a boxed
    closure in the original; here it is an opaque token, and the only
    closure the original itself builds, the empty `|| {}`, is `NoOp`. */
module Button {
  import opened Ints
  import opened Uid

  datatype ButtonStatus = Normal | Hovering | Active

  datatype Callback = NoOp | Handler(tag: nat)

  datatype ButtonControl = ButtonControl(
    uid: nat,
    pos: (int, int),
    gPos: (int, int),
    size: (nat, nat),
    text: string,
    textSize: real,
    status: ButtonStatus,
    needUpdate: bool,
    clickCallback: Callback)

  /** `new`: mints one id; the global position starts at the local one;
      normal status, 14-point text, a pending redraw and no callback. */
  function New(g: UidGen, x: int, y: int, w: nat, h: nat, text: string): (r: (ButtonControl, UidGen))
    requires CanGen(g)
    ensures var b := r.0;
            && b.pos == (x, y) && b.gPos == b.pos && b.size == (w, h) && b.text == text
            && b.status == Normal && b.needUpdate && b.textSize == 14.0 && b.clickCallback == NoOp
    ensures !Issued(g, r.0.uid) && Issued(r.1, r.0.uid) && r.1.counter == g.counter + 1
  {
    var (id, g1) := GenUid(g);
    (ButtonControl(id, (x, y), (x, y), (w, h), text, 14.0, Normal, true, NoOp), g1)
  }

  /** `on_click`: replaces the callback and nothing else. */
  function OnClick(b: ButtonControl, cb: Callback): (r: ButtonControl)
    ensures r.clickCallback == cb && r == b.(clickCallback := r.clickCallback)
  {
    b.(clickCallback := cb)
  }

  /** `clone`: a new widget, not an alias. It mints a fresh id, copies the
      geometry, status and text, asks for a redraw and drops the callback. */
  function Clone(g: UidGen, b: ButtonControl): (r: (ButtonControl, UidGen))
    requires CanGen(g)
    ensures var c := r.0;
            && c.size == b.size && c.pos == b.pos && c.gPos == b.gPos && c.status == b.status
            && c.textSize == b.textSize && c.text == b.text
            && c.needUpdate && c.clickCallback == NoOp
    ensures !Issued(g, r.0.uid) && Issued(r.1, r.0.uid) && r.1.counter == g.counter + 1
    ensures Issued(g, b.uid) ==> r.0.uid != b.uid
  {
    var (id, g1) := GenUid(g);
    (ButtonControl(id, b.pos, b.gPos, b.size, b.text, b.textSize, b.status, true, NoOp), g1)
  }

  /** `event`, `update` and `draw` are empty: the button is unchanged. */
  function Event(b: ButtonControl): (r: ButtonControl)
    ensures r == b
  {
    b
  }

  function Update(b: ButtonControl): (r: ButtonControl)
    ensures r == b
  {
    b
  }

  function Draw(b: ButtonControl): (r: ButtonControl)
    ensures r == b
  {
    b
  }

  /** `uid()`. */
  function ButtonUid(b: ButtonControl): (r: nat)
    ensures r == b.uid
  {
    b.uid
  }

  /** Cloning a clone still copies the original's visible state, and all
      three ids differ. */
  lemma CloneTwice(g: UidGen, b: ButtonControl)
    requires g.counter + 2 <= USIZE_MAX && Issued(g, b.uid)
    ensures var (c1, g1) := Clone(g, b);
            var (c2, _) := Clone(g1, c1);
            && c2.(uid := b.uid, needUpdate := b.needUpdate, clickCallback := b.clickCallback) == b
            && c1.uid != b.uid && c2.uid != b.uid && c2.uid != c1.uid
  {
  }
}
