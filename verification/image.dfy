/** `ImageControl` of `widgets/image.rs`. The bitmap (`tiny_skia::Pixmap`)
    is treated as an opaque value: only its size and bytes are kept, and
    nothing reads them. The control carries no id of its own. */
module Image {

  /** A bitmap: `width` x `height` pixels of four bytes each. */
  datatype Pixmap = Pixmap(width: nat, height: nat, data: seq<bv8>)

  /** `Pixmap::new(w, h)`: a fully transparent bitmap. */
  function BlankPixmap(w: nat, h: nat): (p: Pixmap)
    requires w > 0 && h > 0
    ensures p.width == w && p.height == h && |p.data| == 4 * w * h
    ensures forall k :: 0 <= k < |p.data| ==> p.data[k] == 0
  {
    Pixmap(w, h, seq(4 * w * h, _ => 0))
  }

  datatype ImageControl = ImageControl(
    pos: (int, int),
    gPos: (int, int),
    size: (nat, nat),
    img: Pixmap,
    needUpdate: bool)

  /** `Default`: everything at zero, a blank 1x1 bitmap, a pending redraw. */
  function Default(): (r: ImageControl)
    ensures r.pos == (0, 0) && r.size == (0, 0) && r.gPos == (0, 0) && r.needUpdate
    ensures r.img.width == 1 && r.img.height == 1
  {
    ImageControl((0, 0), (0, 0), (0, 0), BlankPixmap(1, 1), true)
  }

  /** `new`: placed at `(x, y)` with size `(w, h)`, global position at the
      local one, the rest from `Default`. */
  function New(x: int, y: int, w: nat, h: nat): (r: ImageControl)
    ensures r.pos == (x, y) && r.size == (w, h) && r.gPos == (x, y) && r.needUpdate
    ensures r.img == Default().img
  {
    Default().(pos := (x, y), size := (w, h), gPos := (x, y))
  }

  /** `set_img`: replaces the bitmap and nothing else. */
  function SetImg(c: ImageControl, img: Pixmap): (r: ImageControl)
    ensures r.img == img && r == c.(img := r.img)
  {
    c.(img := img)
  }

  /** `update`: empty. */
  function Update(c: ImageControl): (r: ImageControl)
    ensures r == c
  {
    c
  }

  /** `draw`: the painting itself is commented out in the original; all it
      does is clear the redraw flag. */
  function Draw(c: ImageControl): (r: ImageControl)
    ensures !r.needUpdate && r == c.(needUpdate := r.needUpdate)
  {
    c.(needUpdate := false)
  }

  /** `clone`: copies geometry and bitmap with a pending redraw. */
  function Clone(c: ImageControl): (r: ImageControl)
    ensures r == c.(needUpdate := true)
  {
    ImageControl(c.pos, c.gPos, c.size, c.img, true)
  }

  /** Drawing settles the flag; cloning raises it again. */
  lemma DrawThenClone(c: ImageControl)
    ensures !Draw(c).needUpdate && Clone(Draw(c)).needUpdate
    ensures Draw(Draw(c)) == Draw(c)
  {
  }
}
