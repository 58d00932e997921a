/** `InputControl` of `widgets/input.rs`: a text field holding a value. */
module Input {
  import opened Uid

  datatype InputControl = InputControl(
    uid: nat,
    pos: (int, int),
    gPos: (int, int),
    size: (nat, nat),
    value: string,
    needUpdate: bool)

  /** `Default`: one fresh id, everything at zero, an empty value and a
      pending redraw. */
  function Default(g: UidGen): (r: (InputControl, UidGen))
    requires CanGen(g)
    ensures var c := r.0;
            c.pos == (0, 0) && c.size == (0, 0) && c.gPos == (0, 0) && c.value == "" && c.needUpdate
    ensures !Issued(g, r.0.uid) && Issued(r.1, r.0.uid) && r.1.counter == g.counter + 1
  {
    var (id, g1) := GenUid(g);
    (InputControl(id, (0, 0), (0, 0), (0, 0), "", true), g1)
  }

  /** `new`: the default field placed at `(x, y)` with size `(w, h)`, its
      global position starting at the local one. */
  function New(g: UidGen, x: int, y: int, w: nat, h: nat): (r: (InputControl, UidGen))
    requires CanGen(g)
    ensures r.0.pos == (x, y) && r.0.size == (w, h) && r.0.gPos == (x, y)
    ensures r.0.(pos := (0, 0), size := (0, 0), gPos := (0, 0)) == Default(g).0 && r.1 == Default(g).1
  {
    var (d, g1) := Default(g);
    (d.(pos := (x, y), size := (w, h), gPos := (x, y)), g1)
  }

  /** `set_value`: replaces the value and nothing else. */
  function SetValue(c: InputControl, v: string): (r: InputControl)
    ensures r == c.(value := r.value)
    ensures Value(r) == v
  {
    c.(value := v)
  }

  /** `value()`. */
  function Value(c: InputControl): string {
    c.value
  }

  /** `clone`: copies geometry and value under a fresh id, with a
      pending redraw whatever the original's flag. */
  function Clone(g: UidGen, c: InputControl): (r: (InputControl, UidGen))
    requires CanGen(g)
    ensures r.0.(uid := c.uid, needUpdate := c.needUpdate) == c && r.0.needUpdate
    ensures !Issued(g, r.0.uid) && Issued(r.1, r.0.uid) && r.1.counter == g.counter + 1
    ensures Issued(g, c.uid) ==> r.0.uid != c.uid
  {
    var (id, g1) := GenUid(g);
    (InputControl(id, c.pos, c.gPos, c.size, c.value, true), g1)
  }

  /** `uid()`. */
  function InputUid(c: InputControl): (r: nat)
    ensures r == c.uid
  {
    c.uid
  }
}
