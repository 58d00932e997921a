/** `TextLabelControl` of `widgets/label.rs`. */
module Label {
  import opened Uid
  import opened Drawing

  datatype TextLabel = TextLabel(
    uid: nat,
    text: string,
    textColor: bv32,
    textSize: real,
    textAlign: TextAlign)

  /** The default text colour, `0x202020FF` (dark grey, opaque). */
  const DEFAULT_COLOR: bv32 := 0x2020_20FF

  /** `Default`: one fresh id, empty text, 13-point, left-aligned, dark grey. */
  function Default(g: UidGen): (r: (TextLabel, UidGen))
    requires CanGen(g)
    ensures var l := r.0;
            l.text == "" && l.textSize == 13.0 && l.textAlign == Left && l.textColor == DEFAULT_COLOR
    ensures !Issued(g, r.0.uid) && Issued(r.1, r.0.uid) && r.1.counter == g.counter + 1
  {
    var (id, g1) := GenUid(g);
    (TextLabel(id, "", DEFAULT_COLOR, 13.0, Left), g1)
  }

  /** `new(text)`: the default label with the given text; the default
      supplies the one fresh id. */
  function New(g: UidGen, text: string): (r: (TextLabel, UidGen))
    requires CanGen(g)
    ensures r.0.text == text
    ensures r.0.(text := "") == Default(g).0 && r.1 == Default(g).1
  {
    var (d, g1) := Default(g);
    (d.(text := text), g1)
  }

  /** `set_color`, `set_text_size`, `set_text_align`: each replaces its
      own field and nothing else. */
  function SetColor(l: TextLabel, color: bv32): (r: TextLabel)
    ensures r.textColor == color && r == l.(textColor := r.textColor)
  {
    l.(textColor := color)
  }

  function SetTextSize(l: TextLabel, size: real): (r: TextLabel)
    ensures r.textSize == size && r == l.(textSize := r.textSize)
  {
    l.(textSize := size)
  }

  function SetTextAlign(l: TextLabel, align: TextAlign): (r: TextLabel)
    ensures r.textAlign == align && r == l.(textAlign := r.textAlign)
  {
    l.(textAlign := align)
  }

  /** `clone`: copies text, size, colour and alignment under a fresh id. */
  function Clone(g: UidGen, l: TextLabel): (r: (TextLabel, UidGen))
    requires CanGen(g)
    ensures r.0.(uid := l.uid) == l
    ensures !Issued(g, r.0.uid) && Issued(r.1, r.0.uid) && r.1.counter == g.counter + 1
    ensures Issued(g, l.uid) ==> r.0.uid != l.uid
  {
    var (id, g1) := GenUid(g);
    (TextLabel(id, l.text, l.textColor, l.textSize, l.textAlign), g1)
  }

  /** `uid()`. */
  function LabelUid(l: TextLabel): (r: nat)
    ensures r == l.uid
  {
    l.uid
  }
}
