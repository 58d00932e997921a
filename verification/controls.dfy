/** The `Control` interface of `traits/controls.rs`, as a closed union of
    the controls that carry an id, and its `PartialEq`, which compares ids
    and nothing else. The window is the one `TopControl`; its operations
    live in the `Window` module. */
module Controls {
  import opened Ints
  import opened Uid
  import opened Button
  import opened Label
  import opened Input
  import opened Window
  import Drawing

  datatype Control<W> =
    | ButtonCtl(button: ButtonControl)
    | LabelCtl(textLabel: TextLabel)
    | InputCtl(input: InputControl)
    | WindowCtl(window: WindowControl<W>)
  {
    /** `uid()`, dispatched to the variant. */
    function Uid(): nat {
      match this
      case ButtonCtl(b) => ButtonUid(b)
      case LabelCtl(l) => LabelUid(l)
      case InputCtl(c) => InputUid(c)
      case WindowCtl(w) => WindowUid(w)
    }
  }

  /** `PartialEq for dyn Control`: equal exactly when the ids are equal. */
  predicate ControlEq<W>(a: Control<W>, b: Control<W>) {
    a.Uid() == b.Uid()
  }

  /** The relation is an equivalence. */
  lemma ControlEqEquivalence<W>(a: Control<W>, b: Control<W>, c: Control<W>)
    ensures ControlEq(a, a)
    ensures ControlEq(a, b) <==> ControlEq(b, a)
    ensures ControlEq(a, b) && ControlEq(b, c) ==> ControlEq(a, c)
  {
  }

  /** Only ids count, whatever the kind of control: controls of any two
      kinds with the same id are equal, every field other than the id can
      change without changing equality, and a different id always makes
      them unequal. */
  lemma ControlEqIgnoresState<W>(a: Control<W>, c: Control<W>, b: ButtonControl, l: TextLabel, i: InputControl,
                                 w: WindowControl<W>, pos: (int, int), size: (nat, nat), text: string,
                                 dirty: bool, other: nat)
    ensures a.Uid() == c.Uid() ==> ControlEq(a, c)
    ensures ControlEq<W>(ButtonCtl(b), ButtonCtl(b.(pos := pos, gPos := pos, size := size, text := text, needUpdate := dirty)))
    ensures ControlEq<W>(LabelCtl(l), LabelCtl(l.(text := text, textColor := 0, textSize := 1.0, textAlign := Drawing.Right)))
    ensures ControlEq<W>(InputCtl(i), InputCtl(i.(pos := pos, gPos := pos, size := size, value := text, needUpdate := dirty)))
    ensures ControlEq(WindowCtl(w), WindowCtl(w.(width := size.0, height := size.1, title := text, destroyed := dirty)))
    ensures ControlEq<W>(ButtonCtl(b), LabelCtl(l)) <==> b.uid == l.uid
    ensures ControlEq(InputCtl(i), WindowCtl(w)) <==> i.uid == w.uid
    ensures a.Uid() != c.Uid() ==> !ControlEq(a, c)
    ensures other != b.uid ==> !ControlEq<W>(ButtonCtl(b), ButtonCtl(b.(uid := other)))
  {
  }

  /** `clone` of the cloneable controls (the window is not `Clone`). */
  function CloneControl<W>(g: UidGen, c: Control<W>): (r: Control<W>)
    requires CanGen(g) && !c.WindowCtl?
    ensures r.Uid() == g.counter + 1
  {
    match c
    case ButtonCtl(b) => ButtonCtl(Button.Clone(g, b).0)
    case LabelCtl(l) => LabelCtl(Label.Clone(g, l).0)
    case InputCtl(i) => InputCtl(Input.Clone(g, i).0)
  }

  /** A clone is never equal to its original, whichever control it is. */
  lemma CloneNeverEqual<W>(g: UidGen, c: Control<W>)
    requires CanGen(g) && Issued(g, c.Uid()) && !c.WindowCtl?
    ensures !ControlEq(c, CloneControl(g, c))
  {
  }

  /** Controls minted one after another from the same generator are
      pairwise unequal. */
  lemma SuccessiveButtonsDiffer<W>(g: UidGen, x: int, y: int, w: nat, h: nat, t1: string, t2: string)
    requires g.counter + 2 <= USIZE_MAX
    ensures var (b1, g1) := Button.New(g, x, y, w, h, t1);
            var (b2, _) := Button.New(g1, x, y, w, h, t2);
            !ControlEq<W>(ButtonCtl(b1), ButtonCtl(b2))
  {
  }
}
