/** `WidgetPod` of `core.rs`: an owning slot around one widget that stamps
    its own id at construction, caches the size of the last layout box and
    hands that size to the widget when it draws.

    The boxed `dyn Widget<D>` is modelled as a widget state of type `W`
    together with a record of total functions standing in for its vtable;
    the application data `D` and the canvas `C` are left abstract. */
module Core {
  import opened Ints
  import opened Uid
  import opened Geometry
  import opened Events

  /** `f32::MAX` as an exact integer: (2 - 2^-23) * 2^127. */
  const F32_MAX: int := 0xFFFF_FF00_0000_0000_0000_0000_0000_0000

  /** The context handed to `event`. */
  datatype EventCtx = EventCtx(event: UserEvent)

  /** The context handed to `draw`: the size the widget should paint at and
      the canvas it paints on. */
  datatype DrawCtx<C> = DrawCtx(widgetSize: (int, int), canvas: C)

  /** The operations of an inner widget. A `&mut self` method returns the
      widget's new state; `&mut D` and `&mut DrawCtx` are returned too. */
  datatype WidgetOps<!W, !D, !C> = WidgetOps(
    event: (W, EventCtx, D) -> (W, D),
    update: (W, D) -> W,
    draw: (W, DrawCtx<C>, D) -> (W, DrawCtx<C>),
    layout: (W, AreaBox) -> (W, AreaBox))

  datatype WidgetPod<W> = WidgetPod(widgetId: nat, widget: W, widgetSize: (int, int))

  /** `From<Box<dyn Widget<D>>>`: wraps the widget, mints a fresh id for the
      pod and starts with the `(f32::MAX, f32::MAX)` placeholder size. */
  function PodFrom<W>(g: UidGen, w: W): (r: (WidgetPod<W>, UidGen))
    requires CanGen(g)
    ensures r.0.widget == w
    ensures r.0.widgetSize == (F32_MAX, F32_MAX)
    ensures !Issued(g, r.0.widgetId) && Issued(r.1, r.0.widgetId)
    ensures forall id: nat :: Issued(g, id) ==> id < r.0.widgetId
    ensures r.1.counter == g.counter + 1
  {
    var (id, g1) := GenUid(g);
    (WidgetPod(id, w, (F32_MAX, F32_MAX)), g1)
  }

  /** `uid()` returns the pod's own id. */
  function PodUid<W>(pod: WidgetPod<W>): (r: nat)
    ensures r == pod.widgetId
  {
    pod.widgetId
  }

  /** `event` only delegates: id and cached size are untouched. */
  function PodEvent<W, D, C>(ops: WidgetOps<W, D, C>, pod: WidgetPod<W>, ctx: EventCtx, data: D)
    : (r: (WidgetPod<W>, D))
    ensures r.0.widgetId == pod.widgetId && r.0.widgetSize == pod.widgetSize
    ensures (r.0.widget, r.1) == ops.event(pod.widget, ctx, data)
  {
    var (w, d) := ops.event(pod.widget, ctx, data);
    (pod.(widget := w), d)
  }

  /** `update` only delegates: id and cached size are untouched. */
  function PodUpdate<W, D, C>(ops: WidgetOps<W, D, C>, pod: WidgetPod<W>, data: D): (r: WidgetPod<W>)
    ensures r.widgetId == pod.widgetId && r.widgetSize == pod.widgetSize
    ensures r.widget == ops.update(pod.widget, data)
  {
    pod.(widget := ops.update(pod.widget, data))
  }

  /** `draw`: overwrites the context's size with the cached one, then
      delegates; id and cached size are untouched. */
  function PodDraw<W, D, C>(ops: WidgetOps<W, D, C>, pod: WidgetPod<W>, ctx: DrawCtx<C>, data: D)
    : (r: (WidgetPod<W>, DrawCtx<C>))
    ensures r.0.widgetId == pod.widgetId && r.0.widgetSize == pod.widgetSize
    ensures (r.0.widget, r.1) == ops.draw(pod.widget, ctx.(widgetSize := pod.widgetSize), data)
  {
    var (w, c) := ops.draw(pod.widget, ctx.(widgetSize := pod.widgetSize), data);
    (pod.(widget := w), c)
  }

  /** The layout box `to_size` can be taken of. */
  predicate LayoutSizable<W, D, C>(ops: WidgetOps<W, D, C>, pod: WidgetPod<W>, maxBox: AreaBox) {
    CanSize(ops.layout(pod.widget, maxBox).1)
  }

  /** `layout`: returns the inner widget's box unchanged and caches its
      (width, height); the id is untouched. */
  function PodLayout<W, D, C>(ops: WidgetOps<W, D, C>, pod: WidgetPod<W>, maxBox: AreaBox)
    : (r: (WidgetPod<W>, AreaBox))
    requires LayoutSizable(ops, pod, maxBox)
    ensures r.1 == ops.layout(pod.widget, maxBox).1
    ensures r.0.widget == ops.layout(pod.widget, maxBox).0
    ensures r.1.left + r.0.widgetSize.0 == r.1.right && r.1.top + r.0.widgetSize.1 == r.1.down
    ensures r.0.widgetId == pod.widgetId
  {
    var (w, b) := ops.layout(pod.widget, maxBox);
    (WidgetPod(pod.widgetId, w, ToSize(b)), b)
  }

  /** Whatever size the caller put in the context, the widget draws with
      the pod's cached size: the caller's value never reaches it. */
  lemma DrawIgnoresCallerSize<W, D, C>(ops: WidgetOps<W, D, C>, pod: WidgetPod<W>, canvas: C,
                                       s1: (int, int), s2: (int, int), data: D)
    ensures PodDraw(ops, pod, DrawCtx(s1, canvas), data) == PodDraw(ops, pod, DrawCtx(s2, canvas), data)
  {
  }

  /** After `layout`, `draw` hands the widget exactly the size of the box
      the widget returned from that layout. */
  lemma LayoutThenDraw<W, D, C>(ops: WidgetOps<W, D, C>, pod: WidgetPod<W>, maxBox: AreaBox,
                                ctx: DrawCtx<C>, data: D)
    requires LayoutSizable(ops, pod, maxBox)
    ensures var (p1, b) := PodLayout(ops, pod, maxBox);
            var sz := (b.right - b.left, b.down - b.top);
            PodDraw(ops, p1, ctx, data) == (var (w, c) := ops.draw(p1.widget, ctx.(widgetSize := sz), data);
                                           (p1.(widget := w), c))
  {
  }

  /** Before any layout, the widget is drawn at the placeholder size. */
  lemma FreshPodDrawsAtPlaceholder<W, D, C>(ops: WidgetOps<W, D, C>, g: UidGen, w: W, ctx: DrawCtx<C>, data: D)
    requires CanGen(g)
    ensures PodDraw(ops, PodFrom(g, w).0, ctx, data).0.widget
            == ops.draw(w, ctx.(widgetSize := (F32_MAX, F32_MAX)), data).0
  {
  }

  /** A call made on a pod. */
  datatype PodOp<D, C> =
    | OpEvent(ectx: EventCtx, edata: D)
    | OpUpdate(udata: D)
    | OpDraw(dctx: DrawCtx<C>, ddata: D)
    | OpLayout(maxBox: AreaBox)

  /** A call the original can make without panicking: a layout needs a box
      whose size `to_size` can take. */
  predicate StepOk<W, D, C>(ops: WidgetOps<W, D, C>, pod: WidgetPod<W>, op: PodOp<D, C>) {
    op.OpLayout? ==> LayoutSizable(ops, pod, op.maxBox)
  }

  /** One pod operation. */
  function PodStep<W, D, C>(ops: WidgetOps<W, D, C>, pod: WidgetPod<W>, op: PodOp<D, C>): (r: WidgetPod<W>)
    requires StepOk(ops, pod, op)
    ensures r.widgetId == pod.widgetId
  {
    match op
    case OpEvent(c, d) => PodEvent(ops, pod, c, d).0
    case OpUpdate(d) => PodUpdate(ops, pod, d)
    case OpDraw(c, d) => PodDraw(ops, pod, c, d).0
    case OpLayout(b) => PodLayout(ops, pod, b).0
  }

  /** Every call of the script, made on the pod the earlier calls left,
      is one the original can make. */
  predicate ScriptOk<W, D, C>(ops: WidgetOps<W, D, C>, pod: WidgetPod<W>, script: seq<PodOp<D, C>>)
    decreases |script|
  {
    |script| == 0 || (StepOk(ops, pod, script[0]) && ScriptOk(ops, PodStep(ops, pod, script[0]), script[1..]))
  }

  /** Runs a sequence of operations in order. */
  function RunPod<W, D, C>(ops: WidgetOps<W, D, C>, pod: WidgetPod<W>, script: seq<PodOp<D, C>>): WidgetPod<W>
    requires ScriptOk(ops, pod, script)
    decreases |script|
  {
    if |script| == 0 then pod else RunPod(ops, PodStep(ops, pod, script[0]), script[1..])
  }

  /** No sequence of `event`, `update`, `draw` and `layout` calls changes the pod's id. */
  lemma {:induction false} RunPodKeepsId<W, D, C>(ops: WidgetOps<W, D, C>, pod: WidgetPod<W>, script: seq<PodOp<D, C>>)
    requires ScriptOk(ops, pod, script)
    ensures PodUid(RunPod(ops, pod, script)) == PodUid(pod)
    decreases |script|
  {
    if |script| > 0 {
      RunPodKeepsId(ops, PodStep(ops, pod, script[0]), script[1..]);
    }
  }
}
