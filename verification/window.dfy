/** `WindowControl` of `widgets/window.rs`: the top-level control. It owns a
    pod around its content, a logical size, a title, a chrome hover state
    and a destroy flag with the time it was raised. Wall-clock readings
    (`SystemTime::now()`) are passed in as integer milliseconds. */
module Window {
  import opened Ints
  import opened Uid
  import opened Core
  import opened Events

  /** Which title-bar button the pointer is over (`WindowTitleHovering`). */
  datatype TitleHovering = NoHover | MinBtn | CloseBtn

  datatype WindowControl<W> = WindowControl(
    uid: nat,
    inner: WidgetPod<W>,
    startTime: int,
    mouseDownTime: int,
    btnHovering: TitleHovering,
    width: nat,
    height: nat,
    destroyed: bool,
    title: string)

  /** Drop-shadow padding on each side, `SHADOW_SIZE`. */
  const SHADOW_SIZE: nat := 16
  /** How long a destroyed window lingers before it reports destroyed. */
  const LINGER_MS: int := 300

  /** The window's size fits `u32`, as its fields are typed. */
  predicate SizeValid<W>(w: WindowControl<W>) {
    IsU32(w.width) && IsU32(w.height)
  }

  /** `new`: mints the window's id, then wraps `content` in a pod, which
      mints the next id. Default size 800x600, empty title, no hover, not
      destroyed, both timestamps at `now`. */
  function New<W>(g: UidGen, content: W, now: int): (r: (WindowControl<W>, UidGen))
    requires g.counter + 2 <= USIZE_MAX
    ensures var w := r.0;
            && w.width == 800 && w.height == 600 && SizeValid(w)
            && !w.destroyed && w.title == "" && w.btnHovering == NoHover
            && w.startTime == now && w.mouseDownTime == now
            && w.inner.widget == content && w.inner.widgetSize == (F32_MAX, F32_MAX)
    ensures !Issued(g, r.0.uid) && !Issued(g, r.0.inner.widgetId)
    ensures Issued(r.1, r.0.uid) && Issued(r.1, r.0.inner.widgetId)
    ensures r.0.uid < r.0.inner.widgetId
    ensures r.1.counter == g.counter + 2
  {
    var (id, g1) := GenUid(g);
    var (pod, g2) := PodFrom(g1, content);
    (WindowControl(id, pod, now, now, NoHover, 800, 600, false, ""), g2)
  }

  /** `with_width`: replaces the width and nothing else. */
  function WithWidth<W>(w: WindowControl<W>, v: nat): (r: WindowControl<W>)
    requires IsU32(v)
    ensures r.width == v && r == w.(width := r.width)
  {
    w.(width := v)
  }

  /** `with_height`: replaces the height and nothing else. */
  function WithHeight<W>(w: WindowControl<W>, v: nat): (r: WindowControl<W>)
    requires IsU32(v)
    ensures r.height == v && r == w.(height := r.height)
  {
    w.(height := v)
  }

  /** `with_title` and `set_title`: replace the title and nothing else. */
  function SetTitle<W>(w: WindowControl<W>, v: string): (r: WindowControl<W>)
    ensures r == w.(title := r.title)
    ensures Title(r) == v
  {
    w.(title := v)
  }

  /** `title()`: a copy of the title. */
  function Title<W>(w: WindowControl<W>): string {
    w.title
  }

  /** `uid()` (from `Control`): the window's own id, not its pod's. */
  function WindowUid<W>(w: WindowControl<W>): (r: nat)
    ensures r == w.uid
  {
    w.uid
  }

  /** `real_width`: the logical width plus the shadow on both sides. */
  function RealWidth<W>(w: WindowControl<W>): (r: nat)
    requires IsU32(w.width + 2 * SHADOW_SIZE)
    ensures r == w.width + 32 && IsU32(r)
  {
    w.width + 2 * SHADOW_SIZE
  }

  /** `real_height`: the logical height plus the shadow on both sides. */
  function RealHeight<W>(w: WindowControl<W>): (r: nat)
    requires IsU32(w.height + 2 * SHADOW_SIZE)
    ensures r == w.height + 32 && IsU32(r)
  {
    w.height + 2 * SHADOW_SIZE
  }

  /** Setting one dimension leaves the other's footprint as it was. */
  lemma WithWidthFootprint<W>(w: WindowControl<W>, v: nat)
    requires IsU32(v + 32) && IsU32(w.height + 32)
    ensures RealWidth(WithWidth(w, v)) == v + 32
    ensures RealHeight(WithWidth(w, v)) == RealHeight(w)
  {
  }

  lemma WithHeightFootprint<W>(w: WindowControl<W>, v: nat)
    requires IsU32(v + 32) && IsU32(w.width + 32)
    ensures RealHeight(WithHeight(w, v)) == v + 32
    ensures RealWidth(WithHeight(w, v)) == RealWidth(w)
  {
  }

  /** `destroy`: the first call raises the flag and stamps the time; later
      calls change nothing, so the linger timer is never restarted. */
  function Destroy<W>(w: WindowControl<W>, now: int): (r: WindowControl<W>)
    ensures r.destroyed
    ensures w.destroyed ==> r == w
    ensures !w.destroyed ==> r.startTime == now
    ensures r == w.(destroyed := r.destroyed, startTime := r.startTime)
  {
    if w.destroyed then w else w.(destroyed := true, startTime := now)
  }

  lemma DestroyIdempotent<W>(w: WindowControl<W>, t1: int, t2: int)
    ensures Destroy(Destroy(w, t1), t2) == Destroy(w, t1)
  {
  }

  /** The clock has not gone backwards since the destroy stamp; otherwise
      `elapsed().unwrap()` panics. */
  predicate ClockOk<W>(w: WindowControl<W>, now: int) {
    w.destroyed ==> now >= w.startTime
  }

  /** `is_destroyed`: destroyed, and more than 300 whole milliseconds have
      passed since the first `destroy`. */
  function IsDestroyed<W>(w: WindowControl<W>, now: int): (r: bool)
    requires ClockOk(w, now)
    ensures r ==> w.destroyed
    ensures r <==> w.destroyed && now - w.startTime > LINGER_MS
  {
    w.destroyed && now - w.startTime > LINGER_MS
  }

  /** A window that was never destroyed never reports destroyed; once
      destroyed at `t0` it reports destroyed at `t` exactly when more than
      300 ms have passed, however often `destroy` is called again. */
  lemma LingerTimeline<W>(w: WindowControl<W>, t0: int, later: seq<int>, t: int)
    requires !w.destroyed && t >= t0
    ensures !IsDestroyed(w, t)
    ensures IsDestroyed(DestroyAll(Destroy(w, t0), later), t) <==> t - t0 > 300
  {
  }

  /** Repeated `destroy` calls at the given times: once the window is
      destroyed, further calls leave it exactly as it is. */
  function DestroyAll<W>(w: WindowControl<W>, times: seq<int>): (r: WindowControl<W>)
    ensures w.destroyed ==> r == w
    ensures |times| > 0 ==> r == Destroy(w, times[0])
    decreases |times|
  {
    if |times| == 0 then w else DestroyAll(Destroy(w, times[0]), times[1..])
  }

  /** The linger timeline at 0, 150 and 350 ms after the destroy. */
  lemma LingerExample<W>(w: WindowControl<W>)
    requires !w.destroyed
    ensures !IsDestroyed(Destroy(w, 1000), 1000)
    ensures !IsDestroyed(Destroy(w, 1000), 1150)
    ensures !IsDestroyed(Destroy(w, 1000), 1300)
    ensures IsDestroyed(Destroy(w, 1000), 1350)
  {
  }

  /** `hit_test`: every point is client area and no state changes. */
  function HitTest<W>(w: WindowControl<W>, x: int, y: int): (r: (HitResult, WindowControl<W>))
    ensures r.0 == Client && r.1 == w
  {
    (Client, w)
  }
}
