# fabric-ui widget state and integer helpers, in Dafny

This project models the deterministic core of fabric-ui, a small retained-mode
GUI toolkit for Windows written in Rust. It covers the parts whose behaviour is
integer arithmetic or plain state changes:

- **Geometry** (`box.dfy`): `AreaBox`, with `ZERO`, `MAX`, `expand`, `fit_in` and `to_size_f32`.
- **Identity** (`uid.dfy`): the process-wide `gen_uid` counter. It is threaded as an explicit
  `UidGen` state, and a small class wraps it.
- **Widget pod** (`core.dfy`): `WidgetPod`, which mints its own id, delegates to an abstract
  inner widget, caches the size of the last layout and hands that size to `draw`. The boxed
  `dyn Widget<D>` becomes a widget state `W` plus a record of total functions, `WidgetOps`,
  that plays the vtable.
- **Top-level window** (`window.dfy`): `WindowControl`, with its builders, the
  shadow-padded footprint, the idempotent `destroy`, the 300 ms linger of `is_destroyed`
  and `hit_test`. The clock is an integer-millisecond parameter.
- **Leaf controls** (`button.dfy`, `label.dfy`, `input.dfy`, `template.dfy`, `image.dfy`):
  constructors, defaults, setters and clones. Button and input clones mint a fresh id and raise `need_update`; a label clone mints a fresh id; template and image clones raise `need_update` and carry no id.
- **Control equality** (`controls.dfy`): the `Control` interface as a closed union, and its
  uid-only `PartialEq`.
- **Enumerations** (`events.dfy`): the hit-test result and the event enums.
- **Bit-level helpers**:
  - `utils.dfy`: `is_in_area`;
  - `color.dfy`: `split_color`/`concat_color`;
  - `drawing.dfy`: `muldiv255`;
  - `draw_target.dfy`: `union_recti` and the glyph-bounds fold;
  - `fabric.dfy`: the `set_pixel` byte swizzle and the row-flipping `sync` copy;
  - `strext.dfy`: `w_str`, a NUL-terminated UTF-16 encoder, proved to round-trip through a UTF-16 decoder (`StrExt.DecodeEncode`).

Integer widths are explicit. `isize`/`usize` are 64-bit, as on the Windows x64 target.
An arithmetic step that would overflow in Rust is a panic in a debug build. The model
excludes it with a precondition, as in `CanExpand`, `CanSize`, `CanGen`, `MulDivFits`
and `InAreaDefined`. Where `&&` short-circuits, only the sums actually evaluated must fit. Shifts and masks on unsigned integers are written as division and
remainder by powers of two wherever the model uses `int`. The colour and swizzle code
keeps the original `bv32` operations.

Two behaviours are easy to miss:
- `to_size_f32` does not clamp negative sizes (src/box.rs:44-49). An inverted box gives a
  negative size, as `Geometry.ToSize` states.
- `hit_test` always answers `Client` (src/widgets/window.rs:100-102) and never changes
  hover state.

## Model

| member | source | states |
|---|---|---|
| Uid.GenUid | src/utils/uid.rs:3-10 | returns the old counter plus one and leaves the counter equal to it; the id is non-zero, was never issued before and is issued afterwards; the issued set grows by exactly that id; needs `counter < usize::MAX` |
| Uid.FirstUidIsOne | src/utils/uid.rs:3-8 | the first id of the process, from the zero counter, is 1 |
| Uid.GenMany | src/utils/uid.rs:5-10 | `n` successive calls yield `n` ids and advance the counter by `n` |
| Uid.GenManyIncreasing | src/utils/uid.rs:5-10 | successive calls return strictly increasing ids, none issued before the first call and all issued after the last, so any two calls differ |
| Uid.UidCounter.Gen | src/utils/uid.rs:3-10 | the mutable counter form: the id is the previous counter plus one and the counter is left at that id |
| Geometry.Expand | src/box.rs:26-33 | all four extents move by the same offset, so width and height are unchanged and the result stays in `isize` |
| Geometry.ExpandZero | src/box.rs:26-33 | `expand(0)` is the identity |
| Geometry.ExpandCompose | src/box.rs:26-33 | `expand(a)` then `expand(b)` equals `expand(a+b)` when nothing overflows |
| Geometry.MaxExpandOverflows | src/box.rs:19-33 | `MAX` can be expanded without overflow exactly by the offset 0 |
| Geometry.FitIn | src/box.rs:35-42 | the result contains both inputs, and every box that contains both contains the result (it is the least enclosing box); valid inputs give a valid result |
| Geometry.FitInCommutative | src/box.rs:35-42 | `fit_in` is commutative |
| Geometry.FitInAssociative | src/box.rs:35-42 | `fit_in` is associative |
| Geometry.FitInIdempotent | src/box.rs:35-42 | `b.fit_in(&b) == b` |
| Geometry.ZeroFitIn | src/box.rs:12-42 | `ZERO.fit_in(b) == b` if and only if `b` straddles the origin on both axes |
| Geometry.ZeroFitInExample | src/box.rs:12-42 | `ZERO.fit_in({-5,10,-5,10})` is `{-5,10,-5,10}` |
| Geometry.ToSize | src/box.rs:44-49 | the size added to the near extents gives the far extents; a component is negative exactly when the box is inverted on that axis (no clamping) |
| Geometry.MaxSizeOverflows | src/box.rs:19-49 | the size of `MAX` does not fit in `isize` |
| Geometry.ExpandKeepsSize | src/box.rs:26-49 | `to_size` is invariant under `expand` |
| Geometry.InvertedBoxExample | src/box.rs:44-49 | a box with right 4 and left 10 has width -6 |
| Core.PodFrom | src/core.rs:69-77 | wraps the widget, mints a fresh id larger than every earlier id, and starts with the `(f32::MAX, f32::MAX)` placeholder size |
| Core.PodUid | src/core.rs:49-51 | `uid()` is the pod's own `widget_id` |
| Core.PodEvent | src/core.rs:52-54 | delegates to the widget's `event`; id and cached size untouched |
| Core.PodUpdate | src/core.rs:55-57 | delegates to the widget's `update`; id and cached size untouched |
| Core.PodDraw | src/core.rs:58-61 | the widget draws with the caller's context whose `widget_size` is replaced by the pod's cached size, and the widget state and context it returns are the pod's; id and cached size untouched |
| Core.PodLayout | src/core.rs:62-66 | returns the widget's box unchanged and caches its (width, height); id untouched |
| Core.DrawIgnoresCallerSize | src/core.rs:58-61 | the size the caller puts in the draw context never reaches the widget |
| Core.LayoutThenDraw | src/core.rs:58-66 | after `layout`, `draw` hands the widget the size of the box from that layout |
| Core.FreshPodDrawsAtPlaceholder | src/core.rs:58-77 | before any layout the widget is drawn at the `f32::MAX` placeholder size |
| Core.PodStep | src/core.rs:52-66 | any single `event`, `update`, `draw` or `layout` keeps the pod's id; a layout is only made with a box `to_size` can take, since an overflowing one panics |
| Core.RunPodKeepsId | src/core.rs:49-66 | no sequence of pod calls that the original can make without panicking changes `uid()` |
| Window.New | src/widgets/window.rs:36-48 | size 800x600, not destroyed, empty title, no hover, timestamps at `now`; the window id and then the pod id are freshly minted, window id first |
| Window.WithWidth | src/widgets/window.rs:50-53 | sets the width and nothing else |
| Window.WithHeight | src/widgets/window.rs:55-58 | sets the height and nothing else |
| Window.SetTitle | src/widgets/window.rs:60-71 | `with_title`/`set_title` change only the title, and `title()` then returns the string set |
| Window.Title | src/widgets/window.rs:69-71 | returns the stored title (no contract of its own; `Window.SetTitle` ties it to the setters) |
| Window.WindowUid | src/widgets/window.rs:78-80 | `uid()` is the window's own id |
| Window.RealWidth | src/widgets/window.rs:84-86 | width plus 32 (twice `SHADOW_SIZE`), within `u32` |
| Window.RealHeight | src/widgets/window.rs:88-90 | height plus 32 (twice `SHADOW_SIZE`), within `u32` |
| Window.WithWidthFootprint | src/widgets/window.rs:50-90 | after `with_width(v)` the footprint width is `v+32` and the footprint height is unchanged |
| Window.WithHeightFootprint | src/widgets/window.rs:50-90 | after `with_height(v)` the footprint height is `v+32` and the footprint width is unchanged |
| Window.Destroy | src/widgets/window.rs:92-98 | raises the flag; the first call stamps `now`; a call on a destroyed window changes nothing; no other field changes |
| Window.DestroyIdempotent | src/widgets/window.rs:92-98 | a second `destroy` leaves the window, and so the linger start, as the first left it |
| Window.DestroyAll | src/widgets/window.rs:92-98 | any run of `destroy` calls equals the first call alone |
| Window.IsDestroyed | src/widgets/window.rs:104-106 | true exactly when destroyed and more than 300 ms have passed since the stamp |
| Window.LingerTimeline | src/widgets/window.rs:92-106 | never true before `destroy`; after the first `destroy` at `t0`, true at `t` exactly when `t - t0 > 300`, whatever later `destroy` calls happen |
| Window.LingerExample | src/widgets/window.rs:104-106 | false at 0, 150 and 300 ms after `destroy`, true at 350 ms |
| Window.HitTest | src/widgets/window.rs:100-102 | `Client` for every point, window unchanged |
| Button.New | src/widgets/button.rs:33-45 | position, `g_pos = pos`, size and text as given, status `Normal`, `need_update`, text size 14, no callback; exactly one fresh id |
| Button.OnClick | src/widgets/button.rs:47-50 | replaces only the callback |
| Button.Clone | src/widgets/button.rs:52-65 | copies size, position, global position, status, text size and text; raises `need_update`; resets the callback; mints a fresh id that differs from the original's |
| Button.Event | src/widgets/button.rs:69-71 | leaves the button unchanged |
| Button.Update | src/widgets/button.rs:73-75 | leaves the button unchanged |
| Button.Draw | src/widgets/button.rs:77-79 | leaves the button unchanged |
| Button.ButtonUid | src/widgets/button.rs:81-84 | `uid()` is `_uid` |
| Button.CloneTwice | src/widgets/button.rs:52-65 | a clone of a clone keeps the original's visible state, and the three ids are pairwise distinct |
| Label.Default | src/widgets/label.rs:15-25 | empty text, size 13, left-aligned, colour `0x202020FF`, one fresh id |
| Label.New | src/widgets/label.rs:27-33 | the default label with the given text: same id and every other field as `Default` |
| Label.SetColor | src/widgets/label.rs:35-38 | changes only the colour |
| Label.SetTextSize | src/widgets/label.rs:40-43 | changes only the text size |
| Label.SetTextAlign | src/widgets/label.rs:45-48 | changes only the alignment |
| Label.Clone | src/widgets/label.rs:50-60 | equal to the original except for a freshly minted id that differs from the original's |
| Label.LabelUid | src/widgets/label.rs:62-67 | `uid()` is `_uid` |
| Input.Default | src/widgets/input.rs:55-67 | zero position, size and global position, empty value, `need_update`, one fresh id |
| Input.New | src/widgets/input.rs:21-29 | position and size as given, `g_pos = pos`, everything else (id included) as `Default` |
| Input.SetValue | src/widgets/input.rs:31-39 | changes only the value, and `value()` then returns it |
| Input.Value | src/widgets/input.rs:36-39 | returns the stored value (no contract of its own; `Input.SetValue` ties it to the setter) |
| Input.Clone | src/widgets/input.rs:41-53 | copies position, global position, size and value; raises `need_update`; mints a fresh id distinct from the original's |
| Input.InputUid | src/widgets/input.rs:13-20 | the control's id is its `_uid` field |
| Template.Default | src/widgets/template.rs:40-50 | zero position, size and global position, `need_update` |
| Template.New | src/widgets/template.rs:16-26 | position and size as given, `g_pos = pos`, `need_update` |
| Template.Clone | src/widgets/template.rs:28-38 | copies position, size and global position exactly, raises `need_update` |
| Template.CloneStable | src/widgets/template.rs:28-38 | a clone differs from its original only in the flag, and cloning a clone changes nothing |
| Image.Default | src/widgets/image.rs:28-39 | zero position, size and global position, `need_update`, a 1x1 bitmap |
| Image.BlankPixmap | src/widgets/image.rs:36 | for `w, h >= 1` (`Pixmap::new` gives `None` otherwise) a `w` x `h` pixmap holds `4*w*h` bytes, all zero, as `Pixmap::new` allocates it |
| Image.New | src/widgets/image.rs:15-23 | position and size as given, `g_pos = pos`, `need_update`, the default bitmap |
| Image.SetImg | src/widgets/image.rs:24-26 | replaces only the bitmap |
| Image.Update | src/widgets/image.rs:41-43 | changes nothing |
| Image.Draw | src/widgets/image.rs:44-61 | clears `need_update` and changes nothing else |
| Image.Clone | src/widgets/image.rs:65-75 | copies position, global position, size and bitmap; raises `need_update` |
| Image.DrawThenClone | src/widgets/image.rs:44-75 | drawing twice equals drawing once; a clone of a drawn image is dirty again |
| Controls.Control.Uid | src/traits/controls.rs:5-6 | `uid()` dispatched to the control's kind (no contract of its own; `Controls.CloneControl` and `Controls.ControlEqIgnoresState` state what it returns) |
| Controls.ControlEq | src/traits/controls.rs:22-26 | equal exactly when the ids are equal (no contract of its own; `Controls.ControlEqEquivalence` and `Controls.ControlEqIgnoresState` state its properties) |
| Controls.ControlEqEquivalence | src/traits/controls.rs:22-26 | uid equality is reflexive, symmetric and transitive |
| Controls.ControlEqIgnoresState | src/traits/controls.rs:22-26 | for every kind of control, equal ids give equality (also across kinds, e.g. a button and a label) and different ids give inequality; changing the position, size, text, colour, alignment, value, title or flags of a button, label, input or window keeps it equal to itself |
| Controls.CloneControl | src/traits/controls.rs:28 | cloning any cloneable control gives it the next id from the generator |
| Controls.CloneNeverEqual | src/traits/controls.rs:22-28 | a clone is never equal to its original |
| Controls.SuccessiveButtonsDiffer | src/widgets/button.rs:33-45 | two buttons built one after the other are unequal, even with identical arguments |
| Utils.IsInArea | src/utils/mod.rs:12-15 | the point is inside exactly when its offset from the corner lies in `0..=w` by `0..=h`; only the sums the short-circuiting `&&` evaluates must fit in `i32` |
| Utils.ShortCircuitExample | src/utils/mod.rs:13-14 | `is_in_area(0, 0, 1, 0, i32::MAX, 0)` is a valid call that answers false, although `1 + i32::MAX` overflows |
| Utils.IsInAreaTranslate | src/utils/mod.rs:12-15 | moving the point and the rectangle together does not change the answer |
| Utils.CornersInside | src/utils/mod.rs:12-15 | all four corners lie inside a rectangle of non-negative size |
| Utils.NegativeSizeEmpty | src/utils/mod.rs:12-15 | a negative width or height contains no point |
| Utils.EdgesInclusive | src/utils/mod.rs:12-15 | both ends of each range are inside and one step beyond either end, when that step is still an `i32`, is not |
| Color.SplitColor | src/utils/color.rs:5-12 | the word is the base-256 number whose digits are the returned r, g, b, a |
| Color.ConcatColor | src/utils/color.rs:31-34 | the packed word is the base-256 number with digits r, g, b, a |
| Color.ConcatSplit | src/utils/color.rs:5-34 | `concat_color(split_color(c)) == c` for every `u32` |
| Color.SplitConcat | src/utils/color.rs:5-34 | `split_color(concat_color(r,g,b,a)) == (r,g,b,a)` for every byte quadruple |
| Color.ConcatInjective | src/utils/color.rs:31-34 | `concat_color` is injective |
| Drawing.MulDiv255 | src/utils/drawing.rs:29-36 | with no intermediate overflow, the result fits `u32` |
| Drawing.BlinnBeyondBytes | src/utils/drawing.rs:29-36 | outside bytes the formula misses the promised rounding: `muldiv255(65663, 1)` is 257, the rounded quotient 258 |
| Drawing.BlinnOnProduct | src/utils/drawing.rs:29-36 | for a product up to 255*255, Blinn's shift-and-add equals floor(p/255 + 0.5), which is at most 255 |
| Drawing.MulDiv255Exact | src/utils/drawing.rs:29-36 | `muldiv255(a,b) == floor(a*b/255 + 0.5)` and at most 255 for all bytes `a`, `b` |
| Drawing.MulDiv255Identity | src/utils/drawing.rs:29-36 | `muldiv255(a,255) == a` and `muldiv255(a,0) == 0` for bytes |
| Drawing.MulDiv255Symmetric | src/utils/drawing.rs:29-36 | `muldiv255` is symmetric |
| DrawTarget.UnionRectI | src/utils/draw_target.rs:41-69 | origin is the smaller of the inputs' origins, size the larger of their sizes, per axis |
| DrawTarget.UnionCommutative | src/utils/draw_target.rs:41-69 | `union_recti` is commutative |
| DrawTarget.UnionAssociative | src/utils/draw_target.rs:41-69 | `union_recti` is associative |
| DrawTarget.UnionIdempotent | src/utils/draw_target.rs:41-69 | `union_recti(a, a) == a` |
| DrawTarget.UnionNotExtentUnion | src/utils/draw_target.rs:56-67 | the result's far edge (smallest origin plus largest size) can stop short of an input's far edge |
| DrawTarget.CombinedBounds | src/utils/draw_target.rs:106-125 | folding from the zero rect gives origin at most 0 and at most every origin, size at least 0 and at least every size; each component is 0 or attained by some glyph |
| Fabric.Swizzle | src/system/windows/fabric.rs:129-132 | read through `split_color`, the stored colour has bytes 0 and 2 exchanged and bytes 1 and 3 kept |
| Fabric.SwizzleInvolution | src/system/windows/fabric.rs:126-133 | swizzling twice gives back the colour |
| Fabric.SetPixel | src/system/windows/fabric.rs:126-133 | needs `pos < raw.len`; writes the swizzled colour at `pos` and leaves every other entry unchanged |
| RowFlip.Flip | src/system/windows/fabric.rs:117-121 | the destination index of pixel `i` lies in `0..w*h` |
| RowFlip.FlipInRange | src/system/windows/fabric.rs:117-121 | the row subtraction never underflows and the index is below `w*h` |
| RowFlip.FlipOfRow | src/system/windows/fabric.rs:117-121 | the pixel at row `q`, column `c` of an image `h` rows high goes to row `h-1-q`, same column, and any such decomposition has `0 <= q < h` |
| RowFlip.FlipRowCol | src/system/windows/fabric.rs:117-121 | the destination keeps the column `i % w` and mirrors the row to `h-1-i/w` |
| RowFlip.FlipInvolution | src/system/windows/fabric.rs:117-121 | the index map is an involution on `0..w*h` |
| RowFlip.FlipInjective | src/system/windows/fabric.rs:117-123 | distinct sources go to distinct destinations, so each destination pixel is written exactly once |
| Fabric.Sync | src/system/windows/fabric.rs:116-124 | for every `i < w*h`, `raw[flip(i)]` is the swizzled `src[i]`; every destination pixel holds the swizzled pixel that maps to it; entries past `w*h` are unchanged |
| StrExt.EncodeUtf16 | src/traits/strext.rs:9-13 | a string of `n` scalars encodes to between `n` and `2n` units |
| StrExt.EncodeScalar | src/traits/strext.rs:9-13 | a BMP scalar is its own unit, never a surrogate; any other becomes a high then a low surrogate that recombine to the scalar |
| StrExt.ToW | src/traits/strext.rs:9-13 | the buffer is the UTF-16 encoding followed by a final 0 |
| StrExt.WStr | src/traits/strext.rs:5-7 | `w_str` gives the UTF-16 encoding followed by one 0 |
| StrExt.EncodeLength | src/traits/strext.rs:9-13 | the encoding has one unit per BMP scalar and two per other scalar |
| StrExt.WStrLength | src/traits/strext.rs:5-13 | the `w_str` buffer is that many units plus one |
| StrExt.ZeroOnlyFromNul | src/traits/strext.rs:9-13 | the encoding contains a 0 exactly when the string contains U+0000 |
| StrExt.WStrSingleNul | src/traits/strext.rs:5-13 | for a string without U+0000, the terminator is the buffer's only 0 |
| StrExt.DecodeEncode | src/traits/strext.rs:9-13 | UTF-16 decoding of the encoding gives back the string |
| StrExt.WStrRoundTrip | src/traits/strext.rs:5-13 | dropping the terminator and decoding gives back the string |
| StrExt.WStrExample | src/traits/strext.rs:5-13 | `"A😀"` becomes `[0x41, 0xD83D, 0xDE00, 0]` |

## Left out

- Spring animation (`src/utils/spring.rs`) and `src/utils/math.rs`: closed-form damped motion and rounding in `f32` (`exp`, `sin`, `cos`) driven by `Instant::now()`. This is floating-point numerics.
- Floating-point colour blending (`fix_alpha`, `fix_color`, `premultiply_color`, `mix_color`), the path builders of `src/utils/drawing.rs`, and font loading, glyph rasterisation and text measuring in `src/utils/draw_target.rs`. These are `f32` arithmetic and calls into tiny_skia and font_kit. `CombinedBounds` takes the glyph raster bounds as input.
- Win32 code: `system_window.rs`, `window_proc.rs`, `Fabric::new`, `resize`, `create_bitmap_hdc` and `src/utils/theme.rs`. These are operating-system calls. The bitmap is modelled as a sequence of `u32` words.
- `Application::run`, `DrawCtx` (its transform and `fork`), the `SystemDrawableWindow` trait and the hello-world example. They are the event loop, the rendering context and the OS interface. `DrawCtx` (src/context.rs:9-12) declares no `widget_size`; the model's `DrawCtx` is a size plus an opaque canvas, and its size field stands for the value `WidgetPod` writes before drawing (src/core.rs:27,59).
- `src/utils/state.rs`: a private, unused struct.
- Event bubbling (`emit`) and adding or removing children are only declared in the source, with no implementation. The same holds for `need_update`/`cancel_update` on `TopControl` and for the `g_pos`/size accessors of `Control`. Chrome hit-testing with hover tracking, dirty aggregation, 16 ms frame pacing and press synthesis have no implementation here either. None of these is modelled.
- `WindowControl::show` (an empty method) is not modelled; `mouse_down_time` is a field that nothing reads. `new` reads the clock twice (src/widgets/window.rs:41-42), while `Window.New` stamps both fields with one `now`.
- The `Widget` trait's own file (src/traits/mod.rs) is not part of this model. The pod's inner widget is the abstract `WidgetOps` record, and its `uid` is not modelled: the pod has its own id. src/widgets/input.rs defines no `uid()` for `InputControl`; `Input.InputUid` reading its `_uid` field is this model's choice.
- Window.IsDestroyed: requires the clock not to have gone back since `destroy` (`ClockOk`). `SystemTime` can go backwards, and then `start_time.elapsed().unwrap()` (src/widgets/window.rs:105) panics; that panic is excluded by the precondition rather than modelled.
- Drawing.MulDiv255: the doc comment (src/utils/drawing.rs:29) promises `floor(a*b/255 + 0.5)` with no domain, but Blinn's formula rounds correctly only for small products; the model proves the promise for byte inputs (`Drawing.MulDiv255Exact`), the only inputs any caller passes, and `Drawing.BlinnBeyondBytes` shows it failing at `a = 65663, b = 1`.
- Geometry.ToSize: does not model the `isize` to `f32` conversion of `to_size_f32`, which rounds large values. Sizes are exact integers here, and the pod caches integer sizes.
- Core.PodFrom: the `f32::MAX` placeholder is its exact integer value, `F32_MAX`.
- Uid.GenUid: does not model the wrap-around of `COUNTER` in a release build. Overflow is a precondition instead. The unsynchronised `static mut` is not modelled, since the toolkit runs on a single thread.
- DrawTarget.UnionRectI: pathfinder stores a `RectI` as two corners and adds them with `i32` wrap-around. The model keeps origin and size, which round-trip exactly through that representation.
- Text sizes (`f32`) are Dafny `real` values. Button callbacks are opaque tokens, and invoking them is out of scope.
- Image bitmaps are plain values (size and bytes) that nothing reads.
