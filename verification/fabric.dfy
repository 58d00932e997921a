/** The pixel hand-off of the Windows `Fabric` (`system/windows/fabric.rs`):
    the rendered RGBA pixmap is copied into the device-independent bitmap,
    which Windows stores bottom-up and in BGRA byte order. Only the integer
    copy is modelled; the bitmap itself is a sequence of `u32` words. */
module Fabric {
  import opened Ints
  import opened Color
  import opened RowFlip

  /** The byte swizzle of `set_pixel`: seen through `split_color`, bytes 3
      and 1 stay and bytes 2 and 0 trade places. */
  function Swizzle(c: bv32): (r: bv32)
    ensures var (b3, b2, b1, b0) := SplitColor(c);
            SplitColor(r) == (b3, b0, b1, b2)
  {
    (c & 0xff00_0000) | (c & 0xff00) | ((c & 0xff) << 16) | ((c & 0xff_0000) >> 16)
  }

  lemma SwizzleInvolution(c: bv32)
    ensures Swizzle(Swizzle(c)) == c
  {
  }

  /** `set_pixel`: stores the swizzled colour at `pos` and nothing else.
      An index past the buffer panics in the original. */
  function SetPixel(raw: seq<bv32>, pos: nat, color: bv32): (r: seq<bv32>)
    requires pos < |raw|
    ensures |r| == |raw|
    ensures r[pos] == Swizzle(color)
    ensures forall p :: 0 <= p < |raw| && p != pos ==> r[p] == raw[p]
  {
    raw[pos := Swizzle(color)]
  }

  /** `sync`: for every source pixel `i` of a `w` x `h` pixmap, stores its
      swizzled colour at the row-flipped index. The pixel count is a `u32`
      product, and both buffers must hold that many pixels. */
  method Sync(src: seq<bv32>, raw: seq<bv32>, w: nat, h: nat) returns (out: seq<bv32>)
    requires IsU32(w) && IsU32(h) && IsU32(w * h)
    requires w * h <= |src| && w * h <= |raw|
    ensures |out| == |raw|
    ensures forall i :: 0 <= i < w * h ==> 0 <= Flip(i, w, h) < |out| && out[Flip(i, w, h)] == Swizzle(src[i])
    ensures forall p :: 0 <= p < w * h ==> out[p] == Swizzle(src[Flip(p, w, h)])
    ensures forall p :: w * h <= p < |raw| ==> out[p] == raw[p]
  {
    out := raw;
    var n := w * h;
    var i := 0;
    while i < n
      invariant 0 <= i <= n
      invariant |out| == |raw|
      invariant forall p :: n <= p < |raw| ==> out[p] == raw[p]
      invariant forall p :: 0 <= p < n ==> out[p] == (if Flip(p, w, h) < i then Swizzle(src[Flip(p, w, h)]) else raw[p])
    {
      FlipInvolution(i, w, h);
      var pos := Flip(i, w, h);
      forall p | 0 <= p < n
        ensures Flip(p, w, h) == i <==> p == pos
      {
        FlipInvolution(p, w, h);
      }
      out := SetPixel(out, pos, src[i]);
      i := i + 1;
    }
    forall i | 0 <= i < n
      ensures 0 <= Flip(i, w, h) < |out| && out[Flip(i, w, h)] == Swizzle(src[i])
    {
      FlipInvolution(i, w, h);
    }
  }
}
