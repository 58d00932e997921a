/** The integer colour packing of `utils/color.rs`: a `u32` holds an RGBA
    colour with red in the top byte and alpha in the bottom byte. The
    floating-point blending helpers of that file are not modelled. */
module Color {

  /** `Color = (u8, u8, u8, u8)`, in (r, g, b, a) order. */
  type Rgba = (bv8, bv8, bv8, bv8)

  /** `split_color`: red is bits 31..24, green 23..16, blue 15..8 and
      alpha 7..0, so the word is the base-256 number with digits r, g, b, a. */
  function SplitColor(c: bv32): (r: Rgba)
    ensures (r.0 as bv32) * 0x100_0000 + (r.1 as bv32) * 0x1_0000 + (r.2 as bv32) * 0x100 + (r.3 as bv32) == c
  {
    ((c >> 24) as bv8, ((c >> 16) & 0xFF) as bv8, ((c >> 8) & 0xFF) as bv8, (c & 0xFF) as bv8)
  }

  /** `concat_color`: packs the four bytes into those same bit ranges,
      i.e. builds that base-256 number. */
  function ConcatColor(r: bv8, g: bv8, b: bv8, a: bv8): (c: bv32)
    ensures c == (r as bv32) * 0x100_0000 + (g as bv32) * 0x1_0000 + (b as bv32) * 0x100 + (a as bv32)
  {
    ((r as bv32) << 24) | ((g as bv32) << 16) | ((b as bv32) << 8) | (a as bv32)
  }

  lemma ConcatSplit(c: bv32)
    ensures var (r, g, b, a) := SplitColor(c); ConcatColor(r, g, b, a) == c
  {
  }

  lemma SplitConcat(r: bv8, g: bv8, b: bv8, a: bv8)
    ensures SplitColor(ConcatColor(r, g, b, a)) == (r, g, b, a)
  {
  }

  lemma ConcatInjective(r: bv8, g: bv8, b: bv8, a: bv8, r': bv8, g': bv8, b': bv8, a': bv8)
    requires ConcatColor(r, g, b, a) == ConcatColor(r', g', b', a')
    ensures r == r' && g == g' && b == b' && a == a'
  {
    SplitConcat(r, g, b, a);
    SplitConcat(r', g', b', a');
  }
}
