/** Integer helpers of `utils/drawing.rs`: Blinn's exact rounded division
    by 255 and the text alignment enumeration. The path builders of that
    file are floating-point geometry and are not modelled. */
module Drawing {
  import opened Ints

  /** How a label aligns its text (`TextAlign`). */
  datatype TextAlign = Left | Right | Center

  /** No intermediate of `muldiv255` overflows `u32`: neither `a * b`,
      nor `+ 128`, nor `tmp + (tmp >> 8)`. */
  predicate MulDivFits(a: nat, b: nat) {
    IsU32(a) && IsU32(b) && a * b + 128 + (a * b + 128) / 256 <= U32_MAX
  }

  /** `muldiv255`, with `x >> 8` written as `x / 256` (the same on
      non-negative numbers). */
  function MulDiv255(a: nat, b: nat): (r: nat)
    requires MulDivFits(a, b)
    ensures IsU32(r)
  {
    var tmp := a * b + 128;
    (tmp + tmp / 256) / 256
  }

  /** The value the doc comment promises: floor(a*b/255 + 0.5). */
  function RoundedDiv255(p: nat): int {
    ((p as real) / 255.0 + 0.5).Floor
  }

  /** Outside byte inputs the formula no longer rounds: for `a = 65663`,
      `b = 1` it gives 257 where the rounded quotient is 258. */
  lemma BlinnBeyondBytes()
    ensures MulDivFits(65663, 1)
    ensures MulDiv255(65663, 1) == 257 && RoundedDiv255(65663) == 258
  {
  }

  /** Blinn's trick computed on the product alone. */
  lemma {:induction false} BlinnOnProduct(p: nat)
    requires p <= 255 * 255
    ensures (p + 128 + (p + 128) / 256) / 256 == RoundedDiv255(p)
    ensures RoundedDiv255(p) <= 255
  {
    var q := p / 255;
    var rr := p % 255;
    assert p == 255 * q + rr;
    assert q <= 255;
    var k := q + (if rr >= 128 then 1 else 0);
    // the integer side: write p + 128 as 256 q + s and peel off q
    var s := rr + 128 - q;
    assert p + 128 == 256 * q + s;
    assert -127 <= s <= 382;
    var d := if s < 0 then -1 else if s >= 256 then 1 else 0;
    assert (p + 128) / 256 == q + d;
    assert d == -1 ==> rr < 128;
    assert d == 1 ==> rr >= 128;
    assert (p + 128 + (p + 128) / 256) / 256 == k;
    // the real side: k <= p/255 + 1/2 < k + 1
    var x := (p as real) / 255.0 + 0.5;
    assert x == (q as real) + ((rr as real) + 127.5) / 255.0;
    assert (k as real) <= x < (k as real) + 1.0;
  }

  lemma ByteProduct(a: nat, b: nat)
    requires a <= 255 && b <= 255
    ensures a * b <= 255 * 255
  {
    assert a * b <= 255 * b;
  }

  /** `muldiv255(a, b) == floor(a*b/255 + 0.5)` for all bytes `a`, `b`. */
  lemma MulDiv255Exact(a: nat, b: nat)
    requires a <= 255 && b <= 255
    ensures MulDivFits(a, b)
    ensures MulDiv255(a, b) == RoundedDiv255(a * b)
    ensures MulDiv255(a, b) <= 255
  {
    var p := a * b;
    ByteProduct(a, b);
    BlinnOnProduct(p);
  }

  /** 255 is the multiplicative unit and 0 the zero. */
  lemma MulDiv255Identity(a: nat)
    requires a <= 255
    ensures MulDiv255(a, 255) == a && MulDiv255(a, 0) == 0
  {
    MulDiv255Exact(a, 255);
    MulDiv255Exact(a, 0);
  }

  lemma MulDiv255Symmetric(a: nat, b: nat)
    requires MulDivFits(a, b)
    ensures MulDivFits(b, a) && MulDiv255(a, b) == MulDiv255(b, a)
  {
    assert a * b == b * a;
  }
}
