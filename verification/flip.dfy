/** The index map of the Windows `Fabric::sync` copy
    (`system/windows/fabric.rs`): a top-down `w` x `h` pixmap index is sent
    to the same column of the mirrored row, because the device-independent
    bitmap it fills is stored bottom-up. */
module RowFlip {

  /** The destination index `sync` computes for source pixel `i` of a
      `w` x `h` image: same column, row counted from the bottom. It stays
      inside the image. */
  function Flip(i: nat, w: nat, h: nat): (r: nat)
    requires w > 0 && i < w * h
    ensures r < w * h
  {
    FlipInRange(i, w, h);
    (h - (i - i % w) / w - 1) * w + i % w
  }

  lemma MulAtLeast(d: int, w: int)
    requires d >= 1 && w > 0
    ensures d * w >= w
  {
  }

  lemma MulMono(a: int, b: int, w: int)
    requires a >= b && w >= 0
    ensures a * w >= b * w
  {
  }

  lemma Distrib(a: int, b: int, w: int)
    ensures a * w - b * w == (a - b) * w
  {
  }

  /** Division by `w` is determined by any quotient/remainder pair. */
  lemma DivModUnique(x: int, w: int, q: int, c: int)
    requires w > 0 && 0 <= c < w && x == q * w + c
    ensures x / w == q && x % w == c
  {
    var q', c' := x / w, x % w;
    assert x == q' * w + c';
    Distrib(q, q', w);
    if q > q' {
      MulAtLeast(q - q', w);
    } else if q < q' {
      MulAtLeast(q' - q, w);
    }
  }

  /** The subtraction from `h` never underflows and the index lands in
      `0..w*h`. */
  lemma FlipInRange(i: nat, w: nat, h: nat)
    requires w > 0 && i < w * h
    ensures 0 <= (h - (i - i % w) / w - 1) * w + i % w < w * h
  {
    var r, c := i / w, i % w;
    assert i == r * w + c;
    DivModUnique(i - c, w, r, 0);
    assert r < h by {
      if r >= h {
        MulMono(r, h, w);
        assert false;
      }
    }
    MulMono(h - 1 - r, 0, w);
    Distrib(h, r + 1, w);
    MulMono(r + 1, 1, w);
  }

  /** Flip in row/column terms: the pixel at row `q`, column `c` goes to
      row `h - 1 - q`, same column. */
  lemma FlipOfRow(j: nat, w: nat, h: nat, q: int, c: int)
    requires w > 0 && j < w * h && 0 <= c < w && j == q * w + c
    ensures 0 <= q < h
    ensures Flip(j, w, h) == (h - 1 - q) * w + c
  {
    DivModUnique(j, w, q, c);
    DivModUnique(j - c, w, q, 0);
    if q >= h {
      MulMono(q, h, w);
      assert false;
    }
    if q < 0 {
      MulMono(0, q + 1, w);
      assert false;
    }
  }

  /** The flipped index keeps the column and mirrors the row. */
  lemma FlipRowCol(i: nat, w: nat, h: nat)
    requires w > 0 && i < w * h
    ensures 0 <= i / w < h
    ensures Flip(i, w, h) / w == h - 1 - i / w && Flip(i, w, h) % w == i % w
  {
    var r, c := i / w, i % w;
    FlipOfRow(i, w, h, r, c);
    DivModUnique(Flip(i, w, h), w, h - 1 - r, c);
  }

  /** The index map is an involution on `0..w*h`, hence a bijection:
      every destination pixel is written by exactly one source pixel. */
  lemma FlipInvolution(i: nat, w: nat, h: nat)
    requires w > 0 && i < w * h
    ensures Flip(Flip(i, w, h), w, h) == i
  {
    var r, c := i / w, i % w;
    FlipOfRow(i, w, h, r, c);
    var f := Flip(i, w, h);
    FlipOfRow(f, w, h, h - 1 - r, c);
    assert h - 1 - (h - 1 - r) == r;
  }

  lemma FlipInjective(i: nat, j: nat, w: nat, h: nat)
    requires w > 0 && i < w * h && j < w * h
    ensures Flip(i, w, h) == Flip(j, w, h) <==> i == j
  {
    FlipInvolution(i, w, h);
    FlipInvolution(j, w, h);
  }
}
