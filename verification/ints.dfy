/** Fixed-width integer ranges of the Rust types the toolkit uses.
    Dafny integers are unbounded, so each width is a range predicate; an
    arithmetic step that would overflow in the original (a panic in a debug
    build) is excluded by a precondition that uses these predicates.
    `isize`/`usize` are taken at 64 bits, the width of the Windows x64 target. */
module Ints {

  const I32_MIN: int := -0x8000_0000
  const I32_MAX: int := 0x7FFF_FFFF
  const U32_MAX: int := 0xFFFF_FFFF
  const ISIZE_MIN: int := -0x8000_0000_0000_0000
  const ISIZE_MAX: int := 0x7FFF_FFFF_FFFF_FFFF
  const USIZE_MAX: int := 0xFFFF_FFFF_FFFF_FFFF

  predicate IsI32(x: int) { I32_MIN <= x <= I32_MAX }
  predicate IsU32(x: int) { 0 <= x <= U32_MAX }
  predicate IsIsize(x: int) { ISIZE_MIN <= x <= ISIZE_MAX }
  predicate IsUsize(x: int) { 0 <= x <= USIZE_MAX }

  function Min(a: int, b: int): int { if a < b then a else b }
  function Max(a: int, b: int): int { if a < b then b else a }
}
