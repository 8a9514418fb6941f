/** `next_four_byte_align` (possum_os/src/device_tree.rs:109-113). */
module Alignment {

  /**
   * The smallest multiple of four that is not below `offset`. The source
   * computes `(offset + 3) & !0b11`; clearing the two low bits of a number
   * subtracts its remainder modulo four, which is how it is written here.
   * `usize` is 64 bits wide on the target and every argument the source passes
   * is a name length below 257 or a `u32` size, so `offset + 3` cannot wrap.
   */
  function NextFourByteAlign(offset: nat): (r: nat)
    ensures r % 4 == 0
    ensures offset <= r < offset + 4
    ensures offset % 4 == 0 ==> r == offset
  {
    var sum := offset + 3;
    sum - sum % 4
  }

  /** Aligning twice is the same as aligning once. */
  lemma AlignIdempotent(offset: nat)
    ensures NextFourByteAlign(NextFourByteAlign(offset)) == NextFourByteAlign(offset)
  {
  }

  /** Aligning never skips a multiple of four: the result is the least one at or above `offset`. */
  lemma AlignIsLeast(offset: nat, m: nat)
    requires m % 4 == 0 && offset <= m
    ensures NextFourByteAlign(offset) <= m
  {
  }
}
