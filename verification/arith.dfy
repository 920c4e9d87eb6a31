/** Integer helpers shared by the sampler and the chunker. */
module Arith {
  /** Python's `min` on two integers. */
  function Min(a: int, b: int): int {
    if a <= b then a else b
  }
}
