/** What several parts of the model share: optional values, 64-bit numbers, the lesser
    of two numbers. */
module Wrappers {
  datatype Option<+T> = None | Some(value: T)

  const MAX_UINT64: nat := 0xffff_ffff_ffff_ffff

  type Uint64 = n: nat | n <= MAX_UINT64

  function Min(x: int, y: int): (m: int) {
    if x <= y then x else y
  }
}
