/** What several modules share: a result that may be missing, and the ranges of machine integers. */
module Wrappers {

  datatype Option<+T> = None | Some(value: T)

  /** How many values an unsigned 32-bit, and an unsigned 64-bit, number can take. */
  const UINT32: nat := 0x1_0000_0000
  const UINT64: nat := 0x1_0000_0000_0000_0000

}
