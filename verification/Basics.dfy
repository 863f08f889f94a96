/** What several of the models share. */
module Basics {

  /** One more than the largest 32-bit unsigned number. */
  const WORD := 0x1_0000_0000

  datatype Option<+T> = None | Some(value: T)
}
