/** Optional values, standing in for Swift optionals (`T?`). */
module Wrappers {

  datatype Option<+T> = None | Some(value: T)

  /** An octet, the element type of Swift's `[UInt8]`. */
  newtype byte = x: int | 0 <= x < 256
}
