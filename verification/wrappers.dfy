/** Optional values, standing in for Swift's `T?`. */
module Wrappers {

  /** `None` plays the part of Swift's `nil`. */
  datatype Option<+T> = None | Some(value: T)
}
