/** Kotlin's nullable types, written out as an explicit option. */
module Wrappers {

  /** `T?` in Kotlin: `None` stands for `null`. */
  datatype Option<+T> = None | Some(value: T)
}
