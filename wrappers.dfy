/** Nullable values of the source (`T?` in Kotlin) as an explicit option type. */
module Wrappers {

  datatype Option<+T> = None | Some(value: T)
}
