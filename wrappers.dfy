/** The optional value used for Go's nilable pointers (`*string`) and for
    "found / not found" answers. */
module Wrappers {
  datatype Option<+T> = None | Some(value: T)
}
