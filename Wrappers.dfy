/** An optional value: a field that may be absent, or a result that may not exist. */
module Wrappers {
  datatype Option<+T> = None | Some(value: T)
}
