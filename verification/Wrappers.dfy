/** Results that may be missing. */
module Wrappers {
  datatype Option<T> = Some(value: T) | None
}
