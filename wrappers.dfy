/** The usual optional value, used for nullable columns (due dates, timestamps, task owners). */
module Wrappers {
  datatype Option<T> = None | Some(value: T)
}
