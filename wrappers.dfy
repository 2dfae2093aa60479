/** The optional value used throughout the model: JavaScript's `null` / "no match". */
module Wrappers {
  datatype Option<T> = None | Some(value: T)
}
