/** An optional value: the model's stand-in for a C pointer that may be NULL
    and for a JavaScript value that may be absent. */
module Wrappers {
  datatype Option<+T> = None | Some(value: T)
}
