/** An optional value: the model's stand-in for a JavaScript `null`-able slot. */
module Wrappers {

  datatype Option<+T> = None | Some(value: T)
}
