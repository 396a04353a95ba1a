/** Small helper datatype shared by the other modules. */
module Wrappers {

  /** An optional value: `None` stands for a JavaScript `null` or `undefined`. */
  datatype Option<+T> = None | Some(value: T)
}
