/** The optional-value datatype used wherever the extension's scripts hold
    `null` (or `undefined`) in place of a value. */
module Wrappers {

  datatype Option<+T> = None | Some(value: T)
}
