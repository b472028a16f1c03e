/** The optional value used wherever the page script holds `null` or `undefined`. */
module Wrappers {
  datatype Option<+T> = None | Some(value: T)
}
