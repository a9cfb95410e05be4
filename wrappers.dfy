/** The usual Some/None datatype, for values the component keeps as `null` or `undefined`. */
module Wrappers {

  datatype Option<+T> = None | Some(value: T)
}
