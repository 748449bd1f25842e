/** The Some/None datatype used where JavaScript would produce `undefined`. */
module Wrappers {

  datatype Option<+T> = None | Some(value: T)

}
