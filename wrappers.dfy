/** The nullable values of the source (`null` versus a value). */
module Wrappers {

  datatype Option<+T> = None | Some(value: T)
}
