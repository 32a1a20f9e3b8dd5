/** Absence as a value: `undefined` results of the editor become `None`. */
module Wrappers {

  datatype Option<+T> = None | Some(value: T)
}
