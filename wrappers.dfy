/** The optional value used wherever the IDE's API may hand back null. */
module Wrappers {

  datatype Option<+T> = None | Some(value: T)
}
