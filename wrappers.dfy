/** The optional value used where the analyzed program has a nullable reference. */
module Wrappers {

  datatype Option<+T> = None | Some(value: T)
}
