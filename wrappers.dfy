/** The optional value used for lookups that may miss a key. */
module Wrappers {

  datatype Option<+T> = None | Some(value: T)
}
