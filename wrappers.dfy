/** The optional value used throughout the model for `T | null` slots and lookups that may miss. */
module Wrappers {

  datatype Option<+T> = None | Some(value: T)
}
