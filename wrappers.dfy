/** The optional value used for nullable references and lookups that may fail. */
module Wrappers {

  datatype Option<T> = None | Some(value: T)
}
