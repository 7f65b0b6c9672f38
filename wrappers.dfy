/** The optional value used for absent request fields, absent headers and failed lookups. */
module Wrappers {

  datatype Option<T> = None | Some(value: T)
}
