/** The optional value used for missing cells, failed searches and absent files. */
module Wrappers {
  datatype Option<T> = None | Some(value: T)
}
