/** What may be missing, for every module that has such values. */
module Wrappers {

  datatype Option<T> = None | Some(value: T)
}
