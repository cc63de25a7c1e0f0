/** Small shared datatypes. */
module Wrappers {

  /** An optional value: an environment variable that may be unset, a parse that may fail. */
  datatype Option<+T> = None | Some(value: T)
}
