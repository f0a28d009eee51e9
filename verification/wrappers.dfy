/** The optional value used for absent operands and absent lookups. */
module Wrappers {

  /** A method name that may be missing, or a tracker entity that may not exist. */
  datatype Option<+T> = None | Some(value: T)
}
