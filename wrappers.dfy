/** The optional value used for the panel's element handles (null or an element). */
module Wrappers {
  datatype Option<+T> = None | Some(value: T)
}
