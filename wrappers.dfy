/** The Option datatype used for "may be absent" results. */
module Wrappers {

  datatype Option<+T> = None | Some(value: T)
}
