/** A value that may be missing: a JavaScript property that is absent, undefined or null. */
module Wrappers {

  datatype Option<+T> = None | Some(value: T)
}
