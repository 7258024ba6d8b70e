/** The optional value used for Go's `error` results and for partial scans. */
module Wrappers {

  datatype Option<+T> = None | Some(value: T)

}
