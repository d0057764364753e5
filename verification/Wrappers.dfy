// The one datatype the other modules share: a value that may be missing.
module Wrappers {

  datatype Option<+T> = None | Some(value: T)
}
