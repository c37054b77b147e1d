/** A minimal optional value, standing in for Go's nil pointers and failed lookups. */
module Wrappers {

  datatype Option<+T> = None | Some(value: T)
}
