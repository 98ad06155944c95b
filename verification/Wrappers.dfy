/** Values that may be absent, and computations that may raise. */
module Wrappers {

  datatype Option<+T> = None | Some(value: T)

  /** A Python call: it returns a value or raises an exception. */
  datatype Result<+T> = Returned(value: T) | Raised
}
