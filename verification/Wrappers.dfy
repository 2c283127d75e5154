// Values that may be absent: a nil record, a missing map key, a zero timestamp.
module Wrappers {
  datatype Option<+T> = None | Some(value: T)
}
