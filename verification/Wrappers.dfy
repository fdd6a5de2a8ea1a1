// Values that may be absent: the source's `null` and `undefined`.
module Wrappers {

  datatype Option<T> = None | Some(value: T)
}
