/** Small result types shared by the model. */
module Wrappers {

  datatype Option<T> = None | Some(value: T)

  /** The result of Go code that may panic at run time: a value, or a panic
      (a slice index out of range, bson.ObjectIdHex on a malformed id, a method
      called on a nil pointer). net/http recovers the panic of a handler and
      drops the connection without a response. */
  datatype Outcome<T> = Value(value: T) | Panic
}
