/** Optional values and success/failure outcomes shared by every module of the model. */
module Results {

  /** A value that may be absent: a Swift optional, a Python `None`, a missing dictionary key. */
  datatype Option<+T> = None | Some(value: T)

  /** The outcome of an operation that can fail: a Swift `Result`, or a Python call that may raise. */
  datatype Result<+T, +E> = Ok(value: T) | Err(error: E)
}
