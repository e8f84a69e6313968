/** C# null references and thrown exceptions, made explicit. */
module Optional {

  /** A reference or nullable value that may be null. */
  datatype Option<+T> = None | Some(value: T)

  /** The outcome of an operation that either returns a value or throws. */
  datatype Result<+R, +E> = Success(value: R) | Failure(error: E)
}
