/** Outcomes shared by every module: Python's `None`-or-value and raise-or-return. */
module Results {

  /** A value that may be absent (Python's `Optional[T]`). */
  datatype Option<T> = None | Some(value: T)

  /** The normal return of a call, or the exception it raised. */
  datatype Result<T, E> = Success(value: T) | Failure(error: E)
}
