/** Failure-carrying return types: Rust's `Option` and `Result`. */
module Results {

  /** An optional value; `None` also stands for the places where the program panics
      on an empty iterator (`max().expect(..)`). */
  datatype Option<+T> = None | Some(value: T) {
    function GetOr(default: T): T {
      match this
      case Some(v) => v
      case None => default
    }
  }

  /** A value or an error, as `Result<T, E>`. */
  datatype Result<+T, +E> = Ok(value: T) | Err(error: E)
}
