/** Failure-carrying values shared by every module of the model. */
module Results {

  /** An optional value: `None` stands for Rust's `None`. */
  datatype Option<+T> = None | Some(value: T)

  /** The outcome of an operation whose success carries no value
      (Rust's `Result<(), E>`). */
  datatype Result<+E> = Ok | Err(error: E)
}
