/** Failure-carrying values shared by the widget layer and the example resource.
    `Result<string, String>` and `Result<(), String>` of the Rust code become
    `Result<string>` and `Outcome`; the error payload is always a string there. */
module Results {

  /** Rust's `Option<T>`. */
  datatype Option<+T> = None | Some(value: T)

  /** Rust's `Result<T, String>`. */
  datatype Result<+T> = Ok(value: T) | Err(error: string)

  /** Rust's `Result<(), String>`. */
  datatype Outcome = Pass | Fail(error: string)
}
