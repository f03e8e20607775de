/** Shared wrapper types: an optional value and a value-or-error result. */
module Common {

  /** An optional value; `None` stands for JavaScript's `null` or `undefined`. */
  datatype Option<T> = None | Some(value: T)

  /** The outcome of an operation that can fail with an error value. */
  datatype Result<T, E> = Ok(value: T) | Err(error: E)

  /** The process exit status of a synchronisation script: 0 or 1. */
  datatype Exit = ExitZero | ExitOne
}
