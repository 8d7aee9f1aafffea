/** How an operation of the arithmetization ends. */
module Outcomes {

  /** A Rust `Result`: the value, or an error the caller can inspect. */
  datatype Result<T, E> = Ok(value: T) | Err(error: E)

  /** Whether a call returns at all: `Panicked` stands for a failed `assert!` or
      `assert_eq!`, which aborts the caller with the given message. */
  datatype Outcome<T> = Returned(value: T) | Panicked(message: string)
}
