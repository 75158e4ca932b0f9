/** Rust's `Option` and `Result` as datatypes, shared by the tokenizer and the parser. */
module Wrappers {

  /** An optional value, as Rust's `Option<T>`. */
  datatype Option<T> = None | Some(value: T)

  /** A value or an error, as Rust's `Result<T, E>`. */
  datatype Result<T, E> = Ok(value: T) | Err(error: E)
}
