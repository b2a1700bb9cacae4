/** Small result types shared by the other modules. */
module Wrappers {

  /** Rust's `Option<T>`. */
  datatype Option<+T> = None | Some(value: T)

  /**
   * The outcome of an operation that either finishes with a value or panics.
   * A Rust `panic!` (or an `unwrap` of a `None`) aborts the operation and
   * carries a message; `Panic` records that message.
   */
  datatype Outcome<+T> = Done(value: T) | Panic(message: string)
}
