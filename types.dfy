/**
 * Values shared by the whole crate: the state of a symmetric coroutine, the
 * errors that `resume` reports, panic payloads, and the Option/Result wrappers
 * the source gets from its standard library.
 */
module Types {
  /** Largest `usize` on a 64-bit target. */
  const USIZE_MAX: nat := 0xFFFF_FFFF_FFFF_FFFF

  datatype Option<T> = None | Some(value: T)

  /**
   * What a panic carries (`Box<Any + Send>` in the source). Only its identity
   * matters to the model, so it is a string.
   */
  type Payload = string

  /** The six states of a symmetric coroutine. */
  datatype State = Normal | Suspended | Blocked | Running | Finished | Panicked

  /** The error kinds of the crate-wide `Result`. */
  datatype Error = Finished | Waiting | Panicked | Panicking(payload: Payload)

  /** The crate-wide `Result<T> = result::Result<T, Error>`. */
  datatype Result<T> = Ok(value: T) | Err(error: Error)
}
