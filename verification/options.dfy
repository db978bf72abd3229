/**
 * The two wrappers the rest of the model uses in place of JavaScript's
 * `null` and of a promise that either resolves or rejects.
 */
module Options {

  /** A value that may be absent (`null` / `undefined` in the source). */
  datatype Option<+T> = None | Some(value: T)

  /** The settled state of an awaited call: resolved with a value or rejected with an error. */
  datatype Result<+T, +E> = Ok(value: T) | Err(error: E)
}
