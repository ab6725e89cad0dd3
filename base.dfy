/** Small shared vocabulary: optional values, results of operations that can
    throw, and bytes. */
module Base {

  /** A value that may be absent (`undefined` in the source). */
  datatype Option<+T> = None | Some(value: T)

  /** The outcome of an operation that either returns a value or throws an
      error carrying a message. */
  datatype Result<+T> = Success(value: T) | Failure(error: string)

  /** An element of a `Uint8Array` / `ArrayBuffer`. */
  newtype byte = x: int | 0 <= x < 256
}
