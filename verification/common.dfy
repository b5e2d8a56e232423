/** Types shared by the whole model: Go's fixed-width integers, optional
    values, results, and the error values the proxy can return. */
module Common {

  /** A Go `byte`. */
  newtype byte = x: int | 0 <= x < 0x100

  /** A Go `uint` on a 64-bit platform. */
  newtype uint64 = x: int | 0 <= x < 0x1_0000_0000_0000_0000

  datatype Option<+T> = None | Some(value: T)

  /** A value or one of the errors below (Go's `(T, error)` pair). */
  datatype Result<+T> = Ok(value: T) | Err(error: Error)

  /** The error values that can come out of the core. */
  datatype Error =
    | Unauthorized          // ErrUnauthorized
    | UserExceedingQuota    // ErrUserExceedingQuota
    | CorruptBase64         // an error of the base64 decoder (corrupt input or unexpected end)
    | ShortWrite            // io.ErrShortWrite, raised by io.Copy
    | IoFailure(code: nat)  // an error reported by a reader or a writer, told apart by a code
}
