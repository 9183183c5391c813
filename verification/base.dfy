/** Values shared by the key-derivation and the provisioning models: bytes,
    Go `error` values, and the shape of a Go call's results. */
module Base {

  /** One byte of a Go `[]byte` or `[N]byte`. */
  newtype byte = b: int | 0 <= b < 256

  /** The conventional Some/None datatype; `None` stands for Go's `nil`. */
  datatype Option<+T> = None | Some(value: T)

  /** An opaque Go `error` value; only its message is observable. */
  datatype Error = Error(message: string)

  /** The outcome of a collaborator that either yields a value or an error. */
  datatype Result<+T> = Ok(value: T) | Err(error: Error)

  /** Why a Go call stopped with a runtime panic instead of returning. */
  datatype PanicCause =
    | NilDereference          // a field read through a nil pointer
    | SliceBoundsOutOfRange   // a slice expression with a negative low bound

  /** What a Go call `f(...) (*T, error)` does: it returns both results
      (either of which may be `nil`), or it panics. */
  datatype Call<+T> =
    | Return(value: Option<T>, err: Option<Error>)
    | Panic(cause: PanicCause)
  {
    /** Go's convention: exactly one of the two results is non-nil. */
    predicate Conventional() {
      Return? && (value.Some? <==> err.None?)
    }
  }
}
