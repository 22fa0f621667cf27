/** Failure-compatible result type and the error conditions of the codec.
    Each error stands for the exception cupless raises. */
module Results {

  /** The exceptions the codec can raise. */
  datatype Error =
    | UnexpectedEof        // EOFError raised by BufferReader.read on a short read
    | StructError          // struct.error: a pack/unpack with the wrong size or an out-of-range value
    | KeyError             // KeyError: a lookup in a dict that lacks the key
    | IndexError           // IndexError: indexing an empty byte string
    | UnicodeDecodeError   // UnicodeDecodeError: bytes that are not well-formed UTF-8

  datatype Result<+T> = Success(value: T) | Failure(error: Error) {
    predicate IsFailure() {
      Failure?
    }

    function PropagateFailure<U>(): Result<U>
      requires Failure?
    {
      Failure(error)
    }

    function Extract(): T
      requires Success?
    {
      value
    }
  }

  datatype Option<+T> = None | Some(value: T)
}
