/** Failures raised by streams and stream decorators, and the failure-compatible
    result type every operation returns instead of throwing. */
module StreamErrors {

  /** The exceptions a PSR-7 stream or a decorator built on StreamDecoratorTrait
      can raise, one constructor per distinct cause. */
  datatype StreamError =
    | Detached                          // the backing resource has been detached or closed
    | NotReadable                       // read on a stream that is not readable
    | NotWritable                       // write on a stream that is not writable
    | NotSeekable                       // seek on a stream that is not seekable
    | NegativeLength                    // read with a negative length
    | SeekFailed(offset: int, whence: int) // the requested position cannot be reached
    | CannotSeekNoSeek                  // NoSeekStream refuses every seek
    | NotImplemented                    // BadMethodCallException from the default createStream
    | OpenFailed                        // a lazily opened resource could not be opened
    | NotFound(name: string)            // UnexpectedValueException: "<name> not found on class"

  datatype Option<+T> = None | Some(value: T)

  /** Either a value or the exception that an operation raised. */
  datatype Result<+T> = Ok(value: T) | Err(error: StreamError) {
    predicate IsFailure() {
      Err?
    }

    function PropagateFailure<U>(): Result<U>
      requires Err?
    {
      Err(error)
    }

    function Extract(): T
      requires Ok?
    {
      value
    }
  }
}
