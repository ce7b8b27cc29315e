/**
 * The runtime fault of jox/Runtime/RuntimeError.cs, and the outcome of a step
 * that may throw it. Where the source throws, the model returns `Fault`.
 */
module RuntimeErrors {
  import opened Tokens

  /** The exception's token and its `Message`. */
  datatype RuntimeError = RuntimeError(token: Token, message: string)

  datatype Result<+T> = Ok(value: T) | Fault(error: RuntimeError)
}
