/** Option and Result, the two failure-carrying wrappers the model uses. */
module Wrappers {

  datatype Option<+T> = None | Some(value: T)

  datatype Result<+T, +E> = Ok(value: T) | Err(error: E)
}

/** The errors of the package: the two sentinels of errors.go and the opaque
    failure a sink reports for one write (identified by its attempt number). */
module Errors {

  datatype Error =
    | InvalidIdentifier
    | NilArgument
    | WriteFailed(attempt: nat)
}
