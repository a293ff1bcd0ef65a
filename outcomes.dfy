/** How an operation of the client ends: it returns a value, returns an error,
    or panics and never returns to its caller. */
module Outcomes {

  /** The recoverable failures the client reports to its caller. */
  datatype Error =
    | NotFound(message: string)   // a required store key or header trunk is absent
    | Decode(message: string)     // stored bytes do not parse into the expected shape
    | Transport(message: string)  // the remote query or RPC call itself failed

  datatype Option<+T> = None | Some(value: T)

  /** Rust's `Result<T, failure::Error>`. */
  datatype Result<+T> = Ok(value: T) | Err(error: Error)

  /** The process-terminating conditions of the client (its `panic!` calls
      and the panic inside `copy_from_slice`). */
  datatype Panic =
    | WriteOnRemoteStore                          // "Write method should not be called on a RemoteStore"
    | DeleteOnRemoteStore                         // "Delete method should not be called on a RemoteStore"
    | MissingBitcoinTip                           // "Unable to fetch Bitcoin tip header"
    | SliceLengthMismatch(source: nat, destination: nat)

  /** The outcome of a call that may panic: either it returns its `Result`,
      or it aborts and nothing is returned. */
  datatype Run<+T> = Returned(result: Result<T>) | Panicked(panic: Panic)
}
