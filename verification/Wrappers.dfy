/** Optional values, results and the error codes that the modelled code returns. */
module Wrappers {

  datatype Option<+T> = None | Some(value: T)

  datatype Result<+T, +E> = Ok(value: T) | Err(error: E)

  /** The driver errors that the modelled code can return. `Panicked` stands for an assertion,
      an out-of-range index or an `unwrap` that stops the program, and `Diverges` for a loop that
      never ends. */
  datatype Error =
    | QueueFull
    | NotReady
    | WrongToken
    | InvalidParam
    | IoError
    | Unsupported
    | InvalidDescriptor
    | AlreadyUsed
    | DmaError
    | ConfigSpaceTooSmall
    | Socket(cause: SocketError)
    | Panicked
    | Diverges

  datatype SocketError =
    | ConnectionExists
    | NotConnected
    | BufferTooShort
    | OutputBufferTooShort(needed: nat)
    | UnknownOperation(op: nat)
    | InvalidOperation
    | UnexpectedDataInPacket
    | InsufficientBufferSpaceInPeer

  type byte = x: int | 0 <= x < 256
}
