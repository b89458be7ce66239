/** Result types shared by all modules. */
module Common {

  datatype Option<+T> = None | Some(value: T)

  datatype Result<+T, +E> = Ok(value: T) | Err(error: E)

  /** packetforge::common::ErrorCode, without the members no modelled code returns. */
  datatype ErrorCode =
    | Success
    | InvalidArgument
    | ConnectionFailed
    | ConnectionClosed
    | SocketError
    | SerializationError
    | ProtocolError
}
