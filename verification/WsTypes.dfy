/** What both halves of a websocket speak of. */
module WsTypes {
  import opened Wrappers

  type Bytes = seq<bv8>

  datatype Message =
    | Text(data: Bytes)
    | Binary(data: Bytes)
    | Ping(data: Bytes)
    | Pong(data: Bytes)
    | Close(reason: Option<nat>)
    | Continuation(data: Bytes)
    | Nop
}
