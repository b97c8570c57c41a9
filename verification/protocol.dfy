/** Message types shared by clients and relay (crates/collab-proto/src/lib.rs). */
module Protocol {
  import opened Common

  /** An identifier is the UTF-8 bytes of the source's string. */
  datatype UserId = UserId(utf8: seq<byte>)

  datatype DocId = DocId(utf8: seq<byte>)

  type ConnId = nat

  datatype MlsMessageType = KeyPackage | Welcome | Commit | Application

  datatype ErrorCode =
    | NotIdentified | InvalidMessage | Unauthorized | LimitExceeded | SessionReplaced

  /** Error texts are for people and are not modelled. */
  datatype ServerMessage =
    | Identified(userId: UserId)
    | Subscribed(docId: DocId)
    | Unsubscribed(docId: DocId)
    | YrsUpdate(docId: DocId, from: UserId, encrypted: seq<byte>, epoch: u64)
    | MlsHandshake(docId: DocId, from: UserId, payload: seq<byte>, messageType: MlsMessageType)
    | Error(code: ErrorCode)
}
