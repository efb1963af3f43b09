/** The decoded shapes of the frames the relay reads and writes. */
module Json {

  /**
   * A decoded JSON field as the relay sees it. `Undefined` stands for a field
   * the frame does not carry. Equality on these values is JavaScript's `===`
   * (and `Array.prototype.includes`) for the scalars modelled here.
   */
  datatype Value = Undefined | Null | Bool(b: bool) | Num(n: int) | Str(s: string)

  /**
   * An inbound frame after `JSON.parse`: the four fields the message handler
   * reads. The `leave_room` branch reads `room`; every other branch reads `roomId`.
   */
  datatype Frame = Frame(kind: Value, roomId: Value, room: Value, message: Value)

  /** The outbound frame `{type: "chat", message, roomId}` relayed to room members. */
  datatype OutFrame = ChatOut(message: Value, roomId: Value)

  const JoinRoomKind: Value := Str("join_room")
  const LeaveRoomKind: Value := Str("leave_room")
  const ChatKind: Value := Str("chat")
}
