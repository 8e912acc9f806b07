/**
 The values exchanged by the chat relay: the identity row stored per
 connection, the envelopes pushed to clients and the requests decoded from
 them. JSON encoding is not modelled: envelopes and requests are datatypes.
 */
module ChatTypes {

  datatype Option<+T> = None | Some(value: T)

  /** One row of the connection table: `{fd, name, avatar}`. */
  datatype User = User(fd: int, name: string, avatar: string)

  /** The `$messageType` values that `pushMessage` is called with. */
  datatype MessageType = Open | Close | PublicMessage

  /** The `message` field of a broadcast envelope: plain text for join and
      leave notices, a `{user, data}` record for chat lines. */
  datatype Payload =
    | Text(text: string)
    | Chat(author: Option<User>, data: string)

  /** An envelope pushed to one client. */
  datatype Envelope =
    | OpenSuccess(self: User, all: seq<User>)
    | Notice(kind: MessageType, message: Payload, datetime: string, sender: Option<User>)
    | PrivateMessage(message: Payload)

  /** One call of the transport's `push(fd, envelope)`. */
  datatype Push = Push(fd: int, env: Envelope)

  /** A decoded inbound frame. Anything that is not a `public` or `private`
      request (including a payload that does not decode) is `Other`. */
  datatype Inbound =
    | Public(message: string)
    | Private(message: string, to: int)
    | Other

  /** Texts appended to the user's name in the join and leave notices. */
  const JoinSuffix: string := "进入聊天室"
  const LeaveSuffix: string := "离开聊天室"
}
