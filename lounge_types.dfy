/**
 * The data of the lounge room (src/routers/the-lounge.ts:12-151): server-side
 * users and messages, their client-side views, the payloads of the outbound
 * events and the requests as they come out of schema validation.
 */
module LoungeTypes {
  import opened Wrappers
  import opened Envelopes
  import ErrorFormat

  type UserId = string
  type SocketId = string
  type Token = string

  /** Milliseconds of `DateTime.utc()`; ISO strings are compared as milliseconds. */
  type Timestamp = nat

  /** joi's `string()` refuses the empty string. */
  type NonEmptyString = s: string | |s| > 0 witness "?"

  const Online: string := "online"
  const Reconnect: string := "reconnect"
  const Offline: string := "offline"

  /** The delay of the grace timer started on disconnect. */
  const GraceMs: nat := 5000

  const VerifyTokenResponse: string := "verify-token-response"
  const JoinConversationResponse: string := "join-conversation-response"
  const GetUsersResponse: string := "get-users-response"
  const GetMessagesResponse: string := "get-messages-response"
  const SendMessageResponse: string := "send-message-response"
  const UpdateUserResponse: string := "update-user-response"
  const UpdateInfoResponse: string := "update-info-response"
  const UpdateChatResponse: string := "update-chat-response"

  /**
   * `SrvUser`. The status is the string the record holds: update-user stores
   * whatever non-empty status the request carries.
   */
  datatype User = User(
    id: UserId,
    name: string,
    status: string,
    socket: Option<SocketId>,
    createdDate: Timestamp,
    modifiedDate: Timestamp)

  datatype Activity = Join | Leave

  /** `SrvMessage = SrvChat | SrvInfo`; the client copies have the same fields. */
  datatype Message =
    | Chat(id: string, userId: UserId, message: string, timestamp: Timestamp)
    | Info(id: string, userId: UserId, activity: Activity, timestamp: Timestamp)

  /** `ResUser`: what clients see of a user. */
  datatype ResUser = ResUser(id: UserId, name: string, status: string)

  /** The `data` objects of the success envelopes; `EmptyObject` is `{}`. */
  datatype Data =
    | EmptyObject
    | TokenData(token: Token)
    | UsersData(users: seq<ResUser>)
    | MessagesData(messages: seq<Message>)
    | SentData(tempChatId: string, sentChat: Message)
    | UserData(user: ResUser)
    | ChatData(chat: Message)
    | InfoData(info: Message)

  /**
   * Who an emit reaches: `theLounge.in(room)`, `socket.broadcast.to(room)`
   * (the room without the sending socket), or one socket (`socket.emit`,
   * `theLounge.to(socketId)`).
   */
  datatype Recipient = WholeRoom | RoomExcept(sender: SocketId) | ToSocket(socket: SocketId)

  datatype Event = Emit(to: Recipient, name: string, payload: Envelope<Data>)

  /** What `schema.validate(request)` hands the handler: joi's error message, or the value. */
  datatype Validation<+R> = SchemaError(message: string) | Validated(value: R)

  datatype TokenRequest = TokenRequest(token: NonEmptyString)

  datatype TempChat = TempChat(id: NonEmptyString, message: NonEmptyString)

  datatype SendRequest = SendRequest(token: NonEmptyString, tempChat: TempChat)

  datatype UserPatch = UserPatch(name: NonEmptyString, status: NonEmptyString)

  datatype UpdateRequest = UpdateRequest(token: NonEmptyString, user: UserPatch)

  /** The timer set by disconnect: fire the grace transition for `userId` after `delay` ms. */
  datatype GraceTimer = GraceTimer(userId: UserId, delay: nat)

  /** The error every handler answers with when `jwt.verify` throws. */
  const TokenInvalid: ResError := ResError(Int(403), Int(0), "token is invalid.")

  function ToRes(u: User): ResUser
  {
    ResUser(u.id, u.name, u.status)
  }

  /** `success()` without an argument: the data is the empty object. */
  function SuccessEmpty(): (r: Envelope<Data>)
    ensures r.success && r.SuccessResponse? && r.data == EmptyObject
  {
    Success(EmptyObject)
  }

  /**
   * The `try { jwt.verify(token) } catch` step every authenticated handler
   * takes after validation: the verified id, or 403 / 0 / 'token is invalid.'.
   */
  function CheckToken(token: Token, verify: Token -> Option<UserId>): (r: Result<UserId, ResError>)
    ensures r.Ok? <==> verify(token).Some?
    ensures r.Ok? ==> r.value == verify(token).value
    ensures r.Err? ==> r.error.status == Int(403) && r.error.subStatus == Int(0)
                           && r.error.message == "token is invalid."
  {
    match verify(token)
    case Some(id) => Ok(id)
    case None => Err(TokenInvalid)
  }

  /** The failure envelope for a schema error, read with the defaulting parser. */
  function SchemaFailure(message: string): Envelope<Data>
  {
    Failed(ErrorFormat.ParseError(message))
  }
}
