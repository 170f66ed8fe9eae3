/**
 * The lounge room of `theLoungeRouter` (src/routers/the-lounge.ts:153-990):
 * the two variables `users` and `messages` every connection's handlers share,
 * and one method per handler. Each method returns the events the handler
 * emits, in the order it emits them.
 */
module TheLounge {
  import opened Wrappers
  import opened Envelopes
  import opened LoungeTypes
  import opened Presence
  import opened MessageLog
  import opened Broadcast

  /** Chat text is never empty, so `if (chatMsg.message)` tells every chat from an info. */
  predicate ChatsNonEmpty(log: seq<Message>)
  {
    forall i :: 0 <= i < |log| && log[i].Chat? ==> log[i].message != ""
  }

  class Room {
    var users: seq<User>
    var messages: seq<Message>

    ghost predicate Valid()
      reads this
    {
      UniqueIds(users) && ChatsNonEmpty(messages)
    }

    /** The room starts empty (the-lounge.ts:159-161). */
    constructor ()
      ensures Valid() && users == [] && messages == []
    {
      users := [];
      messages := [];
    }

    /**
     * join-conversation: re-attach the record of the verified id to this
     * socket, or create it with a join info; the room except the sender hears
     * of it, and the sender gets `success()`.
     */
    method JoinConversation(socket: SocketId, req: Validation<TokenRequest>, verify: Token -> Option<UserId>,
                            name: string, infoId: string, now: Timestamp) returns (out: seq<Event>)
      requires Valid()
      modifies this
      ensures Valid()
      ensures req.SchemaError? ==>
                && users == old(users) && messages == old(messages)
                && out == [Emit(ToSocket(socket), JoinConversationResponse, SchemaFailure(req.message))]
      ensures req.Validated? && verify(req.value.token).None? ==>
                && users == old(users) && messages == old(messages)
                && out == [Emit(ToSocket(socket), JoinConversationResponse, Failed(TokenInvalid))]
      ensures req.Validated? && verify(req.value.token).Some? ==>
                var id := verify(req.value.token).value;
                match FindById(old(users), id)
                case Some(k) =>
                  && users == old(users)[k := Rejoined(old(users)[k], socket, now)]
                  && messages == old(messages)
                  && out == [Emit(RoomExcept(socket), UpdateUserResponse, Success(UserData(ToRes(users[k])))),
                             Emit(ToSocket(socket), JoinConversationResponse, SuccessEmpty())]
                case None =>
                  var user, info := NewUser(id, name, socket, now), Info(infoId, id, Join, now);
                  && users == old(users) + [user]
                  && messages == old(messages) + [info]
                  && out == [Emit(RoomExcept(socket), UpdateUserResponse, Success(UserData(ToRes(user)))),
                             Emit(RoomExcept(socket), UpdateInfoResponse, Success(InfoData(info))),
                             Emit(ToSocket(socket), JoinConversationResponse, SuccessEmpty())]
    {
      match req
      case SchemaError(message) =>
        out := [Emit(ToSocket(socket), JoinConversationResponse, SchemaFailure(message))];
      case Validated(request) =>
        match CheckToken(request.token, verify)
        case Err(e) =>
          out := [Emit(ToSocket(socket), JoinConversationResponse, Failed(e))];
        case Ok(id) =>
          var found := FindById(users, id);
          if found.Some? {
            var k := found.value;
            var rejoin := (u: User) => Rejoined(u, socket, now);
            MapIdUpdate(users, id, rejoin);
            users := MapId(users, id, rejoin);
            out := [Emit(RoomExcept(socket), UpdateUserResponse, Success(UserData(ToRes(users[k])))),
                    Emit(ToSocket(socket), JoinConversationResponse, SuccessEmpty())];
          } else {
            var user := NewUser(id, name, socket, now);
            var info := Info(infoId, id, Join, now);
            AppendNewKeepsUnique(users, user);
            users := users + [user];
            messages := messages + [info];
            out := [Emit(RoomExcept(socket), UpdateUserResponse, Success(UserData(ToRes(user)))),
                    Emit(RoomExcept(socket), UpdateInfoResponse, Success(InfoData(info))),
                    Emit(ToSocket(socket), JoinConversationResponse, SuccessEmpty())];
          }
    }

    /** get-users: every record's id, name and status, in room order; nothing changes. */
    method GetUsers(socket: SocketId, req: Validation<TokenRequest>, verify: Token -> Option<UserId>)
      returns (out: seq<Event>)
      ensures |out| == 1 && out[0].to == ToSocket(socket) && out[0].name == GetUsersResponse
      ensures req.SchemaError? ==> out[0].payload == SchemaFailure(req.message)
      ensures req.Validated? && verify(req.value.token).None? ==> out[0].payload == Failed(TokenInvalid)
      ensures req.Validated? && verify(req.value.token).Some? ==>
                out[0].payload == Success(UsersData(ClientUsers(users)))
    {
      match req
      case SchemaError(message) =>
        out := [Emit(ToSocket(socket), GetUsersResponse, SchemaFailure(message))];
      case Validated(request) =>
        match CheckToken(request.token, verify)
        case Err(e) =>
          out := [Emit(ToSocket(socket), GetUsersResponse, Failed(e))];
        case Ok(_) =>
          out := [Emit(ToSocket(socket), GetUsersResponse, Success(UsersData(ClientUsers(users))))];
    }

    /**
     * get-messages: for the verified id, the log since that user's creation
     * date (nothing when the id has no record); nothing changes.
     */
    method GetMessages(socket: SocketId, req: Validation<TokenRequest>, verify: Token -> Option<UserId>)
      returns (out: seq<Event>)
      ensures |out| == 1 && out[0].to == ToSocket(socket) && out[0].name == GetMessagesResponse
      ensures req.SchemaError? ==> out[0].payload == SchemaFailure(req.message)
      ensures req.Validated? && verify(req.value.token).None? ==> out[0].payload == Failed(TokenInvalid)
      ensures req.Validated? && verify(req.value.token).Some? ==>
                out[0].payload == Success(MessagesData(Visible(users, messages, verify(req.value.token).value)))
    {
      match req
      case SchemaError(message) =>
        out := [Emit(ToSocket(socket), GetMessagesResponse, SchemaFailure(message))];
      case Validated(request) =>
        match CheckToken(request.token, verify)
        case Err(e) =>
          out := [Emit(ToSocket(socket), GetMessagesResponse, Failed(e))];
        case Ok(id) =>
          out := [Emit(ToSocket(socket), GetMessagesResponse, Success(MessagesData(Visible(users, messages, id))))];
    }

    /**
     * send-message: append one chat from the verified id (whether or not it
     * has a record), tell the room except the sender, and echo the temporary
     * id with the stored chat to the sender.
     */
    method SendMessage(socket: SocketId, req: Validation<SendRequest>, verify: Token -> Option<UserId>,
                       chatId: string, now: Timestamp) returns (out: seq<Event>)
      requires Valid()
      modifies this
      ensures Valid()
      ensures users == old(users)
      ensures req.SchemaError? ==>
                && messages == old(messages)
                && out == [Emit(ToSocket(socket), SendMessageResponse, SchemaFailure(req.message))]
      ensures req.Validated? && verify(req.value.token).None? ==>
                && messages == old(messages)
                && out == [Emit(ToSocket(socket), SendMessageResponse, Failed(TokenInvalid))]
      ensures req.Validated? && verify(req.value.token).Some? ==>
                var chat := Chat(chatId, verify(req.value.token).value, req.value.tempChat.message, now);
                && messages == old(messages) + [chat]
                && out == [Emit(RoomExcept(socket), UpdateChatResponse, Success(ChatData(chat))),
                           Emit(ToSocket(socket), SendMessageResponse, Success(SentData(req.value.tempChat.id, chat)))]
    {
      match req
      case SchemaError(message) =>
        out := [Emit(ToSocket(socket), SendMessageResponse, SchemaFailure(message))];
      case Validated(request) =>
        match CheckToken(request.token, verify)
        case Err(e) =>
          out := [Emit(ToSocket(socket), SendMessageResponse, Failed(e))];
        case Ok(id) =>
          var chat := Chat(chatId, id, request.tempChat.message, now);
          messages := messages + [chat];
          out := [Emit(RoomExcept(socket), UpdateChatResponse, Success(ChatData(chat))),
                  Emit(ToSocket(socket), SendMessageResponse, Success(SentData(request.tempChat.id, chat)))];
    }

    /**
     * update-user: the record of the verified id takes the requested name and
     * status; the whole room, sender included, hears of it and there is no
     * direct success answer. An id without a record changes and emits nothing.
     */
    method UpdateUser(socket: SocketId, req: Validation<UpdateRequest>, verify: Token -> Option<UserId>,
                      now: Timestamp) returns (out: seq<Event>)
      requires Valid()
      modifies this
      ensures Valid()
      ensures messages == old(messages)
      ensures req.SchemaError? ==>
                && users == old(users)
                && out == [Emit(ToSocket(socket), UpdateUserResponse, SchemaFailure(req.message))]
      ensures req.Validated? && verify(req.value.token).None? ==>
                && users == old(users)
                && out == [Emit(ToSocket(socket), UpdateUserResponse, Failed(TokenInvalid))]
      ensures req.Validated? && verify(req.value.token).Some? ==>
                match FindById(old(users), verify(req.value.token).value)
                case None =>
                  users == old(users) && out == []
                case Some(k) =>
                  && users == old(users)[k := Renamed(old(users)[k], req.value.user.name, req.value.user.status, now)]
                  && out == [Emit(WholeRoom, UpdateUserResponse, Success(UserData(ToRes(users[k]))))]
    {
      match req
      case SchemaError(message) =>
        out := [Emit(ToSocket(socket), UpdateUserResponse, SchemaFailure(message))];
      case Validated(request) =>
        match CheckToken(request.token, verify)
        case Err(e) =>
          out := [Emit(ToSocket(socket), UpdateUserResponse, Failed(e))];
        case Ok(id) =>
          var found := FindById(users, id);
          var rename := (u: User) => Renamed(u, request.user.name, request.user.status, now);
          MapIdUpdate(users, id, rename);
          users := MapId(users, id, rename);
          out := [];
          if found.Some? {
            out := [Emit(WholeRoom, UpdateUserResponse, Success(UserData(ToRes(users[found.value]))))];
          }
    }

    /**
     * disconnect: the record holding this socket turns `reconnect`, keeping
     * the socket; the whole room hears of it and a grace timer for that id is
     * set. Without such a record nothing happens and no timer is set.
     */
    method Disconnect(socket: SocketId, now: Timestamp) returns (out: seq<Event>, timer: Option<GraceTimer>)
      requires Valid()
      modifies this
      ensures Valid()
      ensures messages == old(messages)
      ensures match FindBySocket(old(users), socket)
              case None =>
                users == old(users) && out == [] && timer == None
              case Some(k) =>
                && users == old(users)[k := Reconnecting(old(users)[k], now)]
                && out == [Emit(WholeRoom, UpdateUserResponse, Success(UserData(ToRes(users[k]))))]
                && timer == Some(GraceTimer(old(users)[k].id, GraceMs))
    {
      var found := FindBySocket(users, socket);
      out, timer := [], None;
      if found.Some? {
        var k := found.value;
        var id := users[k].id;
        var reconnect := (u: User) => Reconnecting(u, now);
        FindOwnId(users, k);
        MapIdUpdate(users, id, reconnect);
        users := MapId(users, id, reconnect);
        out := [Emit(WholeRoom, UpdateUserResponse, Success(UserData(ToRes(users[k]))))];
        timer := Some(GraceTimer(id, GraceMs));
      }
    }

    /**
     * The grace timer firing for `userId`, with `liveSockets` sockets left in
     * the namespace. Only a record still `reconnect` turns `offline`, loses its
     * socket and gets a leave info; the notices go to the recipients of the
     * list as it was before. With no live socket the room is emptied, whether
     * or not the transition happened.
     */
    method FireGrace(userId: UserId, liveSockets: nat, infoId: string, now: Timestamp) returns (out: seq<Event>)
      requires Valid()
      modifies this
      ensures Valid()
      ensures var k := FindById(old(users), userId);
              if k.Some? && old(users)[k.value].status == Reconnect then
                var info := Info(infoId, userId, Leave, now);
                var left := WentOffline(old(users)[k.value], now);
                && out == LeaveNotices(LeaveRecipients(old(users), old(users)[k.value].modifiedDate), ToRes(left), info)
                && (liveSockets > 0 ==> users == old(users)[k.value := left] && messages == old(messages) + [info])
                && (liveSockets == 0 ==> users == [] && messages == [])
              else
                && out == []
                && (liveSockets > 0 ==> users == old(users) && messages == old(messages))
                && (liveSockets == 0 ==> users == [] && messages == [])
    {
      var before := users;
      var found := FindById(users, userId);
      var leave := (u: User) => if u.status == Reconnect then WentOffline(u, now) else u;
      out := [];
      if found.Some? && users[found.value].status == Reconnect {
        var existing := users[found.value];
        var info := Info(infoId, existing.id, Leave, now);
        messages := messages + [info];
        out := Notify(before, existing.modifiedDate, ToRes(WentOffline(existing, now)), info);
      }
      MapIdUpdate(users, userId, leave);
      users := MapId(users, userId, leave);
      if liveSockets == 0 {
        users := [];
        messages := [];
      }
    }
  }
}
