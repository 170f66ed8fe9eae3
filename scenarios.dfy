/**
 * Runs of several handlers on one room, showing what the handlers'
 * contracts together promise across a reconnect and a room reset.
 */
module LoungeScenarios {
  import opened Wrappers
  import opened Envelopes
  import opened LoungeTypes
  import opened Presence
  import opened MessageLog
  import opened Broadcast
  import opened TheLounge

  /**
   * Join, drop the connection, re-join with the same token on a new socket
   * before the grace timer fires: the firing finds the record `online` and
   * does nothing, and the record keeps its name and creation date.
   */
  method ReconnectWithinGrace(token: NonEmptyString, verify: Token -> Option<UserId>, id: UserId,
                              name: string, first: SocketId, second: SocketId, infoId: string, leaveId: string)
    returns (users: seq<User>, log: seq<Message>, notices: seq<Event>)
    requires verify(token) == Some(id)
    ensures users == [User(id, name, Online, Some(second), 10, 30)]
    ensures log == [Info(infoId, id, Join, 10)]
    ensures notices == []
  {
    var room := new Room();
    var _ := room.JoinConversation(first, Validated(TokenRequest(token)), verify, name, infoId, 10);
    var _, timer := room.Disconnect(first, 20);
    assert timer == Some(GraceTimer(id, GraceMs));
    var _ := room.JoinConversation(second, Validated(TokenRequest(token)), verify, "unused", "unused", 30);
    notices := room.FireGrace(timer.value.userId, 1, leaveId, 20 + GraceMs);
    users, log := room.users, room.messages;
  }

  /**
   * Join, drop the connection and let the grace timer fire with no socket
   * left: the room is empty afterwards, and a newcomer's history starts with
   * its own join info alone.
   */
  method LastLeaveResetsRoom(token: NonEmptyString, newcomer: NonEmptyString, verify: Token -> Option<UserId>,
                             id: UserId, other: UserId, socket: SocketId, later: SocketId,
                             name: string, otherName: string, joinId: string, leaveId: string, otherJoinId: string)
    returns (emptied: bool, history: seq<Event>)
    requires verify(token) == Some(id) && verify(newcomer) == Some(other)
    ensures emptied
    ensures history == [Emit(ToSocket(later), GetMessagesResponse,
                             Success(MessagesData([Info(otherJoinId, other, Join, 6000)])))]
  {
    var room := new Room();
    LoneVisitorLeaves(room, token, verify, id, socket, name, joinId, leaveId);
    emptied := room.users == [] && room.messages == [];
    history := NewcomerHistory(room, newcomer, verify, other, later, otherName, otherJoinId);
  }

  /** In an empty room, one visitor joins, disconnects and is never back: the room ends empty. */
  method LoneVisitorLeaves(room: Room, token: NonEmptyString, verify: Token -> Option<UserId>, id: UserId,
                           socket: SocketId, name: string, joinId: string, leaveId: string)
    requires room.Valid() && room.users == [] && room.messages == []
    requires verify(token) == Some(id)
    modifies room
    ensures room.Valid() && room.users == [] && room.messages == []
  {
    var _ := room.JoinConversation(socket, Validated(TokenRequest(token)), verify, name, joinId, 10);
    var _, timer := room.Disconnect(socket, 20);
    assert timer == Some(GraceTimer(id, GraceMs));
    var _ := room.FireGrace(timer.value.userId, 0, leaveId, 20 + GraceMs);
  }

  /** In an empty room, a newcomer joins and asks for the history: it gets its own join info alone. */
  method NewcomerHistory(room: Room, newcomer: NonEmptyString, verify: Token -> Option<UserId>, other: UserId,
                         later: SocketId, otherName: string, otherJoinId: string)
    returns (history: seq<Event>)
    requires room.Valid() && room.users == [] && room.messages == []
    requires verify(newcomer) == Some(other)
    modifies room
    ensures history == [Emit(ToSocket(later), GetMessagesResponse,
                             Success(MessagesData([Info(otherJoinId, other, Join, 6000)])))]
  {
    var _ := room.JoinConversation(later, Validated(TokenRequest(newcomer)), verify, otherName, otherJoinId, 6000);
    NewUserSeesOwnJoin([], [], other, otherName, later, otherJoinId, 6000);
    history := room.GetMessages(later, Validated(TokenRequest(newcomer)), verify);
  }
}
