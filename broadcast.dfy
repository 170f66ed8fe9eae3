/**
 * The notifications of the grace firing (src/routers/the-lounge.ts:954-971):
 * for every user of the list as it was before the transition that is not
 * offline, has a socket and was created before the leaving user's
 * `modifiedDate`, that socket gets the updated user and then the leave info.
 */
module Broadcast {
  import opened Wrappers
  import opened Envelopes
  import opened LoungeTypes

  /** The filter of the notification loop; a socket id is truthy when present and non-empty. */
  predicate NotifiedOfLeave(u: User, leaverModified: Timestamp)
    ensures u.status == Offline || u.socket.None? ==> !NotifiedOfLeave(u, leaverModified)
    ensures u.createdDate >= leaverModified ==> !NotifiedOfLeave(u, leaverModified)
  {
    u.status != Offline && u.socket.Some? && u.socket.value != "" && u.createdDate < leaverModified
  }

  /** The sockets the loop writes to, in the order of `users`. */
  function LeaveRecipients(users: seq<User>, leaverModified: Timestamp): (r: seq<SocketId>)
    ensures |r| <= |users|
    ensures forall i :: 0 <= i < |r| ==> r[i] != ""
  {
    if users == [] then []
    else
      var last := users[|users| - 1];
      LeaveRecipients(users[..|users| - 1], leaverModified)
        + (if NotifiedOfLeave(last, leaverModified) then [last.socket.value] else [])
  }

  /** The two events each recipient socket gets. */
  function NoticesTo(socket: SocketId, user: ResUser, info: Message): seq<Event>
  {
    [Emit(ToSocket(socket), UpdateUserResponse, Success(UserData(user))),
     Emit(ToSocket(socket), UpdateInfoResponse, Success(InfoData(info)))]
  }

  /** The events for a list of recipient sockets, in order. */
  function LeaveNotices(sockets: seq<SocketId>, user: ResUser, info: Message): seq<Event>
  {
    if sockets == [] then []
    else LeaveNotices(sockets[..|sockets| - 1], user, info) + NoticesTo(sockets[|sockets| - 1], user, info)
  }

  /** The `for (const user of users)` loop of the grace firing. */
  method Notify(users: seq<User>, leaverModified: Timestamp, user: ResUser, info: Message)
    returns (out: seq<Event>)
    ensures out == LeaveNotices(LeaveRecipients(users, leaverModified), user, info)
  {
    out := [];
    var i := 0;
    while i < |users|
      invariant 0 <= i <= |users|
      invariant out == LeaveNotices(LeaveRecipients(users[..i], leaverModified), user, info)
    {
      var u := users[i];
      assert users[..i + 1][..i] == users[..i];
      ghost var before := LeaveRecipients(users[..i], leaverModified);
      assert users[..i + 1][i] == u;
      assert LeaveRecipients(users[..i + 1], leaverModified)
          == before + (if NotifiedOfLeave(u, leaverModified) then [u.socket.value] else []);
      if u.status != Offline && u.socket.Some? && u.socket.value != "" && u.createdDate < leaverModified {
        assert (before + [u.socket.value])[..|before|] == before;
        out := out + NoticesTo(u.socket.value, user, info);
      } else {
        assert before + [] == before;
      }
      i := i + 1;
    }
    assert users[..|users|] == users;
  }

  /** A socket is notified exactly when some user passing the filter holds it. */
  lemma {:induction false} LeaveRecipientsMember(users: seq<User>, leaverModified: Timestamp, s: SocketId)
    ensures s in LeaveRecipients(users, leaverModified)
            <==> exists i :: 0 <= i < |users| && NotifiedOfLeave(users[i], leaverModified) && users[i].socket == Some(s)
  {
    if users != [] {
      var init := users[..|users| - 1];
      LeaveRecipientsMember(init, leaverModified, s);
      assert forall i :: 0 <= i < |init| ==> init[i] == users[i];
    }
  }

  /** Each recipient gets the updated user and then the leave info, recipient after recipient. */
  lemma {:induction false} LeaveNoticesAt(sockets: seq<SocketId>, user: ResUser, info: Message, i: nat)
    requires i < |sockets|
    ensures |LeaveNotices(sockets, user, info)| == 2 * |sockets|
    ensures LeaveNotices(sockets, user, info)[2 * i]
         == Emit(ToSocket(sockets[i]), UpdateUserResponse, Success(UserData(user)))
    ensures LeaveNotices(sockets, user, info)[2 * i + 1]
         == Emit(ToSocket(sockets[i]), UpdateInfoResponse, Success(InfoData(info)))
  {
    var init := sockets[..|sockets| - 1];
    if i < |init| {
      LeaveNoticesAt(init, user, info, i);
    } else if init != [] {
      LeaveNoticesAt(init, user, info, 0);
    }
  }

  /**
   * A user that is still `reconnect` after disconnect keeps its socket, so
   * when it was created before its own last modification it is sent its own
   * leave notification.
   */
  lemma LeaverNotifiedOfOwnLeave(users: seq<User>, k: nat)
    requires k < |users| && users[k].status == Reconnect
    requires users[k].socket.Some? && users[k].socket.value != ""
    requires users[k].createdDate < users[k].modifiedDate
    ensures users[k].socket.value in LeaveRecipients(users, users[k].modifiedDate)
  {
    LeaveRecipientsMember(users, users[k].modifiedDate, users[k].socket.value);
  }
}
