/**
 * The message log and its one read path, get-messages
 * (src/routers/the-lounge.ts:557-587): the messages stamped at or after the
 * requesting user's creation date, in log order.
 */
module MessageLog {
  import opened Wrappers
  import opened LoungeTypes
  import opened Presence

  /** `log.filter(m => m.timestamp >= from)`. */
  function Since(log: seq<Message>, from: Timestamp): (r: seq<Message>)
    ensures |r| <= |log|
    ensures forall i :: 0 <= i < |r| ==> r[i].timestamp >= from
  {
    if log == [] then []
    else (if log[0].timestamp >= from then [log[0]] else []) + Since(log[1..], from)
  }

  /** A message is in the filtered log exactly when it is in the log and late enough. */
  lemma {:induction false} SinceMember(log: seq<Message>, from: Timestamp, m: Message)
    ensures m in Since(log, from) <==> m in log && m.timestamp >= from
  {
    if log != [] {
      SinceMember(log[1..], from, m);
      assert log == [log[0]] + log[1..];
    }
  }

  /** The filter keeps log order: filtering a concatenation concatenates the filtered parts. */
  lemma {:induction false} SinceAppend(a: seq<Message>, b: seq<Message>, from: Timestamp)
    ensures Since(a + b, from) == Since(a, from) + Since(b, from)
  {
    if a != [] {
      assert (a + b)[1..] == a[1..] + b;
      SinceAppend(a[1..], b, from);
    } else {
      assert a + b == b;
    }
  }

  /** Filtering one message keeps it exactly when it is late enough. */
  lemma SinceSingle(m: Message, from: Timestamp)
    ensures Since([m], from) == if m.timestamp >= from then [m] else []
  {
    assert [m][1..] == [];
  }

  /** Nothing in a log stamped before `from` survives the filter. */
  lemma {:induction false} SinceEarlier(log: seq<Message>, from: Timestamp)
    requires forall i :: 0 <= i < |log| ==> log[i].timestamp < from
    ensures Since(log, from) == []
  {
    if log != [] {
      SinceEarlier(log[1..], from);
    }
  }

  /**
   * get-messages for a verified id: empty when no record has that id,
   * otherwise the messages since that record's creation date.
   */
  function Visible(users: seq<User>, log: seq<Message>, id: UserId): (r: seq<Message>)
    ensures FindById(users, id).None? ==> r == []
  {
    match FindById(users, id)
    case None => []
    case Some(k) => Since(log, users[k].createdDate)
  }

  /** What a known user sees: the log messages stamped at or after its creation, and only those. */
  lemma VisibleMember(users: seq<User>, log: seq<Message>, id: UserId, m: Message)
    requires FindById(users, id).Some?
    ensures m in Visible(users, log, id)
            <==> m in log && m.timestamp >= users[FindById(users, id).value].createdDate
  {
    SinceMember(log, users[FindById(users, id).value].createdDate, m);
  }

  /**
   * A message appended to the log (a sent chat, a join or leave info) shows up
   * at the end of every known user's view whose creation date it does not
   * precede, and nowhere else.
   */
  lemma VisibleAfterAppend(users: seq<User>, log: seq<Message>, id: UserId, m: Message)
    ensures Visible(users, log + [m], id)
         == Visible(users, log, id)
            + (if FindById(users, id).Some? && m.timestamp >= users[FindById(users, id).value].createdDate
               then [m] else [])
  {
    if FindById(users, id).Some? {
      var from := users[FindById(users, id).value].createdDate;
      SinceAppend(log, [m], from);
      SinceSingle(m, from);
    }
  }

  /**
   * A user created by join at `now`, when the log holds only earlier
   * messages, sees its own join info and nothing else; in particular after a
   * room reset its history starts with that info alone.
   */
  lemma NewUserSeesOwnJoin(users: seq<User>, log: seq<Message>, id: UserId, name: string,
                           socket: SocketId, infoId: string, now: Timestamp)
    requires FindById(users, id).None?
    requires forall i :: 0 <= i < |log| ==> log[i].timestamp < now
    ensures Visible(users + [NewUser(id, name, socket, now)], log + [Info(infoId, id, Join, now)], id)
         == [Info(infoId, id, Join, now)]
  {
    var users' := users + [NewUser(id, name, socket, now)];
    assert FindById(users', id) == Some(|users|) by {
      assert users'[|users|].id == id;
      assert forall j :: 0 <= j < |users| ==> users'[j] == users[j];
    }
    SinceAppend(log, [Info(infoId, id, Join, now)], now);
    SinceEarlier(log, now);
    SinceSingle(Info(infoId, id, Join, now), now);
  }
}
