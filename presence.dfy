/**
 * The user records of the room and the per-record updates the handlers make
 * with `users.find`, `users.some` and `users.map` (src/routers/the-lounge.ts:
 * 292-324, 336-344, 813-845, 876-909, 913-978).
 */
module Presence {
  import opened Wrappers
  import opened LoungeTypes

  /** No two records share an id. */
  predicate UniqueIds(users: seq<User>)
  {
    forall i, j :: 0 <= i < j < |users| ==> users[i].id != users[j].id
  }

  /** The index `users.find(p)` stops at: the first record satisfying `p`. */
  function FirstIndex(users: seq<User>, p: User -> bool): (k: Option<nat>)
    ensures k.Some? ==> k.value < |users| && p(users[k.value])
    ensures k.Some? ==> forall j :: 0 <= j < k.value ==> !p(users[j])
    ensures k.None? ==> forall j :: 0 <= j < |users| ==> !p(users[j])
  {
    if users == [] then None
    else if p(users[0]) then Some(0)
    else match FirstIndex(users[1..], p)
      case None => None
      case Some(k) => Some(k + 1)
  }

  /** `users.find(existingUser => existingUser.id === id)`. */
  function FindById(users: seq<User>, id: UserId): (k: Option<nat>)
    ensures k.Some? ==> k.value < |users| && users[k.value].id == id
    ensures k.Some? ==> forall j :: 0 <= j < k.value ==> users[j].id != id
    ensures k.None? <==> forall j :: 0 <= j < |users| ==> users[j].id != id
  {
    FirstIndex(users, (u: User) => u.id == id)
  }

  /** `users.find(existingUser => existingUser.socket === socket)`; a null socket matches nothing. */
  function FindBySocket(users: seq<User>, socket: SocketId): (k: Option<nat>)
    ensures k.Some? ==> k.value < |users| && users[k.value].socket == Some(socket)
    ensures k.Some? ==> forall j :: 0 <= j < k.value ==> users[j].socket != Some(socket)
    ensures k.None? <==> forall j :: 0 <= j < |users| ==> users[j].socket != Some(socket)
  {
    FirstIndex(users, (u: User) => u.socket == Some(socket))
  }

  /** `users.map(u => u.id === id ? f(u) : u)`. */
  function MapId(users: seq<User>, id: UserId, f: User -> User): (r: seq<User>)
    ensures |r| == |users|
    ensures forall i :: 0 <= i < |r| && users[i].id != id ==> r[i] == users[i]
  {
    if users == [] then []
    else [if users[0].id == id then f(users[0]) else users[0]] + MapId(users[1..], id, f)
  }

  /** The map keeps the length and rewrites exactly the records carrying `id`. */
  lemma {:induction false} MapIdAt(users: seq<User>, id: UserId, f: User -> User, k: nat)
    requires k < |users|
    ensures |MapId(users, id, f)| == |users|
    ensures MapId(users, id, f)[k] == if users[k].id == id then f(users[k]) else users[k]
  {
    if k > 0 {
      MapIdAt(users[1..], id, f, k - 1);
    } else if |users| > 1 {
      MapIdAt(users[1..], id, f, 0);
    }
  }

  /**
   * With unique ids, mapping by id changes only the one record that `find`
   * locates, and changes nothing when there is none.
   */
  lemma MapIdUpdate(users: seq<User>, id: UserId, f: User -> User)
    requires UniqueIds(users)
    ensures FindById(users, id).None? ==> MapId(users, id, f) == users
    ensures FindById(users, id).Some? ==>
              var k := FindById(users, id).value;
              MapId(users, id, f) == users[k := f(users[k])]
  {
    var r := MapId(users, id, f);
    if users == [] {
    } else {
      MapIdAt(users, id, f, 0);
      var expected := match FindById(users, id)
                      case None => users
                      case Some(k) => users[k := f(users[k])];
      forall j | 0 <= j < |users|
        ensures r[j] == expected[j]
      {
        MapIdAt(users, id, f, j);
      }
    }
  }

  /** With unique ids, `find` by the id of a record locates that record. */
  lemma FindOwnId(users: seq<User>, k: nat)
    requires UniqueIds(users) && k < |users|
    ensures FindById(users, users[k].id) == Some(k)
  {
  }

  /** `users.map(toResUser)`: what get-users answers, record by record. */
  function ClientUsers(users: seq<User>): (r: seq<ResUser>)
    ensures |r| == |users|
    ensures forall i :: 0 <= i < |r| ==>
              r[i].id == users[i].id && r[i].name == users[i].name && r[i].status == users[i].status
  {
    seq(|users|, i requires 0 <= i < |users| => ToRes(users[i]))
  }

  /** join-conversation for an id already present: back online on the new socket. */
  function Rejoined(u: User, socket: SocketId, now: Timestamp): (r: User)
    ensures r.id == u.id && r.name == u.name && r.createdDate == u.createdDate
    ensures r.status == Online && r.socket == Some(socket) && r.modifiedDate == now
  {
    u.(status := Online, socket := Some(socket), modifiedDate := now)
  }

  /** join-conversation for an unknown id: a fresh online record. */
  function NewUser(id: UserId, name: string, socket: SocketId, now: Timestamp): (r: User)
    ensures r.id == id && r.name == name && r.status == Online && r.socket == Some(socket)
    ensures r.createdDate == now && r.modifiedDate == now
  {
    User(id, name, Online, Some(socket), now, now)
  }

  /** update-user: the requested name and status, taken as given. */
  function Renamed(u: User, name: string, status: string, now: Timestamp): (r: User)
    ensures r.id == u.id && r.socket == u.socket && r.createdDate == u.createdDate
    ensures r.name == name && r.status == status && r.modifiedDate == now
  {
    u.(name := name, status := status, modifiedDate := now)
  }

  /** disconnect: `reconnect`, keeping the socket. */
  function Reconnecting(u: User, now: Timestamp): (r: User)
    ensures r.id == u.id && r.name == u.name && r.socket == u.socket && r.createdDate == u.createdDate
    ensures r.status == Reconnect && r.modifiedDate == now
  {
    u.(status := Reconnect, modifiedDate := now)
  }

  /** The grace firing: `offline` with no socket. */
  function WentOffline(u: User, now: Timestamp): (r: User)
    ensures r.id == u.id && r.name == u.name && r.createdDate == u.createdDate
    ensures r.status == Offline && r.socket == None && r.modifiedDate == now
  {
    u.(status := Offline, socket := None, modifiedDate := now)
  }

  /**
   * Re-joining changes only the record of that id, keeps its name and
   * creation date, and keeps the ids unique.
   */
  lemma RejoinKeepsIdentity(users: seq<User>, id: UserId, socket: SocketId, now: Timestamp)
    requires UniqueIds(users) && FindById(users, id).Some?
    ensures var k := FindById(users, id).value;
            var r := MapId(users, id, (u: User) => Rejoined(u, socket, now));
            && |r| == |users| && UniqueIds(r)
            && r[k].id == id && r[k].name == users[k].name && r[k].createdDate == users[k].createdDate
            && r[k].status == Online && r[k].socket == Some(socket) && r[k].modifiedDate == now
            && forall j :: 0 <= j < |users| && j != k ==> r[j] == users[j]
  {
    MapIdUpdate(users, id, u => Rejoined(u, socket, now));
  }

  /** Appending a record for an id not yet present keeps the ids unique. */
  lemma AppendNewKeepsUnique(users: seq<User>, u: User)
    requires UniqueIds(users) && FindById(users, u.id).None?
    ensures UniqueIds(users + [u])
  {
  }
}
