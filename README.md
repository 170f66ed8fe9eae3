# The Lounge chat room, modelled in Dafny

This project models the real-time chat room `theLoungeRouter` of
`src/routers/the-lounge.ts` and the response envelope of `src/utils/response.ts`.

The room is one mutable object (`TheLounge.Room`) holding the two variables the
router's handlers share:

- `users`: the user records (`id`, `name`, `status`, `socket`, `createdDate`, `modifiedDate`);
- `messages`: the append-only log of `Chat` and `Info{join|leave}` entries.

Each socket event becomes one method of the room:

- `verify-token`: renews a token that verifies, else mints a new identity (`Identity.VerifyToken`; it touches no room state).
- `join-conversation`: re-attaches an existing record or creates one with a join info.
- `get-users`, `get-messages`: read-only.
- `send-message`: appends a chat.
- `update-user`: rewrites name and status.
- `disconnect`: marks the record `reconnect` and sets a 5000 ms grace timer.
- The timer firing (`FireGrace`): turns a still-`reconnect` record `offline`, appends a leave info, notifies a filtered set of sockets, and empties the room when no socket is left.

Every method returns the list of events the handler emits, in emit order. Two exceptions are listed under "## Left out". In both, the source throws and sends nothing, where the model answers.
An event is `(recipient, event name, envelope)`. The recipient is the whole room, the room except the sender, or one socket.

The per-record updates (`users.map`, `find`, `some`, `filter`) are pure functions in `Presence` and `MessageLog`.
The grace firing's notification loop is the method `Broadcast.Notify`.
The `"status|subStatus|message"` validation-error format is `ErrorFormat`.
That module covers `split('|')`, JavaScript's `parseInt`, and the two ways the handlers read the pieces.

External collaborators are parameters:

- JWT verification is an oracle `verify: Token -> Option<UserId>`; signing is an oracle `sign: UserId -> Token`.
- nanoid ids, generated names and `DateTime.utc()` are supplied values; time is a `nat` of milliseconds.
- joi validation is an input: each handler receives `SchemaError(message)` or `Validated(request)`. joi's non-empty-string rule is the subset type `NonEmptyString`.
- The number of live sockets in the namespace is an argument of `FireGrace`.
- `setTimeout` is an explicit later call of `FireGrace` with the timer's user id.

In a few places the code does not do what its own types, names and comments suggest. There the model follows the code:

- The `?? '400'` default of the status is dead code, because `split` always yields a first piece. A validation message without digits in its first piece gives status NaN, not 400. The sub-status and text defaults (999, 'payload is invalid.') do apply.
- update-user stores whatever non-empty status string the request carries. The request type `ReqUpdateUser` (src/routers/the-lounge.ts:120-128) declares `status: 'online' or 'away'`, but nothing at run time enforces that.
- The grace notification filter compares against the record's `modifiedDate` as it is when the timer fires. It is not a value captured at disconnect. The two differ when the user re-joined and disconnected again before the first timer fired.
- A record keeps its socket while `reconnect`, and update-user can give any status to a record that has a socket. So "socket present iff online/away" is not an invariant of the code.
- The room is emptied on every grace firing that finds zero live sockets, whether or not the transition happened.

## Model

| member | source | states |
|---|---|---|
| `Envelopes.Failed` | src/utils/response.ts:25-39 | a failure envelope has `success == false` and carries status, subStatus and message unchanged |
| `Envelopes.Success` | src/utils/response.ts:41-50 | a success envelope has `success == true` and carries the given data |
| `LoungeTypes.SuccessEmpty` | src/utils/response.ts:41 | `success()` with no argument carries the empty object |
| `LoungeTypes.CheckToken` | src/routers/the-lounge.ts:400-420 | a token that fails verification yields 403 / 0 / 'token is invalid.'; one that verifies yields its id |
| `ErrorFormat.Split` | src/routers/the-lounge.ts:187-191 | splitting on the pipe yields at least one piece and no piece contains the separator |
| `ErrorFormat.JoinSplit` | src/routers/the-lounge.ts:187-191 | joining the pieces with pipes restores the message |
| `ErrorFormat.SplitJoin` | src/routers/the-lounge.ts:187-191 | splitting a join of separator-free pieces restores the pieces |
| `ErrorFormat.SplitLength` | src/routers/the-lounge.ts:187-191 | the number of pieces is the number of separators plus one |
| `ErrorFormat.ParseInt` | src/routers/the-lounge.ts:187-189 | `parseInt` yields NaN unless the string contains a decimal digit |
| `ErrorFormat.ParseIntShow` | src/routers/the-lounge.ts:187-189 | `parseInt` reads back a decimal numeral, also when a non-digit such as the pipe follows it |
| `ErrorFormat.ParseError` | src/routers/the-lounge.ts:187-198 | the defaulting reading of a validation message; its text never contains a separator |
| `ErrorFormat.ParseErrorFormat` | src/routers/the-lounge.ts:187-198 | a message of status, sub-status and text joined by pipes becomes `{status: S, subStatus: SS, message: M}` |
| `ErrorFormat.ParseErrorUnformatted` | src/routers/the-lounge.ts:187-191 | a message without a separator gets sub-status 999 and 'payload is invalid.', and status NaN when it has no digit |
| `ErrorFormat.ParseErrorStrict` | src/routers/the-lounge.ts:660-664 | the non-null-asserting reading gives a triple exactly when there are three or more pieces, and its text then has no separator; `StrictAgreesWithLenient` ties it to the defaulting reading |
| `ErrorFormat.StrictAgreesWithLenient` | src/routers/the-lounge.ts:660-664 | the non-null-asserting reading succeeds exactly when the message has two or more separators, and then agrees with the defaulting one |
| `ErrorFormat.UnknownKeyThrows` | src/routers/the-lounge.ts:660-664 | for joi's unknown-key message the non-null-asserting reading throws, while the defaulting one answers NaN / 999 / 'payload is invalid.' |
| `Presence.FindById` | src/routers/the-lounge.ts:292 | the index found is the first record with that id; none is found exactly when no record has it |
| `Presence.FindBySocket` | src/routers/the-lounge.ts:876 | the index found is the first record holding that socket; none is found exactly when no record holds it |
| `Presence.MapIdAt` | src/routers/the-lounge.ts:294-324 | mapping by id keeps the length and rewrites exactly the records with that id |
| `Presence.MapIdUpdate` | src/routers/the-lounge.ts:813-845 | with unique ids, mapping by id changes only the record `find` locates, and nothing when there is none |
| `Presence.FindOwnId` | src/routers/the-lounge.ts:876-882 | with unique ids, looking up a record's own id finds that record |
| `Presence.MapId` | src/routers/the-lounge.ts:294-324 | `users.map` by id keeps the length and leaves every record with another id as it was; `MapIdAt` and `MapIdUpdate` give the rewritten ones |
| `Presence.Rejoined` | src/routers/the-lounge.ts:298-304 | the re-joined record keeps id, name and creation date and is online on the new socket with the new `modifiedDate` |
| `Presence.NewUser` | src/routers/the-lounge.ts:336-344 | a new record is online on the socket, with the given id and name and both dates equal to now |
| `Presence.Renamed` | src/routers/the-lounge.ts:817-823 | the updated record keeps id, socket and creation date and takes the requested name and status and the new `modifiedDate` |
| `Presence.Reconnecting` | src/routers/the-lounge.ts:884-889 | the disconnected record keeps id, name, socket and creation date and turns `reconnect` with the new `modifiedDate` |
| `Presence.WentOffline` | src/routers/the-lounge.ts:917-923 | the expired record keeps id, name and creation date and turns `offline` with no socket and the new `modifiedDate` |
| `Presence.RejoinKeepsIdentity` | src/routers/the-lounge.ts:294-324 | re-joining sets online, the new socket and `modifiedDate`, keeps name and creation date, leaves other records alone and keeps ids unique |
| `Presence.AppendNewKeepsUnique` | src/routers/the-lounge.ts:336-373 | appending a record for an absent id keeps ids unique |
| `Presence.ClientUsers` | src/routers/the-lounge.ts:467-477 | get-users lists every record's id, name and status, in room order |
| `MessageLog.Since` | src/routers/the-lounge.ts:587 | the filter yields at most the log's messages, each stamped at or after the bound; `SinceMember` and `SinceAppend` pin down which ones and in what order |
| `MessageLog.SinceMember` | src/routers/the-lounge.ts:587 | a message is in the filtered log exactly when it is in the log and stamped at or after the creation date |
| `MessageLog.SinceAppend` | src/routers/the-lounge.ts:587 | the filter keeps log order: filtering a concatenation concatenates the filtered parts |
| `MessageLog.SinceSingle` | src/routers/the-lounge.ts:587 | a single message survives the filter exactly when it is late enough |
| `MessageLog.SinceEarlier` | src/routers/the-lounge.ts:587 | a log stamped entirely before the creation date filters to nothing |
| `MessageLog.Visible` | src/routers/the-lounge.ts:557-587 | get-messages for an id with no record is empty |
| `MessageLog.VisibleMember` | src/routers/the-lounge.ts:557-587 | a known user sees exactly the log messages stamped at or after its creation date |
| `MessageLog.VisibleAfterAppend` | src/routers/the-lounge.ts:702-706 | an appended message joins the end of exactly those views whose creation date it does not precede |
| `MessageLog.NewUserSeesOwnJoin` | src/routers/the-lounge.ts:336-379 | a newly created user, with only earlier messages in the log, sees its own join info and nothing else |
| `Identity.VerifyToken` | src/routers/the-lounge.ts:167-242 | one answer to the asking socket: a schema failure, or once the schema passes always a success carrying the token signed for the issued id |
| `Identity.IssuedId` | src/routers/the-lounge.ts:211-232 | the id of the answered token is the presented token's verified id, or the fresh nanoid when there is no token or it does not verify |
| `Identity.ReissuedTokenKeepsId` | src/routers/the-lounge.ts:211-232 | when signed tokens verify to their id, the answer verifies to the presented id if that verified, else to the fresh id |
| `Broadcast.NotifiedOfLeave` | src/routers/the-lounge.ts:956 | an offline record, one without a socket, or one created at or after the leaver's `modifiedDate` is never notified |
| `Broadcast.LeaveRecipients` | src/routers/the-lounge.ts:954-956 | the notified sockets are at most one per record and none is empty; `LeaveRecipientsMember` says exactly which |
| `Broadcast.Notify` | src/routers/the-lounge.ts:954-971 | the loop emits the updated user and the leave info to each filtered socket of the list, in list order |
| `Broadcast.LeaveRecipientsMember` | src/routers/the-lounge.ts:956 | a socket is notified exactly when a record that is not offline, holds it, and was created before the leaver's `modifiedDate` exists |
| `Broadcast.LeaveNoticesAt` | src/routers/the-lounge.ts:958-970 | each recipient gets two events, the update-user one and then the update-info one |
| `Broadcast.LeaverNotifiedOfOwnLeave` | src/routers/the-lounge.ts:884-956 | the disconnecting user keeps its socket, so it passes the filter itself when it was created before its last modification |
| `TheLounge.Room.constructor` | src/routers/the-lounge.ts:159-161 | the room starts with no users and no messages |
| `TheLounge.Room.JoinConversation` | src/routers/the-lounge.ts:244-421 | errors leave the room unchanged; a known id changes only its record and is broadcast to the others; an unknown id appends exactly one online user and one join info |
| `TheLounge.Room.GetUsers` | src/routers/the-lounge.ts:423-509 | answers the client view of every user, or the schema or token failure |
| `TheLounge.Room.GetMessages` | src/routers/the-lounge.ts:511-619 | answers the verified user's view of the log, or the schema or token failure |
| `TheLounge.Room.SendMessage` | src/routers/the-lounge.ts:621-746 | appends exactly one chat from the token's id with the request text, broadcasts it to the others, echoes the temporary id; errors change nothing |
| `TheLounge.Room.UpdateUser` | src/routers/the-lounge.ts:748-870 | only the verified id's record gets the new name, status and date, emitted to the whole room with no direct success; an unknown id changes and emits nothing |
| `TheLounge.Room.Disconnect` | src/routers/the-lounge.ts:872-910 | the record holding the socket turns `reconnect` with its socket kept and is broadcast, and a 5000 ms timer for its id is set; with none, nothing happens |
| `TheLounge.Room.FireGrace` | src/routers/the-lounge.ts:911-986 | only a still-`reconnect` record turns offline without socket, with exactly one leave info and notices to the filtered old list; zero live sockets empties the room |
| `LoungeScenarios.ReconnectWithinGrace` | src/routers/the-lounge.ts:911-978 | a re-join before the timer fires leaves the user online with its name and creation date, and the firing does nothing |
| `LoungeScenarios.LastLeaveResetsRoom` | src/routers/the-lounge.ts:980-984 | when the last socket is gone the firing empties the room, and a newcomer's history is only its own join info |

## Left out

- JWT signing and verification: the oracles `sign` and `verify`. Token expiry and the secret are not modelled. A `sign` that depends on the issue time is one oracle per call.
- nanoid, the colour-animal name generator and `DateTime.utc()`: supplied as arguments. ISO-8601 formatting and luxon parsing are replaced by `nat` milliseconds.
- TheLounge.Room.JoinConversation: the three `DateTime.utc()` calls of a new join (created, modified, info timestamp) share one `now`. The source reads the clock three times.
- TheLounge.Room.FireGrace: the 5000 ms delay is recorded in the returned `GraceTimer`, but the firing's `now` is not required to be 5000 ms after disconnect. There is no clock model. The offline record's `modifiedDate` and the leave info's `timestamp` share one `now`. The source reads the clock twice (src/routers/the-lounge.ts:922 and :937).
- joi schema validation: a library. The handlers receive joi's outcome, the error message or the validated request.
- TheLounge.Room.SendMessage: for a validation message with fewer than two separators, such as joi's `"extra" is not allowed` for an unknown key, the model answers a failure with sub-status 999 and 'payload is invalid.'. The source throws a TypeError at src/routers/the-lounge.ts:664 and sends nothing. The model follows the corrected reading of the first finding below.
- TheLounge.Room.UpdateUser: for the same messages the model answers the same failure. The source throws at src/routers/the-lounge.ts:791 and sends nothing. The model follows the corrected reading of the second finding below.
- A request sent with no payload (`emit('get-users')` with no argument): joi accepts `undefined` for an optional object schema. join-conversation, get-users, get-messages, send-message and update-user then throw on `undefined.token`, and throw again in their catch, so they send nothing. `Validation` has no case for a missing payload, so this path is not modelled. verify-token does answer here, with a fresh token; that is its `Validated(None)` case.
- socket.io delivery, the `socket.join(room)` membership and the namespace's live socket count: emits are returned values and the count is an argument. What a recipient actually receives is not modelled.
- Concurrency: the handlers run one at a time, as on Node's event loop. The timer is an explicit later call.
- Logging (`info`, `error`) and the AES encryption of logged payloads: side effects with no effect on the room.
- The contact form (src/routers/main.ts, src/utils/mailjet.ts), configuration, TLS loading and server start-up are not part of this model.
- ErrorFormat.ParseInt: values are unbounded integers. The double rounding of numerals beyond 2^53 and the sign of `-0` are not modelled. Neither is the `null` that JSON serialisation makes of NaN.
- The client copies of messages that get-messages builds (the `if (chatMsg.message)` split) are the stored messages themselves. The room invariant `ChatsNonEmpty` guarantees that every chat has truthy text, so the split never mistakes a chat for an info.

## Findings

| source | as written | input that shows it | evidently intended | confidence | as-written member | corrected member |
|---|---|---|---|---|---|---|
| src/routers/the-lounge.ts:660-664 | send-message reads the validation message with a non-null assertion on the third pipe-separated piece, which throws a TypeError when the message has fewer than two separators, so no response is sent | a send-message request with an unknown key `extra`, for which joi reports `"extra" is not allowed` | answer with a failure, falling back to sub-status 999 and 'payload is invalid.' as the token-only handlers do | medium, not executed | `ErrorFormat.UnknownKeyThrows` | `ErrorFormat.ParseError` |
| src/routers/the-lounge.ts:787-791 | update-user reads the validation message the same way and throws on the same kind of message | an update-user request with an unknown key `extra` | the same fallback | medium, not executed | `ErrorFormat.UnknownKeyThrows` | `ErrorFormat.ParseError` |

The as-written reading is `ErrorFormat.ParseErrorStrict`. `ErrorFormat.StrictAgreesWithLenient` proves that it throws exactly on messages with fewer than two separators, and that it otherwise agrees with the defaulting reading `ErrorFormat.ParseError`. The room's `SendMessage` and `UpdateUser` use the defaulting reading.
