# ChatMessenger: the server's client list, in Dafny

ChatMessenger is a small Java chat program: one process runs as a server and
the others as clients. The server keeps a list `al` of connected clients
(one `ClientThread` each). It gives each new connection the next id from a
counter and relays each chat message to every client on the list. It drops
from the list every client whose socket reports it is not connected. It
answers a `WHOISIN` request with a numbered list of the connected users. When
a session ends, it removes that session from the list. The client side turns
each typed line into a `ChatMessage`.

This project models that bookkeeping and proves what it does to the list, to
each client's output and to the ids. The sockets are left out.

- `java_text.dfy` (module `JavaText`) covers the Java text behaviour the
  program relies on. A `null` String prints as `"null"` when concatenated.
  `Integer.toString` renders the listing numbers. `equalsIgnoreCase` is
  modelled over ASCII.
- `messages.dfy` (module `Messages`) holds the `ChatMessage` type codes
  (`WHOISIN = 0`, `MESSAGE = 1`, `LOGOUT = 2`). It also holds the client's
  classification of a typed line and the client's input loop.
- `sessions.dfy` (module `Sessions`) describes one client as the server sees
  it, as a record: id, user name, connection date, and the socket's
  `isConnected()` state. It also records whether `close()` has run, whether
  writes to the stream succeed, and the strings written so far (the outbox).
  This module also holds the `writeMsg` rule, `close()` and the text of the
  lines the server writes.
- `registry.dfy` (module `Registry`) gives the effect of `broadcast`,
  `remove`, `WHOISIN` and a whole session loop as functions on the list,
  with the lemmas about them.
- `server.dfy` (module `Server`) holds the class `ChatServer`. Its fields
  `uniqueId` and `al` are updated in place, by methods that loop the way the
  Java code does. Each method is proved equal to the matching function in
  `Registry`. Its invariant `Valid()` says that ids on the list strictly
  increase and never exceed the last id handed out.

Modelling choices:
- A socket is modelled as three booleans. `connected` is what
  `Socket.isConnected()` returns, and `close()` never resets it (Java
  behaves the same way). `open` becomes false once `close()` has run.
  `reachable` is false when `writeObject` on the stream raises
  `IOException`.
- A write is an append to the client's outbox.
- Clock readings are opaque strings, supplied by the caller. `broadcast` and
  `WHOISIN` get theirs with each message handled. A new connection gets its
  date text (`new Date().toString()`) when it is accepted.
- A session's own `ClientThread` is found on the list by its id. Ids on the
  list are unique by the class invariant. A session that a broadcast has
  dropped has a socket that is not connected. Every later write by that
  session only closes it again, so dropping its record loses nothing
  observable.
- Where the program's documented intent and its code differ, the model
  follows the code:
  - A write that raises `IOException` still returns `true`, so `broadcast`
    does not drop that client (`Registry.FailedWriteNotPruned`).
  - A connection whose handshake read fails still takes an id and is still
    added to the list. Its name is `null`, and so is its date when the read
    raised `IOException`.
  - The WHOISIN listing includes the requester itself.

## Model

| member | source | states |
|---|---|---|
| `JavaText.Decimal` | ChatMessenger.java:384 | the listing number `(i+1)` is rendered as decimal digits, at least one, with no leading zero unless it is 0 |
| `JavaText.DecimalRoundTrip` | ChatMessenger.java:384 | reading the rendered number back as a decimal numeral gives the number again |
| `JavaText.LeadingNumberOfDecimal` | ChatMessenger.java:384 | a line that starts with a rendered number followed by a non-digit (here `") "`) is read back as starting with that number |
| `JavaText.EqualsIgnoreCaseAt` | ChatMessenger.java:262-267 | `equalsIgnoreCase` (ASCII) holds exactly when the lengths agree and every position agrees up to letter case |
| `JavaText.EqualsIgnoreCaseIffUpperEqual` | ChatMessenger.java:262-267 | `equalsIgnoreCase` holds exactly when the upper-cased strings are equal |
| `Messages.Classify` | ChatMessenger.java:262-273 | a line equal to LOGOUT ignoring case gives `ChatMessage(LOGOUT, "")` and stops the loop, and only such a line stops it. A line equal to WHOISIN ignoring case (and only such a line) gives `ChatMessage(WHOISIN, "")`. Every other line is sent unchanged as `ChatMessage(MESSAGE, line)`. No other type code is produced |
| `Messages.FirstLogout` | ChatMessenger.java:257-265 | the index of the first typed line that is LOGOUT ignoring case; no earlier line is one |
| `Messages.InputLoop` | ChatMessenger.java:257-274 | the loop sends `Sent(lines)`. It ends by logging out exactly when some typed line is LOGOUT ignoring case, and then it has sent one message per line up to and including the first such line; otherwise it has sent one per line |
| `Messages.SentFollowsLines` | ChatMessenger.java:257-274 | message i sent is line i classified; no message except the last is a LOGOUT; never more messages than lines |
| `Messages.NothingSentAfterLogout` | ChatMessenger.java:262-265 | lines typed after a LOGOUT line are never sent, and the last message sent is `ChatMessage(LOGOUT, "")` |
| `Sessions.Close` | ChatMessenger.java:394-407 | after `close()` the connection is closed and nothing else about the client changed |
| `Sessions.CloseIdempotent` | ChatMessenger.java:394-407 | closing an already closed connection changes nothing |
| `Sessions.WriteMsg` | ChatMessenger.java:410-423 | `writeMsg` returns false exactly when the socket is not connected; it then closes the client and writes nothing. Otherwise it returns true and leaves `open` as it was. The string reaches the outbox exactly when the socket is connected, the stream open and the write succeeds. Nothing but `open` and the outbox changes |
| `Sessions.FailedWriteStillTrue` | ChatMessenger.java:415-422 | a write that raises `IOException` returns true and leaves the client unchanged: the string is lost and the error is not reported |
| `Sessions.WriteAllOutcome` | ChatMessenger.java:381-385 | with whether writes succeed fixed for the client (see "## Left out"), a series of `writeMsg` calls delivers every string, in order, or none of them. Only `open` and the outbox change, and the client ends closed exactly when its socket was not connected and something was written |
| `Sessions.ListingNumbered` | ChatMessenger.java:382-385 | the WHOISIN listing has exactly one line per listed client. Line i is read back as starting with the number i+1, followed by `") <username> since <date>"` of client i |
| `Registry.PrunedIsConnectedWritten` | ChatMessenger.java:185-191 | after `broadcast`, the list is exactly its connected clients in their old order, each after one `writeMsg` of the line |
| `Registry.ConnectedMembers` | ChatMessenger.java:185-191 | a client is among the kept ones exactly when it was listed and its socket reports connected |
| `Registry.ConnectedInOrder` | ChatMessenger.java:185-191 | the kept clients are a subsequence of the old list: survivors keep their relative order |
| `Registry.BroadcastStep` | ChatMessenger.java:185-191 | one round of the backward loop: handling entry i, by keeping or removing it, after entries i+1.. were handled gives the list with entries i.. handled. Removing at i never moves an entry not yet visited |
| `Registry.PrunedKeepsIds` | ChatMessenger.java:185-191 | `broadcast` keeps ids strictly ascending and within their bounds |
| `Registry.PrunedExactly` | ChatMessenger.java:185-191 | with unique ids, client i is still listed after `broadcast` exactly when its socket reports connected. If it is, its outbox gained the line exactly when its write could be delivered |
| `Registry.FailedWriteNotPruned` | ChatMessenger.java:187-190 | a connected client whose write raises `IOException` stays listed and unchanged: it missed the line but was not dropped |
| `Registry.FirstIndex` | ChatMessenger.java:196-198 | the index of the first client with the id, or the list length when there is none; no earlier client has the id |
| `Registry.RemoveFirstDeletesFirstMatch` | ChatMessenger.java:195-203 | `remove(id)` deletes the first client with that id and nothing else, keeping the order of the rest. Without such a client the list is unchanged |
| `Registry.RemoveFirstLeavesNoMatch` | ChatMessenger.java:195-203 | with ascending ids, no client with the id is left after `remove(id)`, and ids stay ascending and within their bounds |
| `Registry.RemoveFirstMembers` | ChatMessenger.java:195-203 | with ascending ids, `remove(id)` keeps exactly the clients with another id, as a subsequence of the old list |
| `Registry.WhoIsInReachesOnlyRequester` | ChatMessenger.java:380-385 | a WHOISIN request changes only the requester's record, and all ids stay as they were. If the requester's writes get through, its outbox gains the header followed by exactly the listing of all `al.size()` clients |
| `Registry.DispatchKeepsIds` | ChatMessenger.java:372-387 | handling any message keeps ids strictly ascending and within their bounds |
| `Registry.ServedKeepsIds` | ChatMessenger.java:358-388 | the whole read loop keeps ids strictly ascending and within their bounds |
| `Registry.SessionLeavesNoEntry` | ChatMessenger.java:355-391 | however a session ends (LOGOUT, failed read, end of stream), afterwards no client with its id is listed, and ids stay ascending |
| `Registry.NothingHandledAfterEnd` | ChatMessenger.java:358-379 | nothing after the first LOGOUT or failed read is handled: the loop's result depends only on the reads up to that point |
| `Registry.LogoutLeavesOthersAlone` | ChatMessenger.java:376-391 | a LOGOUT as the session's next message removes its entry. Every other client stays listed, unchanged and in the same order |
| `Registry.TypedLineReachesEveryone` | ChatMessenger.java:370-375 | a typed line that is neither LOGOUT nor WHOISIN ignoring case, sent by user u, reaches every listed client whose writes get through as `"<time> <u>: <line>\n"`. A client whose socket is not connected is no longer listed |
| `Server.ChatServer.constructor` | ChatMessenger.java:31-46 | a new server has an empty list, and the id counter is at 0, the value the static `uniqueId` starts with when the class is loaded |
| `Server.ChatServer.Accept` | ChatMessenger.java:337-353 | a new connection takes id `uniqueId + 1`, which is larger than every listed id, and the counter moves to it. The client is appended to the list whatever its handshake did, with a `null` name when no name arrived and a `null` date when the read raised `IOException` |
| `Server.ChatServer.Broadcast` | ChatMessenger.java:181-192 | the backward loop leaves the list equal to `Pruned(old list, time + " " + message + "\n")`. It tries one write per client, visiting ids from the last entry to the first, and keeps the class invariant |
| `Server.ChatServer.Remove` | ChatMessenger.java:195-203 | the forward loop leaves the list equal to `RemoveFirst(old list, id)` and keeps the class invariant |
| `Server.ChatServer.WhoIsIn` | ChatMessenger.java:380-385 | the reply loop leaves the list equal to `AnswerWhoIsIn(old list, id, time)`: the header, then one numbered line per listed client, written to the requester |
| `Server.ChatServer.Run` | ChatMessenger.java:355-391 | for a session whose listed record carries the same user name it broadcasts under (one `ClientThread` field), the session loop leaves the list equal to `Session(old list, id, username, events)`. A MESSAGE is broadcast as `"<username>: <text>"`, a WHOISIN is answered, and a LOGOUT or failed read ends the loop. Afterwards the session is removed with `remove(id)` and its own record is returned closed |

## Left out

- Sockets, `ServerSocket.accept`, and the object streams and their
  serialisation (ChatMessenger.java:58-74, 99-129, 337-351). They are
  replaced by the `connected`, `open` and `reachable` flags, an outbox per
  client, and a sequence of reads per session.
- Threads and `synchronized`. The model is sequential: a call to `Run` handles
  one session's whole loop with no other session in between. Interleavings
  are expressed by calling `Broadcast`, `WhoIsIn` and `Remove` in any order.
  The unsynchronised read of `al` during WHOISIN therefore cannot race here.
- `stop()`, the self-connect that unblocks `accept`, and the accept loop's
  `keepGoing` flag (ChatMessenger.java:62-68, 172-178). They only unblock a
  blocking call.
- The shutdown that closes every client's streams (ChatMessenger.java:76-90).
  It only closes streams and ignores the exceptions.
- `SimpleDateFormat` and `new Date()`: times and dates are opaque strings
  supplied by the caller.
- `display`, `System.out` and the client's `ListenFromServer` printing
  (ChatMessenger.java:134-142, 184, 189, 305-320).
- Command-line handling with Apache commons-cli and `Integer.parseInt` in
  `main` (ChatMessenger.java:205-302, apart from the loop at 257-274). It
  wraps a library that is not part of this model.
- The client's `start()`, `sendMessage` and `disconnect`. They are socket
  I/O: `InputLoop` returns the messages sent and whether the loop ended with
  a logout (after which `disconnect` runs).
- `InputLoop`: when the typed lines run out, `Scanner.nextLine` would throw.
  The model ends the loop without a logout instead.
- `Server.ChatServer.Accept`: `uniqueId` is a Java `int` and would wrap
  after 2^31 - 1 connections, so ids could repeat. The model counts with
  unbounded integers.
- `JavaText.EqualsIgnoreCase`: covers ASCII letters only. Java also folds
  some other characters; for example, the dotless `ı` upper-cases to `I`.
- Run-time failures that end a thread without reaching `remove(id)`:
  - a `null` input stream after a failed handshake (a NullPointerException
    in `run`);
  - a `null` or non-`ChatMessage` object read (ChatMessenger.java:360-372);
  - a non-String handshake object, whose ClassCastException ends the accept
    loop.

  The model's `Run` assumes each read yields a `ChatMessage` or fails.
- `Sessions.WriteAllOutcome`: "every string or none" holds because
  `reachable` is fixed for a client's lifetime in the model. In the program,
  each `writeObject` (ChatMessenger.java:416) can fail on its own. A peer
  that drops partway through a WHOISIN reply (381-385) then gets only a
  prefix of it. A client that drops between two broadcasts gets the
  earlier ones only. The same applies to the "exactly the listing" clause
  of `Registry.WhoIsInReachesOnlyRequester` and to lines that
  `Registry.TypedLineReachesEveryone` delivers to a client that has in fact
  gone away.
- A handshake whose `new ObjectOutputStream` fails (ChatMessenger.java:342).
  The model folds it into `StreamFailed` with working writes. In the
  program, `sOutput` stays `null`, and the catch at 347-350 still lets the
  thread be listed (70-72).
  - Every later `writeMsg` to it throws a NullPointerException at 416, which
    the `IOException` handler at 418 does not catch.
  - A `broadcast` that reaches it stops there: entries at lower indices miss
    the line. The sending session's `run` then dies before
    `remove(id); close();` (389-390), so that sender's entry also stays
    listed.
  - The model has no client state without an output stream.
- `Socket.isConnected()` is true for every socket returned by `accept()`,
  and `close()` does not clear it. So for a real client `writeMsg` never
  returns false, and the pruning in `broadcast` (ChatMessenger.java:187-188)
  never fires. Dead clients leave the list only through their own failed
  read (362-364, then 389). The model keeps `connected` as a parameter of
  `Server.ChatServer.Accept` so that the pruning branch can be stated and
  proved. `connected := false` is a state the program does not produce.
- `Server.ChatServer.constructor`: `uniqueId` is a static field shared by
  every server object in one JVM. A second server in the same process would
  continue from the first one's counter. The model assumes one server per
  process.
- `Server.ChatServer.WhoIsIn`: when the requester is no longer listed, the
  model changes nothing. In the program, each of its writes closes its own
  socket again, which no listed client can observe.
