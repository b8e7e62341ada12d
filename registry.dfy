/** What the server's operations do to its list of clients, stated as
    functions over the list, with the properties they keep. */
module Registry {
  import opened JavaText
  import opened Sessions
  import opened Messages

  // ---------------------------------------------------------------------------
  // Ids in the list

  function Ids(al: seq<Client>): seq<int>
  {
    seq(|al|, i requires 0 <= i < |al| => al[i].id)
  }

  /** Ids strictly increase along the list: each id occurs at most once, and
      later connections come later. */
  predicate IdsAscending(al: seq<Client>)
  {
    forall i, j :: 0 <= i < j < |al| ==> al[i].id < al[j].id
  }

  predicate IdsWithin(al: seq<Client>, lo: int, hi: int)
  {
    forall i :: 0 <= i < |al| ==> lo <= al[i].id <= hi
  }

  function Reversed<T>(s: seq<T>): seq<T>
  {
    if s == [] then [] else Reversed(s[1..]) + [s[0]]
  }

  /** Whether `a` is `b` with some elements left out, the rest in their order. */
  predicate SubsequenceOf<T(==)>(a: seq<T>, b: seq<T>)
    decreases |b|
  {
    a == [] || (b != [] && ((a[0] == b[0] && SubsequenceOf(a[1..], b[1..])) || SubsequenceOf(a, b[1..])))
  }

  // ---------------------------------------------------------------------------
  // broadcast

  /** The list after broadcasting `line`: every client gets writeMsg(line);
      those for which it returned false are dropped, the others stay in place. */
  function Pruned(al: seq<Client>, line: string): seq<Client>
  {
    if al == [] then []
    else
      var w := WriteMsg(al[0], line);
      (if w.ok then [w.client] else []) + Pruned(al[1..], line)
  }

  /** One step of broadcast's backward loop: with entries i+1.. handled,
      handling entry i in place gives the list with entries i.. handled. */
  lemma BroadcastStep(before: seq<Client>, i: nat, line: string, al: seq<Client>)
    requires i < |before|
    requires al == before[..i + 1] + Pruned(before[i + 1..], line)
    ensures al[i] == before[i]
    ensures var w := WriteMsg(al[i], line);
      (if w.ok then al[i := w.client] else al[..i] + al[i + 1..]) ==
        before[..i] + Pruned(before[i..], line)
  {
    var rest := Pruned(before[i + 1..], line);
    assert before[i..][0] == before[i] && before[i..][1..] == before[i + 1..];
    assert before[..i + 1] == before[..i] + [before[i]];
    assert al == before[..i] + [before[i]] + rest;
    var w := WriteMsg(before[i], line);
    if w.ok {
      assert al[i := w.client] == before[..i] + [w.client] + rest;
    } else {
      assert al[..i] + al[i + 1..] == before[..i] + rest;
    }
  }

  lemma ReversedIdsStep(al: seq<Client>, i: nat)
    requires i < |al|
    ensures Reversed(Ids(al[i..])) == Reversed(Ids(al[i + 1..])) + [al[i].id]
  {
    assert Ids(al[i..])[0] == al[i].id && Ids(al[i..])[1..] == Ids(al[i + 1..]);
  }

  /** The clients whose socket reports connected, in list order. */
  function Connected(al: seq<Client>): seq<Client>
  {
    if al == [] then [] else (if al[0].connected then [al[0]] else []) + Connected(al[1..])
  }

  /** Each client of a list after one write of `line`. */
  function WrittenTo(al: seq<Client>, line: string): seq<Client>
  {
    seq(|al|, i requires 0 <= i < |al| => WriteMsg(al[i], line).client)
  }

  /** Broadcasting keeps exactly the connected clients and writes the line
      once to each of them. */
  lemma {:induction false} PrunedIsConnectedWritten(al: seq<Client>, line: string)
    ensures Pruned(al, line) == WrittenTo(Connected(al), line)
  {
    if al != [] {
      PrunedIsConnectedWritten(al[1..], line);
    }
  }

  /** The connected clients are those of the list whose socket reports connected. */
  lemma {:induction false} ConnectedMembers(al: seq<Client>)
    ensures forall c :: c in Connected(al) <==> c in al && c.connected
  {
    if al != [] {
      ConnectedMembers(al[1..]);
      assert al == [al[0]] + al[1..];
    }
  }

  /** The connected clients keep their relative order. */
  lemma {:induction false} ConnectedInOrder(al: seq<Client>)
    ensures SubsequenceOf(Connected(al), al)
  {
    if al != [] {
      ConnectedInOrder(al[1..]);
      if al[0].connected {
        assert Connected(al) == [al[0]] + Connected(al[1..]);
        assert Connected(al)[0] == al[0] && Connected(al)[1..] == Connected(al[1..]);
      } else {
        assert Connected(al) == Connected(al[1..]);
      }
    }
  }

  lemma {:induction false} PrunedIdsWithin(al: seq<Client>, line: string, lo: int, hi: int)
    requires IdsWithin(al, lo, hi)
    ensures IdsWithin(Pruned(al, line), lo, hi)
  {
    if al != [] {
      PrunedIdsWithin(al[1..], line, lo, hi);
    }
  }

  /** Broadcasting keeps ids ascending and within their bounds. */
  lemma {:induction false} PrunedKeepsIds(al: seq<Client>, line: string, lo: int, hi: int)
    requires IdsAscending(al) && IdsWithin(al, lo, hi)
    ensures IdsAscending(Pruned(al, line)) && IdsWithin(Pruned(al, line), lo, hi)
  {
    PrunedIdsWithin(al, line, lo, hi);
    if al != [] {
      PrunedKeepsIds(al[1..], line, lo, hi);
      PrunedIdsWithin(al[1..], line, al[0].id + 1, hi);
    }
  }

  /** A client is still listed after a broadcast exactly when its socket
      reports connected, and then it has received the line if it could be
      delivered. */
  lemma PrunedExactly(al: seq<Client>, line: string, i: nat)
    requires IdsAscending(al) && i < |al|
    ensures WriteMsg(al[i], line).client in Pruned(al, line) <==> al[i].connected
    ensures al[i].connected ==>
      WriteMsg(al[i], line).client.outbox == al[i].outbox + (if Delivers(al[i]) then [line] else [])
  {
    PrunedIsConnectedWritten(al, line);
    ConnectedMembers(al);
    var w := WriteMsg(al[i], line).client;
    if w in Pruned(al, line) {
      var k :| 0 <= k < |Connected(al)| && WrittenTo(Connected(al), line)[k] == w;
      var c := Connected(al)[k];
      assert c in al && c.connected;
      var j :| 0 <= j < |al| && al[j] == c;
      assert al[j].id == w.id == al[i].id;
      assert j == i;
    }
    if al[i].connected {
      assert al[i] in Connected(al);
      var k :| 0 <= k < |Connected(al)| && Connected(al)[k] == al[i];
      assert WrittenTo(Connected(al), line)[k] == w;
    }
  }

  /** A connected client whose write raises IOException stays listed,
      unchanged: it missed the line and is not pruned. */
  lemma FailedWriteNotPruned(al: seq<Client>, line: string, i: nat)
    requires IdsAscending(al) && i < |al|
    requires al[i].connected && al[i].open && !al[i].reachable
    ensures al[i] in Pruned(al, line)
  {
    PrunedExactly(al, line, i);
  }

  // ---------------------------------------------------------------------------
  // remove(id)

  /** The position of the first client with this id, or |al| when none has it. */
  function FirstIndex(al: seq<Client>, id: int): (k: nat)
    ensures k <= |al|
    ensures forall j :: 0 <= j < k ==> al[j].id != id
    ensures k < |al| ==> al[k].id == id
  {
    if al == [] then 0 else if al[0].id == id then 0 else 1 + FirstIndex(al[1..], id)
  }

  /** The list after remove(id). */
  function RemoveFirst(al: seq<Client>, id: int): seq<Client>
  {
    if al == [] then []
    else if al[0].id == id then al[1..]
    else [al[0]] + RemoveFirst(al[1..], id)
  }

  /** remove(id) deletes the first client with that id and no other, keeping
      the order of the rest; without such a client the list is unchanged. */
  lemma {:induction false} RemoveFirstDeletesFirstMatch(al: seq<Client>, id: int)
    ensures var k := FirstIndex(al, id);
      RemoveFirst(al, id) == if k < |al| then al[..k] + al[k + 1..] else al
  {
    if al != [] && al[0].id != id {
      RemoveFirstDeletesFirstMatch(al[1..], id);
      var k := FirstIndex(al, id);
      if k < |al| {
        assert al[..k] == [al[0]] + al[1..][..k - 1];
        assert al[k + 1..] == al[1..][k..];
      }
    }
  }

  /** After remove(id) on a list with ascending ids, no client with that id
      is left, and ids stay ascending and within their bounds. */
  lemma RemoveFirstLeavesNoMatch(al: seq<Client>, id: int, lo: int, hi: int)
    requires IdsAscending(al) && IdsWithin(al, lo, hi)
    ensures forall c :: c in RemoveFirst(al, id) ==> c.id != id
    ensures IdsAscending(RemoveFirst(al, id)) && IdsWithin(RemoveFirst(al, id), lo, hi)
  {
    RemoveFirstDeletesFirstMatch(al, id);
    var k := FirstIndex(al, id);
    if k < |al| {
      DeleteKeepsIds(al, k, lo, hi);
    }
  }

  /** The list without entry k keeps ascending ids within bounds, and holds no
      other entry with entry k's id. */
  lemma DeleteKeepsIds(al: seq<Client>, k: nat, lo: int, hi: int)
    requires IdsAscending(al) && IdsWithin(al, lo, hi) && k < |al|
    ensures forall c :: c in al[..k] + al[k + 1..] ==> c.id != al[k].id
    ensures IdsAscending(al[..k] + al[k + 1..]) && IdsWithin(al[..k] + al[k + 1..], lo, hi)
  {
    DeleteAt(al, k);
  }

  /** Entry i of a list without entry k, and membership in it. */
  lemma DeleteAt<T>(s: seq<T>, k: nat)
    requires k < |s|
    ensures |s[..k] + s[k + 1..]| == |s| - 1
    ensures forall i :: 0 <= i < k ==> (s[..k] + s[k + 1..])[i] == s[i]
    ensures forall i :: k < i < |s| ==> (s[..k] + s[k + 1..])[i - 1] == s[i]
    ensures forall x :: x in s[..k] + s[k + 1..] ==> x in s
    ensures forall i :: 0 <= i < |s| && i != k ==> s[i] in s[..k] + s[k + 1..]
  {
    var r := s[..k] + s[k + 1..];
    forall i | 0 <= i < |s| && i != k
      ensures s[i] in r
    {
      if i < k {
        assert r[i] == s[i];
      } else {
        assert r[i - 1] == s[i];
      }
    }
  }

  // ---------------------------------------------------------------------------
  // WHOISIN

  /** The list after client `id` asks WHOISIN: that client is written the
      header and one line per listed client; nobody else is written to. */
  function AnswerWhoIsIn(al: seq<Client>, id: int, time: string): seq<Client>
  {
    var k := FirstIndex(al, id);
    if k == |al| then al else al[k := WriteAll(al[k], [ListingHeader(time)] + Listing(al))]
  }

  /** The WHOISIN reply goes to the requester only: it receives the header and
      the |al| listing lines (when its writes get through); every other
      client is unchanged, and so are all ids. */
  lemma WhoIsInReachesOnlyRequester(al: seq<Client>, id: int, time: string)
    ensures var r := AnswerWhoIsIn(al, id, time);
      |r| == |al| &&
      (forall i :: 0 <= i < |al| && i != FirstIndex(al, id) ==> r[i] == al[i]) &&
      (forall i :: 0 <= i < |al| ==> r[i].id == al[i].id)
    ensures var k := FirstIndex(al, id);
      k < |al| ==>
        AnswerWhoIsIn(al, id, time)[k].outbox ==
          al[k].outbox + (if Delivers(al[k]) then [ListingHeader(time)] + Listing(al) else [])
  {
    var k := FirstIndex(al, id);
    if k < |al| {
      WriteAllOutcome(al[k], [ListingHeader(time)] + Listing(al));
    }
  }

  /** Two lists with the same ids at the same places agree on the id invariants. */
  lemma SameIdsKeepIds(a: seq<Client>, b: seq<Client>, lo: int, hi: int)
    requires |a| == |b| && forall i :: 0 <= i < |a| ==> a[i].id == b[i].id
    requires IdsAscending(a) && IdsWithin(a, lo, hi)
    ensures IdsAscending(b) && IdsWithin(b, lo, hi)
  {
  }

  // ---------------------------------------------------------------------------
  // The session loop of one client

  /** One read of the session loop: a message (with the clock reading at the
      time it is handled), or a failed read. */
  datatype Event = Received(msg: ChatMessage, time: string) | ReadFailed

  /** Whether the session loop stops at this event. */
  predicate Ends(e: Event)
  {
    e.ReadFailed? || e.msg.kind == LOGOUT
  }

  /** What one message from client `id` (named `username`) does to the list. */
  function Dispatch(al: seq<Client>, id: int, username: Option<string>, m: ChatMessage, time: string): seq<Client>
  {
    if m.kind == MESSAGE then Pruned(al, BroadcastLine(time, ChatText(username, m.text)))
    else if m.kind == WHOISIN then AnswerWhoIsIn(al, id, time)
    else al
  }

  /** The list when the session loop exits: messages are handled in order
      until a LOGOUT, a failed read, or the end of the stream. */
  function Served(al: seq<Client>, id: int, username: Option<string>, events: seq<Event>): seq<Client>
    decreases |events|
  {
    if events == [] || Ends(events[0]) then al
    else Served(Dispatch(al, id, username, events[0].msg, events[0].time), id, username, events[1..])
  }

  /** The list after the whole session: the loop, then remove(id). */
  function Session(al: seq<Client>, id: int, username: Option<string>, events: seq<Event>): seq<Client>
  {
    RemoveFirst(Served(al, id, username, events), id)
  }

  /** The session's own record when it ends, closed; absent when it had
      already been dropped from the list. */
  function ClosedSelf(al: seq<Client>, id: int): Option<Client>
  {
    var k := FirstIndex(al, id);
    if k < |al| then Some(Close(al[k])) else None
  }

  lemma DispatchKeepsIds(al: seq<Client>, id: int, username: Option<string>, m: ChatMessage, time: string, lo: int, hi: int)
    requires IdsAscending(al) && IdsWithin(al, lo, hi)
    ensures IdsAscending(Dispatch(al, id, username, m, time)) && IdsWithin(Dispatch(al, id, username, m, time), lo, hi)
  {
    if m.kind == MESSAGE {
      PrunedKeepsIds(al, BroadcastLine(time, ChatText(username, m.text)), lo, hi);
    } else if m.kind == WHOISIN {
      WhoIsInReachesOnlyRequester(al, id, time);
    }
  }

  lemma {:induction false} ServedKeepsIds(al: seq<Client>, id: int, username: Option<string>, events: seq<Event>, lo: int, hi: int)
    requires IdsAscending(al) && IdsWithin(al, lo, hi)
    ensures IdsAscending(Served(al, id, username, events)) && IdsWithin(Served(al, id, username, events), lo, hi)
    decreases |events|
  {
    if events != [] && !Ends(events[0]) {
      DispatchKeepsIds(al, id, username, events[0].msg, events[0].time, lo, hi);
      ServedKeepsIds(Dispatch(al, id, username, events[0].msg, events[0].time), id, username, events[1..], lo, hi);
    }
  }

  /** However a session ends, it leaves no client with its id in the list,
      and ids stay ascending. */
  lemma SessionLeavesNoEntry(al: seq<Client>, id: int, username: Option<string>, events: seq<Event>)
    requires IdsAscending(al)
    ensures forall c :: c in Session(al, id, username, events) ==> c.id != id
    ensures IdsAscending(Session(al, id, username, events))
  {
    var lo, hi := 0, 0;
    if al != [] {
      lo, hi := al[0].id, al[|al| - 1].id;
    }
    ServedKeepsIds(al, id, username, events, lo, hi);
    RemoveFirstLeavesNoMatch(Served(al, id, username, events), id, lo, hi);
  }

  /** Nothing after the first LOGOUT or failed read is handled. */
  lemma {:induction false} NothingHandledAfterEnd(al: seq<Client>, id: int, username: Option<string>, events: seq<Event>, k: nat)
    requires k < |events| && Ends(events[k])
    ensures Served(al, id, username, events) == Served(al, id, username, events[..k + 1])
    decreases k
  {
    assert events[..k + 1][0] == events[0];
    if k > 0 && !Ends(events[0]) {
      assert events[..k + 1][1..] == events[1..][..k];
      NothingHandledAfterEnd(Dispatch(al, id, username, events[0].msg, events[0].time), id, username, events[1..], k - 1);
    }
  }

  /** A LOGOUT as the session's next message removes its entry and leaves
      every other client as it was, in the same order. */
  lemma LogoutLeavesOthersAlone(al: seq<Client>, id: int, username: Option<string>, logout: Event, rest: seq<Event>)
    requires IdsAscending(al)
    requires logout.Received? && logout.msg.kind == LOGOUT
    ensures forall c :: c in Session(al, id, username, [logout] + rest) <==> c in al && c.id != id
    ensures SubsequenceOf(Session(al, id, username, [logout] + rest), al)
  {
    assert Session(al, id, username, [logout] + rest) == RemoveFirst(al, id);
    RemoveFirstMembers(al, id);
  }

  /** With ascending ids, remove(id) keeps exactly the clients with another
      id, in their order. */
  lemma RemoveFirstMembers(al: seq<Client>, id: int)
    requires IdsAscending(al)
    ensures forall c :: c in RemoveFirst(al, id) <==> c in al && c.id != id
    ensures SubsequenceOf(RemoveFirst(al, id), al)
  {
    RemoveFirstDeletesFirstMatch(al, id);
    var k := FirstIndex(al, id);
    if k < |al| {
      DeleteKeepsIds(al, k, al[0].id, al[|al| - 1].id);
      DeleteAt(al, k);
      DeleteIsSubsequence(al, k);
    } else {
      SubsequenceOfSelf(al);
    }
  }

  lemma {:induction false} SubsequenceOfSelf<T>(s: seq<T>)
    ensures SubsequenceOf(s, s)
  {
    if s != [] {
      SubsequenceOfSelf(s[1..]);
    }
  }

  lemma {:induction false} DeleteIsSubsequence<T>(s: seq<T>, k: nat)
    requires k < |s|
    ensures SubsequenceOf(s[..k] + s[k + 1..], s)
  {
    if k == 0 {
      assert s[..0] + s[1..] == s[1..];
      SubsequenceOfSelf(s[1..]);
    } else {
      DeleteIsSubsequence(s[1..], k - 1);
      assert (s[..k] + s[k + 1..])[1..] == s[1..][..k - 1] + s[1..][k..];
    }
  }

  /** A typed line that is neither LOGOUT nor WHOISIN (ignoring case), sent by
      user `username`, reaches every listed client whose writes get through
      as "<time> <username>: <line>\n", and each client stays listed exactly
      when its socket reports connected. */
  lemma TypedLineReachesEveryone(al: seq<Client>, id: int, username: Option<string>, line: string, time: string, i: nat)
    requires IdsAscending(al) && i < |al|
    requires !EqualsIgnoreCase(line, "LOGOUT") && !EqualsIgnoreCase(line, "WHOISIN")
    ensures var after := Dispatch(al, id, username, Classify(line).sent, time);
      var delivered := al[i].(outbox := al[i].outbox + [time + " " + Show(username) + ": " + line + "\n"]);
      (Delivers(al[i]) ==> delivered in after) &&
      (!al[i].connected ==> forall c :: c in after ==> c.id != al[i].id)
  {
    var text := BroadcastLine(time, ChatText(username, line));
    assert text == time + " " + Show(username) + ": " + line + "\n";
    PrunedExactly(al, text, i);
    if !al[i].connected {
      PrunedIsConnectedWritten(al, text);
      ConnectedMembers(al);
      forall c | c in Pruned(al, text)
        ensures c.id != al[i].id
      {
        var k :| 0 <= k < |Connected(al)| && WrittenTo(Connected(al), text)[k] == c;
        var d := Connected(al)[k];
        assert d in al && d.connected;
        var j :| 0 <= j < |al| && al[j] == d;
        assert j != i;
      }
    }
  }
}
