/** The chat server's state and the operations that change it in place: the
    id counter, the client list `al`, broadcast, remove, the WHOISIN reply
    and a client's session loop. */
module Server {
  import opened JavaText
  import opened Sessions
  import opened Messages
  import opened Registry

  class ChatServer {
    /** The last id handed out (a static counter in the program, starting at 0). */
    var uniqueId: int
    /** The list of connected clients, in the order they were accepted. */
    var al: seq<Client>

    /** Ids in the list are ascending and none exceeds the last id handed out. */
    ghost predicate Valid()
      reads this
    {
      0 <= uniqueId && IdsAscending(al) && IdsWithin(al, 1, uniqueId)
    }

    constructor ()
      ensures Valid() && al == [] && uniqueId == 0
    {
      uniqueId := 0;
      al := [];
    }

    /** A connection is accepted: the new ClientThread takes the next id,
        whatever its handshake did, and is appended to the list. */
    method Accept(h: Handshake, connected: bool, reachable: bool, now: string) returns (id: int)
      requires Valid()
      modifies this
      ensures Valid()
      ensures id == old(uniqueId) + 1 && uniqueId == id
      ensures forall c :: c in old(al) ==> c.id < id
      ensures al == old(al) + [Accepted(id, h, connected, reachable, now)]
    {
      uniqueId := uniqueId + 1;
      id := uniqueId;
      al := al + [Accepted(id, h, connected, reachable, now)];
    }

    /** broadcast(message): writes "<time> <message>\n" to every client,
        visiting the list from its last entry to its first, and drops each
        client for which the write returned false. `attempted` lists the ids
        written to, in visiting order. */
    method Broadcast(time: string, message: string) returns (ghost attempted: seq<int>)
      requires Valid()
      modifies this
      ensures Valid() && uniqueId == old(uniqueId)
      ensures al == Pruned(old(al), BroadcastLine(time, message))
      ensures attempted == Reversed(Ids(old(al)))
    {
      var line := BroadcastLine(time, message);
      ghost var before := al;
      PrunedKeepsIds(before, line, 1, uniqueId);
      attempted := [];
      var i := |al|;
      while i > 0
        invariant 0 <= i <= |before| && uniqueId == old(uniqueId)
        invariant al == before[..i] + Pruned(before[i..], line)
        invariant attempted == Reversed(Ids(before[i..]))
      {
        i := i - 1;
        BroadcastStep(before, i, line, al);
        ReversedIdsStep(before, i);
        var w := WriteMsg(al[i], line);
        attempted := attempted + [al[i].id];
        if !w.ok {
          al := al[..i] + al[i + 1..];
        } else {
          al := al[i := w.client];
        }
      }
      assert before[0..] == before;
    }

    /** remove(id): deletes the first client with this id, if any. */
    method Remove(id: int)
      requires Valid()
      modifies this
      ensures Valid() && uniqueId == old(uniqueId)
      ensures al == RemoveFirst(old(al), id)
    {
      RemoveFirstDeletesFirstMatch(al, id);
      RemoveFirstLeavesNoMatch(al, id, 1, uniqueId);
      var i := 0;
      while i < |al|
        invariant 0 <= i <= |al| && al == old(al)
        invariant forall j :: 0 <= j < i ==> al[j].id != id
      {
        if al[i].id == id {
          assert FirstIndex(al, id) == i;
          al := al[..i] + al[i + 1..];
          return;
        }
        i := i + 1;
      }
    }

    /** The WHOISIN reply of client `id`: the header, then one numbered line
        per client in the list, all written to the requester. */
    method WhoIsIn(id: int, time: string)
      requires Valid()
      modifies this
      ensures Valid() && uniqueId == old(uniqueId)
      ensures al == AnswerWhoIsIn(old(al), id, time)
    {
      WhoIsInReachesOnlyRequester(al, id, time);
      var k := FirstIndex(al, id);
      assert AnswerWhoIsIn(al, id, time) == if k == |al| then al
        else al[k := WriteAll(al[k], [ListingHeader(time)] + Listing(al))];
      if k == |al| {
        // The requester was dropped by an earlier broadcast: its socket is not
        // connected, so each of its writes only closes it again.
        return;
      }
      var header := ListingHeader(time);
      var listing := Listing(al);
      var requester := al[k];
      ghost var before := al;
      var me := WriteMsg(requester, header).client;
      WriteAllListingStep(requester, header, listing, 0);
      for i := 0 to |listing|
        invariant al == before && uniqueId == old(uniqueId)
        invariant me == WriteAll(requester, [header] + listing[..i])
      {
        WriteAllListingStep(requester, header, listing, i + 1);
        me := WriteMsg(me, listing[i]).client;
      }
      assert listing[..|listing|] == listing;
      WriteAllOutcome(requester, [header] + listing);
      // Listing lines read only names and dates, which writes never change,
      // so writing into a copy and storing it back matches writing in place.
      al := al[k := me];
      SameIdsKeepIds(before, al, 1, uniqueId);
    }

    /** run(): the session loop of client `id`, named `username`, over the
        reads `events`. MESSAGE is broadcast as "<username>: <text>", WHOISIN
        is answered, LOGOUT or a failed read ends the loop, other type codes
        are ignored. Then the client is removed from the list and closed;
        `self` is its closed record, or None when it was no longer listed. */
    method Run(id: int, username: Option<string>, events: seq<Event>) returns (self: Option<Client>)
      requires Valid()
      // The name broadcast and the name listed are the same ClientThread field.
      requires FirstIndex(al, id) < |al| ==> al[FirstIndex(al, id)].username == username
      modifies this
      ensures Valid() && uniqueId == old(uniqueId)
      ensures al == Session(old(al), id, username, events)
      ensures self == ClosedSelf(Served(old(al), id, username, events), id)
    {
      var keepGoing := true;
      var n := 0;
      while keepGoing
        invariant 0 <= n <= |events|
        invariant Valid() && uniqueId == old(uniqueId)
        invariant Served(al, id, username, events[n..]) == Served(old(al), id, username, events)
        invariant !keepGoing ==> n < |events| && Ends(events[n])
        decreases |events| - n, keepGoing
      {
        if n == |events| || events[n].ReadFailed? {
          break;
        }
        var m := events[n].msg;
        var time := events[n].time;
        assert events[n..][0] == events[n] && events[n..][1..] == events[n + 1..];
        if m.kind == MESSAGE {
          ghost var _ := Broadcast(time, ChatText(username, m.text));
        } else if m.kind == LOGOUT {
          keepGoing := false;
        } else if m.kind == WHOISIN {
          WhoIsIn(id, time);
        }
        if keepGoing {
          n := n + 1;
        }
      }
      assert events[n..] == [] || Ends(events[n..][0]);
      assert al == Served(old(al), id, username, events);
      self := ClosedSelf(al, id);
      Remove(id);
    }
  }
}
