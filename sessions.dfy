/** One client connection as the server sees it (a ClientThread), the
    writeMsg rule, and the text lines the server writes to clients. */
module Sessions {
  import opened JavaText

  /** The server's record of one client connection. */
  datatype Client = Client(
    id: int,
    username: Option<string>,  // null when the handshake read did not yield a name
    date: Option<string>,      // connection time text plus "\n"; null when the handshake raised IOException
    connected: bool,           // Socket.isConnected(); close() does not reset it
    open: bool,                // false once close() has run on this connection
    reachable: bool,           // false when writeObject on this stream raises IOException
    outbox: seq<string>)       // the strings written to this client, oldest first

  /** How the handshake read of the user name ended. */
  datatype Handshake =
    | Named(name: string)  // a String arrived
    | StreamFailed         // IOException: the constructor returns before setting the date
    | UnknownClass         // ClassNotFoundException: no name, the date is still set

  /** The record a new ClientThread starts with, given its id, how its
      handshake ended, the state of its socket and the current date text. */
  function Accepted(id: int, h: Handshake, connected: bool, reachable: bool, now: string): Client
  {
    Client(id,
           if h.Named? then Some(h.name) else None,
           if h.StreamFailed? then None else Some(now + "\n"),
           connected, true, reachable, [])
  }

  /** close(): releases the streams and the socket. */
  function Close(c: Client): (r: Client)
    ensures !r.open
    ensures r.(open := c.open) == c
  {
    c.(open := false)
  }

  /** Closing an already closed connection changes nothing. */
  lemma CloseIdempotent(c: Client)
    ensures Close(Close(c)) == Close(c)
  {
  }

  /** Whether a write to this client reaches its outbox. */
  predicate Delivers(c: Client)
  {
    c.connected && c.open && c.reachable
  }

  /** The result of writeMsg: the client afterwards, and the boolean it returns. */
  datatype Write = Write(client: Client, ok: bool)

  /** writeMsg(msg): an unconnected socket is closed and reported as false;
      otherwise the string is written, and a write that raises IOException
      is only logged, so the call still reports true. */
  function WriteMsg(c: Client, msg: string): (w: Write)
    ensures w.ok <==> c.connected
    ensures !w.ok ==> !w.client.open
    ensures w.ok ==> w.client.open == c.open
    ensures w.client.outbox == c.outbox + (if Delivers(c) then [msg] else [])
    ensures w.client == c.(open := w.client.open, outbox := w.client.outbox)
  {
    if !c.connected then Write(Close(c), false)
    else if c.open && c.reachable then Write(c.(outbox := c.outbox + [msg]), true)
    else Write(c, true)
  }

  /** A write that raises IOException leaves the client connected in the
      eyes of the caller, and the client misses the string. */
  lemma FailedWriteStillTrue(c: Client, msg: string)
    requires c.connected && c.open && !c.reachable
    ensures WriteMsg(c, msg) == Write(c, true)
  {
  }

  /** writeMsg called once per string, results ignored. */
  function WriteAll(c: Client, msgs: seq<string>): Client
    decreases |msgs|
  {
    if msgs == [] then c else WriteMsg(WriteAll(c, msgs[..|msgs| - 1]), msgs[|msgs| - 1]).client
  }

  /** Writing several strings delivers all of them in order, or none; only
      the open flag and the outbox change, and the connection ends up closed
      exactly when it was not connected and something was written. */
  lemma {:induction false} WriteAllOutcome(c: Client, msgs: seq<string>)
    ensures WriteAll(c, msgs).outbox == c.outbox + (if Delivers(c) then msgs else [])
    ensures WriteAll(c, msgs).open == (c.open && (c.connected || msgs == []))
    ensures WriteAll(c, msgs) == c.(open := WriteAll(c, msgs).open, outbox := WriteAll(c, msgs).outbox)
  {
    if msgs != [] {
      var front := msgs[..|msgs| - 1];
      WriteAllOutcome(c, front);
      assert front + [msgs[|msgs| - 1]] == msgs;
      if front != [] && !c.connected {
        assert !Delivers(WriteAll(c, front));
      }
    }
  }

  /** Writing a header and the first i+1 listing lines is writing the header
      and the first i lines, then line i. */
  lemma WriteAllListingStep(c: Client, header: string, lines: seq<string>, i: nat)
    requires i <= |lines|
    ensures i == 0 ==> WriteAll(c, [header] + lines[..i]) == WriteMsg(c, header).client
    ensures i > 0 ==>
      WriteAll(c, [header] + lines[..i]) == WriteMsg(WriteAll(c, [header] + lines[..i - 1]), lines[i - 1]).client
  {
    var done := [header] + lines[..i];
    if i == 0 {
      assert done == [header] && done[..0] == [];
    } else {
      assert done[..|done| - 1] == [header] + lines[..i - 1];
    }
  }

  // ---------------------------------------------------------------------------
  // Lines written to clients

  /** The line broadcast delivers: the time, a space, the message and a newline. */
  function BroadcastLine(time: string, message: string): string
  {
    time + " " + message + "\n"
  }

  /** The text a chat message is broadcast as: the sender's name, ": ", the message. */
  function ChatText(username: Option<string>, text: string): string
  {
    Show(username) + ": " + text
  }

  /** The first line of the reply to WHOISIN. */
  function ListingHeader(time: string): string
  {
    "List of the users connected at " + time + "\n"
  }

  /** Line i (from 0) of the reply to WHOISIN. */
  function ListingLine(i: nat, c: Client): string
  {
    Decimal(i + 1) + ") " + Show(c.username) + " since " + Show(c.date)
  }

  /** The lines of the reply to WHOISIN after the header, one per listed client. */
  function Listing(al: seq<Client>): seq<string>
  {
    seq(|al|, i requires 0 <= i < |al| => ListingLine(i, al[i]))
  }

  /** The listing has one line per client, numbered 1 to n in list order, and
      line i names client i. */
  lemma ListingNumbered(al: seq<Client>)
    ensures |Listing(al)| == |al|
    ensures forall i :: 0 <= i < |al| ==> LeadingNumber(Listing(al)[i]) == Some(i + 1)
    ensures forall i :: 0 <= i < |al| ==>
      Listing(al)[i][|Decimal(i + 1)|..] == ") " + Show(al[i].username) + " since " + Show(al[i].date)
  {
    forall i | 0 <= i < |al|
      ensures LeadingNumber(Listing(al)[i]) == Some(i + 1)
      ensures Listing(al)[i][|Decimal(i + 1)|..] == ") " + Show(al[i].username) + " since " + Show(al[i].date)
    {
      var rest := ") " + Show(al[i].username) + " since " + Show(al[i].date);
      assert Listing(al)[i] == Decimal(i + 1) + rest;
      LeadingNumberOfDecimal(i + 1, rest);
    }
  }
}
