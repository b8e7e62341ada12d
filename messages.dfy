/** ChatMessage and what the client sends for the lines a user types. */
module Messages {
  import opened JavaText

  /** ChatMessage type codes. */
  const WHOISIN: int := 0
  const MESSAGE: int := 1
  const LOGOUT: int := 2

  /** A ChatMessage: an int type code and its text. */
  datatype ChatMessage = ChatMessage(kind: int, text: string)

  /** What the client does with one typed line: the message it sends, and
      whether its input loop stops afterwards. */
  datatype Reaction = Reaction(sent: ChatMessage, stop: bool)

  /** The client's classification of a typed line. */
  function Classify(line: string): (r: Reaction)
    ensures r.stop <==> EqualsIgnoreCase(line, "LOGOUT")
    ensures r.sent.kind == LOGOUT <==> r.stop
    ensures r.sent.kind == WHOISIN <==> EqualsIgnoreCase(line, "WHOISIN")
    ensures r.sent.kind == WHOISIN || r.sent.kind == MESSAGE || r.sent.kind == LOGOUT
    ensures r.sent.kind == MESSAGE ==> r.sent.text == line
    ensures r.sent.kind != MESSAGE ==> r.sent.text == ""
  {
    if EqualsIgnoreCase(line, "LOGOUT") then Reaction(ChatMessage(LOGOUT, ""), true)
    else if EqualsIgnoreCase(line, "WHOISIN") then Reaction(ChatMessage(WHOISIN, ""), false)
    else Reaction(ChatMessage(MESSAGE, line), false)
  }

  /** The messages the client sends for the lines typed, in order, up to and
      including the first logout line. */
  function Sent(lines: seq<string>): seq<ChatMessage>
  {
    if lines == [] then []
    else
      var r := Classify(lines[0]);
      [r.sent] + if r.stop then [] else Sent(lines[1..])
  }

  /** The position of the first line that is LOGOUT ignoring case, or the
      number of lines when there is none. */
  function FirstLogout(lines: seq<string>): (k: nat)
    ensures k <= |lines|
    ensures forall i :: 0 <= i < k ==> !EqualsIgnoreCase(lines[i], "LOGOUT")
    ensures k < |lines| ==> EqualsIgnoreCase(lines[k], "LOGOUT")
  {
    if lines == [] || EqualsIgnoreCase(lines[0], "LOGOUT") then 0 else 1 + FirstLogout(lines[1..])
  }

  /** The client's input loop: read a line, classify it, send the message,
      and stop after a logout line. When the lines run out before a logout,
      the loop ends without one (`loggedOut` is false). */
  method InputLoop(lines: seq<string>) returns (sent: seq<ChatMessage>, loggedOut: bool)
    ensures sent == Sent(lines)
    ensures loggedOut <==> FirstLogout(lines) < |lines|
    ensures |sent| == if loggedOut then FirstLogout(lines) + 1 else |lines|
  {
    sent := [];
    loggedOut := false;
    var n := 0;
    while n < |lines|
      invariant 0 <= n <= FirstLogout(lines)
      invariant |sent| == n
      invariant sent + Sent(lines[n..]) == Sent(lines)
    {
      var r := Classify(lines[n]);
      InputStep(lines, n, sent);
      sent := sent + [r.sent];
      if r.stop {
        loggedOut := true;
        return;
      }
      n := n + 1;
    }
  }

  /** One round of the input loop: after sending line n's message, what is
      left to send is the messages of the lines after it, or nothing after a
      logout, which is then the first logout line. */
  lemma InputStep(lines: seq<string>, n: nat, sent: seq<ChatMessage>)
    requires n < |lines| && n <= FirstLogout(lines)
    requires sent + Sent(lines[n..]) == Sent(lines)
    ensures var r := Classify(lines[n]);
      if r.stop then sent + [r.sent] == Sent(lines) && n == FirstLogout(lines)
      else sent + [r.sent] + Sent(lines[n + 1..]) == Sent(lines) && n < FirstLogout(lines)
  {
    var r := Classify(lines[n]);
    assert lines[n..][0] == lines[n] && lines[n..][1..] == lines[n + 1..];
    assert Sent(lines[n..]) == [r.sent] + if r.stop then [] else Sent(lines[n + 1..]);
  }

  /** Message i of what is sent is line i classified; only the last message
      sent can be a logout, and nothing is sent beyond the lines typed. */
  lemma {:induction false} SentFollowsLines(lines: seq<string>)
    ensures |Sent(lines)| <= |lines|
    ensures forall i :: 0 <= i < |Sent(lines)| ==> Sent(lines)[i] == Classify(lines[i]).sent
    ensures forall i :: 0 <= i < |Sent(lines)| - 1 ==> Sent(lines)[i].kind != LOGOUT
  {
    if lines != [] && !Classify(lines[0]).stop {
      SentFollowsLines(lines[1..]);
    }
  }

  /** Lines typed after a logout line are never sent. */
  lemma {:induction false} NothingSentAfterLogout(lines: seq<string>, k: nat)
    requires k < |lines| && EqualsIgnoreCase(lines[k], "LOGOUT")
    ensures Sent(lines) == Sent(lines[..k + 1])
    ensures Sent(lines)[|Sent(lines)| - 1] == ChatMessage(LOGOUT, "")
  {
    assert lines[..k + 1][0] == lines[0];
    if k > 0 && !Classify(lines[0]).stop {
      assert lines[..k + 1][1..] == lines[1..][..k];
      NothingSentAfterLogout(lines[1..], k - 1);
    }
  }
}
