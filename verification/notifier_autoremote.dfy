/**
 * The AutoRemote notifier (notifiers/notifier_autoremote.py): the message
 * Tasker receives, the request parameters, and the success test on the reply.
 */
module NotifierAutoRemote {
  import opened Wrappers
  import opened Strings

  /** The fixed AutoRemote endpoint. */
  const Base: string := "http://autoremotejoaomgcd.appspot.com/sendmessage"
  /** What separates the event from the match text in a message. */
  const Marker: string := "=:="

  datatype AutoRemoteNotifier = AutoRemoteNotifier(key: string, prefix: string)

  /** An HTTP GET to `url` with query parameters `params`. */
  datatype Request = Request(url: string, params: map<string, string>)

  /** AutoRemote's answer: the HTTP status and the body text. */
  datatype Reply = Reply(status: int, content: string)

  /** The message as a receiving Tasker profile reads it. */
  datatype Message = Message(prefix: string, event: string, matchText: string)

  /** `__formatMessage`: `"{prefix} {event}=:={match}"`. */
  function FormatMessage(n: AutoRemoteNotifier, event: string, matchText: string): (message: string)
    ensures |message| == |n.prefix| + 1 + |event| + |Marker| + |matchText|
    ensures message[..|n.prefix|] == n.prefix && message[|n.prefix|] == ' '
    ensures message[|n.prefix| + 1..|n.prefix| + 1 + |event|] == event
    ensures message[|n.prefix| + 1 + |event|..|message| - |matchText|] == Marker
    ensures message[|message| - |matchText|..] == matchText
  {
    n.prefix + " " + event + Marker + matchText
  }

  /** `s` holds the marker at position `j`. */
  predicate MarkerAt(s: string, j: nat)
  {
    j + |Marker| <= |s| && s[j..j + |Marker|] == Marker
  }

  /** Dropping the first character moves every marker one place to the left. */
  lemma MarkerShift(s: string)
    requires s != []
    ensures forall j: nat :: 0 < j ==> (MarkerAt(s, j) <==> MarkerAt(s[1..], j - 1))
  {
    forall j: nat | 0 < j ensures MarkerAt(s, j) <==> MarkerAt(s[1..], j - 1) {
      if j + |Marker| <= |s| {
        assert s[1..][j - 1..j - 1 + |Marker|] == s[j..j + |Marker|];
      }
    }
  }

  /** Position of the first `=:=` in `s`. */
  function FindMarker(s: string): (k: Option<nat>)
    ensures k.Some? ==> MarkerAt(s, k.value)
    ensures k.Some? ==> forall j: nat :: j < k.value ==> !MarkerAt(s, j)
    ensures k.None? ==> forall j: nat :: !MarkerAt(s, j)
  {
    if |s| < |Marker| then None
    else if s[..|Marker|] == Marker then Some(0)
    else
      assert !MarkerAt(s, 0) by {
        assert s[0..|Marker|] == s[..|Marker|];
      }
      MarkerShift(s);
      match FindMarker(s[1..])
      case None => None
      case Some(j) => Some(j + 1)
  }

  /** Reading a message back: the prefix up to the first space, the event up to the first
      marker, the match text after it. */
  function ParseMessage(s: string): Option<Message>
  {
    var k := IndexOf(s, ' ');
    if k == |s| then None
    else
      var rest := s[k + 1..];
      match FindMarker(rest)
      case None => None
      case Some(j) => Some(Message(s[..k], rest[..j], rest[j + |Marker|..]))
  }

  lemma {:induction false} FindMarkerAfter(event: string, tail: string)
    requires '=' !in event
    ensures FindMarker(event + Marker + tail) == Some(|event|)
  {
    var s := event + Marker + tail;
    if event == [] {
      assert s[..|Marker|] == Marker;
    } else {
      assert s[0] != '=';
      assert s[1..] == event[1..] + Marker + tail;
      FindMarkerAfter(event[1..], tail);
    }
  }

  /** The prefix ends at the first space, so a message whose prefix has none is read from there. */
  lemma ParseAfterSpace(prefix: string, rest: string)
    requires ' ' !in prefix
    ensures ParseMessage(prefix + " " + rest) ==
      match FindMarker(rest)
      case None => None
      case Some(j) => Some(Message(prefix, rest[..j], rest[j + |Marker|..]))
  {
    var s := prefix + " " + rest;
    assert s == prefix + [' '] + rest;
    IndexOfSeparator(prefix, ' ', rest);
    assert s[..|prefix|] == prefix && s[|prefix| + 1..] == rest;
  }

  /** The receiver recovers the prefix, the event and the match text from the message, as long
      as the prefix has no space and the event no `=`. */
  lemma FormatParseRoundTrip(n: AutoRemoteNotifier, event: string, matchText: string)
    requires ' ' !in n.prefix && '=' !in event
    ensures ParseMessage(FormatMessage(n, event, matchText)) == Some(Message(n.prefix, event, matchText))
  {
    var rest := event + Marker + matchText;
    assert FormatMessage(n, event, matchText) == n.prefix + " " + rest;
    ParseAfterSpace(n.prefix, rest);
    FindMarkerAfter(event, matchText);
    assert rest[..|event|] == event && rest[|event| + |Marker|..] == matchText;
  }

  /** The query parameters of `Notify`: the key and the message, nothing else. */
  function Params(n: AutoRemoteNotifier, event: string, matchText: string): (p: map<string, string>)
    ensures p.Keys == {"key", "message"}
    ensures p["key"] == n.key && p["message"] == FormatMessage(n, event, matchText)
  {
    map["key" := n.key, "message" := FormatMessage(n, event, matchText)]
  }

  /** `__getPage`'s verdict: status 200 and a body of exactly the two characters `O`, `K`; a
      longer body, even one that starts with them, is a failure. */
  function Succeeded(reply: Reply): (ok: bool)
    ensures ok <==> reply.status == 200 && |reply.content| == 2 && reply.content[0] == 'O' && reply.content[1] == 'K'
  {
    reply.status == 200 && reply.content == "OK"
  }

  /** `Notify`: one request to the fixed endpoint; its outcome is the success test on `reply`,
      AutoRemote's answer to that request. */
  function Notify(n: AutoRemoteNotifier, event: string, matchText: string, reply: Reply): (r: (Request, bool))
    ensures r.0.url == Base
    ensures r.0.params.Keys == {"key", "message"}
    ensures r.0.params["key"] == n.key && r.0.params["message"] == FormatMessage(n, event, matchText)
    ensures r.1 <==> reply.status == 200 && reply.content == "OK"
  {
    (Request(Base, Params(n, event, matchText)), Succeeded(reply))
  }
}
