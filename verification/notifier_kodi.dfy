/**
 * The message-building part of the Kodi notifier (notifiers/notifier_kodi.py):
 * the notification title table, the JSON-RPC envelope with its request-id
 * counter, and the success test on Kodi's reply.
 */
module NotifierKodi {
  import opened Wrappers
  import opened Constants
  import NotifierEmail

  const PreNewMatch: string := "New match found."
  const PreKickOff: string := "KICK-OFF!"
  const PreHalfTime: string := "HALF TIME!"
  const PreFullTime: string := "FULL TIME!"
  const PreTeamGoal: string := "GOOOOOOAAAAALLL!!!"
  const PreOppositionGoal: string := "Uh oh..."
  const PreOther: string := "Unknown status"

  /** `PREFIXES`: notification title per event code. */
  const Prefixes: map<string, string> := map[
    GoalMyTeam := PreTeamGoal,
    GoalOpposition := PreOppositionGoal,
    StatusMatchFound := PreNewMatch,
    StatusKickOff := PreKickOff,
    StatusHalfTime := PreHalfTime,
    StatusFullTime := PreFullTime]

  /** The `params` of a `GUI.ShowNotification` request. */
  datatype Notification = Notification(title: string, message: string)

  /** The JSON-RPC request body (`method` is spelled `rpcMethod` here). */
  datatype RpcRequest = RpcRequest(jsonrpc: string, id: nat, rpcMethod: string, params: Notification)

  /** The parts of a decoded JSON value the success test looks at. */
  datatype Json = JString(s: string) | JOther

  /** Kodi's answer: the HTTP status and the decoded top-level JSON object. */
  datatype Reply = Reply(status: int, body: map<string, Json>)

  /** `__formatMessage`: the title looked up in `PREFIXES`, falling back to "Unknown status",
      and the match's text as the message. */
  function FormatMessage(event: string, matchText: string): (p: Notification)
    ensures p.message == matchText
    ensures p.title == PreOther <==> !IsMatchCode(event)
    ensures IsMatchCode(event) ==> p.title == Prefixes[event]
  {
    Notification(if event in Prefixes then Prefixes[event] else PreOther, matchText)
  }

  /** Kodi titles and e-mail subject prefixes agree on every code: both notifiers announce the
      same event in the same words, and both know the same six codes. */
  lemma TitlesAgreeWithEmailPrefixes(event: string)
    ensures NotifierEmail.SubjectPrefix(event) == if event in Prefixes then Some(Prefixes[event]) else None
  {
  }

  /** `__getPage`'s verdict: status 200 and a `"result"` member equal to `"OK"`; a missing member
      reads as `False`, which is not `"OK"`. */
  function Succeeded(reply: Reply): (ok: bool)
    ensures ok <==> reply.status == 200 && "result" in reply.body && reply.body["result"].JString?
                    && reply.body["result"].s == "OK"
  {
    reply.status == 200 && (if "result" in reply.body then reply.body["result"] else JOther) == JString("OK")
  }

  /** A `KodiNotifier`; `id` is the next JSON-RPC request id. `issued` records the ids already
      used, for the specification. */
  class KodiNotifier {
    const base: string
    const username: Option<string>
    const password: Option<string>
    var id: nat
    ghost var issued: seq<nat>

    /** The ids used so far are 0, 1, 2, ... and `id` is the next one. */
    ghost predicate Valid()
      reads this
    {
      id == |issued| && forall k :: 0 <= k < |issued| ==> issued[k] == k
    }

    /** `__init__`; the port is taken as the text it is formatted to. */
    constructor (address: string, port: string, username: Option<string>, pwd: Option<string>)
      ensures Valid() && id == 0 && issued == []
      ensures base == "http://" + address + ":" + port + "/jsonrpc"
      ensures this.username == username && password == pwd
    {
      base := "http://" + address + ":" + port + "/jsonrpc";
      this.username := username;
      password := pwd;
      id := 0;
      issued := [];
    }

    /** `Notify`: builds the request with the current id, advances the id by one and reports
        whether Kodi accepted it; `reply` is Kodi's answer to that request. */
    method Notify(event: string, matchText: string, reply: Reply) returns (request: RpcRequest, ok: bool)
      requires Valid()
      modifies this
      ensures Valid()
      ensures request == RpcRequest("2.0", old(id), "GUI.ShowNotification", FormatMessage(event, matchText))
      ensures request.id !in old(issued) && issued == old(issued) + [request.id]
      ensures forall k :: 0 <= k < |old(issued)| ==> old(issued)[k] < request.id
      ensures ok == Succeeded(reply)
    {
      request := RpcRequest("2.0", id, "GUI.ShowNotification", FormatMessage(event, matchText));
      issued := issued + [id];
      id := id + 1;
      ok := Succeeded(reply);
    }
  }
}
