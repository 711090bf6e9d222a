/**
 * The single-team worker (service/scoresservice.py): the event it reports for
 * a match snapshot, the delay before the next poll, the dispatch to its
 * notifiers and the detect / sleep / refresh loop.
 */
module ScoresService {
  import opened Wrappers
  import opened Constants
  import opened NotifierBase
  import opened Worker

  /** What one refresh of the fixture source says about the followed team's match.
      `timeToKickOff` is in whole seconds. */
  datatype MatchSnapshot = MatchSnapshot(
    matchFound: bool,
    newMatch: bool,
    goal: bool,
    myTeamGoal: bool,
    statusChanged: bool,
    status: string,
    hasStarted: bool,
    hasFinished: bool,
    isLive: bool,
    timeToKickOff: int)

  /** Seconds before kickoff at which polling switches to the live cadence. */
  const LiveWindow: int := 300
  /** Seconds before kickoff at which a long pre-match sleep ends. */
  const WakeBeforeKickOff: int := 240

  /** `_sleep`: the delay before the next refresh. */
  function SleepDelay(m: MatchSnapshot, livetime: int, nonlivetime: int): (delay: int)
    ensures !m.matchFound ==> delay == nonlivetime
    ensures m.matchFound && !m.hasStarted ==>
      if m.timeToKickOff < LiveWindow then delay == livetime
      else delay >= LiveWindow - WakeBeforeKickOff && delay + WakeBeforeKickOff == m.timeToKickOff
    ensures m.matchFound && m.hasStarted ==>
      delay == if m.isLive && !m.hasFinished then livetime else nonlivetime
  {
    if !m.matchFound then nonlivetime
    else if !m.hasStarted then
      var kickoff := m.timeToKickOff;
      if kickoff < LiveWindow then livetime else kickoff - WakeBeforeKickOff
    else if m.hasFinished then nonlivetime
    else if m.isLive then livetime
    else nonlivetime
  }

  /** The code of a goal for this snapshot: whose goal it was. */
  function GoalCode(m: MatchSnapshot): string
  {
    if m.myTeamGoal then GoalMyTeam else GoalOpposition
  }

  /** Every code the snapshot's flags call for, highest priority first. */
  function Raised(m: MatchSnapshot): seq<string>
  {
    (if m.newMatch then [StatusMatchFound] else [])
    + (if m.goal then [GoalCode(m)] else [])
    + (if m.statusChanged then [m.status] else [])
  }

  /** `_checkStatus`: the one code sent for this snapshot, if any. */
  function StatusCode(m: MatchSnapshot): (code: Option<string>)
    ensures code.None? <==> !m.newMatch && !m.goal && !m.statusChanged
    ensures m.newMatch ==> code == Some(StatusMatchFound)
  {
    if m.newMatch then Some(StatusMatchFound)
    else if m.goal then Some(GoalCode(m))
    else if m.statusChanged then Some(m.status)
    else None
  }

  /** Simultaneous conditions are coalesced: only the highest-priority raised code is sent. */
  lemma StatusCodeIsFirstRaised(m: MatchSnapshot)
    ensures StatusCode(m) == if Raised(m) == [] then None else Some(Raised(m)[0])
  {
  }

  /** In the goal branch the code tells the two sides apart, in both directions. */
  lemma GoalCodeNamesScorer(m: MatchSnapshot)
    requires !m.newMatch && m.goal
    ensures StatusCode(m) == Some(GoalMyTeam) <==> m.myTeamGoal
    ensures StatusCode(m) == Some(GoalOpposition) <==> !m.myTeamGoal
  {
  }

  /** A status change alone forwards the match status unchanged. */
  lemma StatusChangeForwardsStatus(m: MatchSnapshot)
    requires !m.newMatch && !m.goal && m.statusChanged
    ensures StatusCode(m) == Some(m.status)
  {
  }

  /** The specification of one cycle: detect (only when a match is found), then the delay,
      both from the snapshot held before the refresh. */
  function MatchCycle(m: MatchSnapshot, notifiers: seq<Notifier>, livetime: int, nonlivetime: int): (c: Cycle<MatchSnapshot>)
    ensures !m.matchFound ==> c.sent == [] && c.delay == nonlivetime
    ensures |c.sent| == if m.matchFound && StatusCode(m).Some? then |notifiers| else 0
  {
    var sent := if m.matchFound && StatusCode(m).Some?
                then Dispatched(notifiers, StatusCode(m).value, m, None)
                else [];
    Cycle(sent, SleepDelay(m, livetime, nonlivetime))
  }

  /** A cycle sends one code at most, to every notifier, and only when a match is found; with no
      match it idles. */
  lemma MatchCycleSendsAtMostOneCode(m: MatchSnapshot, notifiers: seq<Notifier>, livetime: int, nonlivetime: int)
    ensures var c := MatchCycle(m, notifiers, livetime, nonlivetime);
      && OneCode(c.sent)
      && (!m.matchFound ==> c.sent == [] && c.delay == nonlivetime)
      && |c.sent| == if m.matchFound && StatusCode(m).Some? then |notifiers| else 0
  {
  }

  /** The long pre-match sleep ends inside the live window: if the clock advanced by exactly
      the delay and the match has still not started, the next cycle polls at the live cadence. */
  lemma WakesInsideLiveWindow(m: MatchSnapshot, next: MatchSnapshot, livetime: int, nonlivetime: int)
    requires m.matchFound && !m.hasStarted && m.timeToKickOff >= LiveWindow
    requires next.matchFound && !next.hasStarted
    requires next.timeToKickOff == m.timeToKickOff - SleepDelay(m, livetime, nonlivetime)
    ensures next.timeToKickOff == WakeBeforeKickOff
    ensures SleepDelay(next, livetime, nonlivetime) == livetime
  {
  }

  /** The worker for one team (`ScoreNotifierService`). `current` is `self.match`,
      replaced by each refresh. */
  class ScoreNotifierService {
    const team: string
    const notifiers: seq<Notifier>
    const livetime: int
    const nonlivetime: int
    var current: MatchSnapshot

    constructor (team: string, notifiers: seq<Notifier>, livetime: int, nonlivetime: int)
      ensures this.team == team && this.notifiers == notifiers
      ensures this.livetime == livetime && this.nonlivetime == nonlivetime
    {
      this.team := team;
      this.notifiers := notifiers;
      this.livetime := livetime;
      this.nonlivetime := nonlivetime;
    }

    /** `_sendUpdate`: one `Notify(code, match)` per notifier, in list order. */
    method SendUpdate(code: string) returns (calls: seq<Call<MatchSnapshot>>)
      ensures |calls| == |notifiers|
      ensures forall i :: 0 <= i < |notifiers| ==> calls[i] == Call(notifiers[i], code, current, None)
    {
      calls := [];
      for i := 0 to |notifiers|
        invariant |calls| == i
        invariant forall k :: 0 <= k < i ==> calls[k] == Call(notifiers[k], code, current, None)
      {
        calls := calls + [Call(notifiers[i], code, current, None)];
      }
    }

    /** `_checkStatus`: at most one `_sendUpdate`, with the code of the highest-priority event. */
    method CheckStatus() returns (calls: seq<Call<MatchSnapshot>>)
      ensures calls == if StatusCode(current).Some?
                       then Dispatched(notifiers, StatusCode(current).value, current, None)
                       else []
    {
      calls := [];
      if current.newMatch {
        calls := SendUpdate(StatusMatchFound);
      } else if current.goal {
        var code := if current.myTeamGoal then GoalMyTeam else GoalOpposition;
        calls := SendUpdate(code);
      } else if current.statusChanged {
        calls := SendUpdate(current.status);
      }
    }

    /** `run`, for as many cycles as there are refreshes: each cycle checks the status if a
        match is found, computes the delay, and then refreshes to the next snapshot. */
    method Run(initial: MatchSnapshot, refreshes: seq<MatchSnapshot>) returns (trace: seq<Cycle<MatchSnapshot>>)
      modifies this
      ensures |trace| == |refreshes|
      ensures forall i :: 0 <= i < |refreshes| ==>
        trace[i] == MatchCycle(([initial] + refreshes)[i], notifiers, livetime, nonlivetime)
      ensures current == ([initial] + refreshes)[|refreshes|]
    {
      current := initial;
      trace := [];
      var seen := [initial] + refreshes;
      ghost var expected := seq(|refreshes|, k requires 0 <= k < |refreshes| => MatchCycle(seen[k], notifiers, livetime, nonlivetime));
      for i := 0 to |refreshes|
        invariant trace == expected[..i]
        invariant current == seen[i]
      {
        var sent := [];
        if current.matchFound {
          sent := CheckStatus();
        }
        var delay := SleepDelay(current, livetime, nonlivetime);
        assert Cycle(sent, delay) == expected[i];
        trace := trace + [Cycle(sent, delay)];
        assert trace == expected[..i + 1];
        current := refreshes[i];
        assert current == seen[i + 1];
      }
      assert trace == expected;
    }
  }
}
