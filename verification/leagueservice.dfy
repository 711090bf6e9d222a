/**
 * The whole-league worker (service/leagueservice.py): like the match worker,
 * but kickoff is the earliest of the league's matches, goals and status
 * changes are reported with league codes, and every `Notify` call passes the
 * service mode and yields a success flag.
 */
module LeagueService {
  import opened Wrappers
  import opened Constants
  import opened NotifierBase
  import opened Worker
  import ScoresService

  /** One match of the league, as far as scheduling is concerned. */
  datatype LeagueMatch = LeagueMatch(timeToKickOff: int)

  /** What one refresh of the fixture source says about the followed league. */
  datatype LeagueSnapshot = LeagueSnapshot(
    leagueMatches: seq<LeagueMatch>,
    newMatch: bool,
    goal: bool,
    statusChanged: bool,
    hasStarted: bool,
    hasFinished: bool,
    isLive: bool)

  /** `min(m.TimeToKickOff for m in LeagueMatches)`. */
  function MinKickOff(ms: seq<LeagueMatch>): int
    requires ms != []
  {
    EarliestFrom(ms, 1, ms[0].timeToKickOff)
  }

  /** The smaller of `acc` and the kickoffs of `ms[from..]`. */
  function EarliestFrom(ms: seq<LeagueMatch>, from: nat, acc: int): int
    requires from <= |ms|
    decreases |ms| - from
  {
    if from == |ms| then acc
    else EarliestFrom(ms, from + 1, if ms[from].timeToKickOff < acc then ms[from].timeToKickOff else acc)
  }

  /** The earliest kickoff is the kickoff of one of the matches, and no match kicks off earlier. */
  lemma MinKickOffIsEarliest(ms: seq<LeagueMatch>)
    requires ms != []
    ensures exists m :: m in ms && m.timeToKickOff == MinKickOff(ms)
    ensures forall m :: m in ms ==> MinKickOff(ms) <= m.timeToKickOff
  {
    EarliestFromIsEarliest(ms, 1, ms[0].timeToKickOff);
  }

  /** The running minimum stays a kickoff of the prefix scanned so far and a lower bound of it. */
  lemma {:induction false} EarliestFromIsEarliest(ms: seq<LeagueMatch>, from: nat, acc: int)
    requires 1 <= from <= |ms|
    requires exists m :: m in ms[..from] && m.timeToKickOff == acc
    requires forall m :: m in ms[..from] ==> acc <= m.timeToKickOff
    ensures exists m :: m in ms && m.timeToKickOff == EarliestFrom(ms, from, acc)
    ensures forall m :: m in ms ==> EarliestFrom(ms, from, acc) <= m.timeToKickOff
    decreases |ms| - from
  {
    if from == |ms| {
      assert ms[..from] == ms;
    } else {
      var next := if ms[from].timeToKickOff < acc then ms[from].timeToKickOff else acc;
      assert ms[..from + 1] == ms[..from] + [ms[from]];
      EarliestFromIsEarliest(ms, from + 1, next);
    }
  }

  /** `_sleep`: the delay before the next refresh. */
  function SleepDelay(l: LeagueSnapshot, livetime: int, nonlivetime: int): (delay: int)
    ensures l.leagueMatches == [] ==> delay == nonlivetime
    ensures l.leagueMatches != [] && l.hasStarted ==>
      delay == if l.isLive && !l.hasFinished then livetime else nonlivetime
  {
    if l.leagueMatches == [] then nonlivetime
    else if !l.hasStarted then
      var kickoff := MinKickOff(l.leagueMatches);
      if kickoff < ScoresService.LiveWindow then livetime else kickoff - ScoresService.WakeBeforeKickOff
    else if l.hasFinished then nonlivetime
    else if l.isLive then livetime
    else nonlivetime
  }

  /** Before the league starts, the worker polls at the live cadence as soon as any match is
      inside its live window; otherwise it sleeps until the earliest match is about to enter its
      window, never past the window of any match. */
  lemma SleepsUntilEarliestKickOff(l: LeagueSnapshot, livetime: int, nonlivetime: int)
    requires l.leagueMatches != [] && !l.hasStarted
    ensures var delay := SleepDelay(l, livetime, nonlivetime);
      if exists m :: m in l.leagueMatches && m.timeToKickOff < ScoresService.LiveWindow
      then delay == livetime
      else
        && delay >= ScoresService.LiveWindow - ScoresService.WakeBeforeKickOff
        && (forall m :: m in l.leagueMatches ==> delay + ScoresService.WakeBeforeKickOff <= m.timeToKickOff)
        && (exists m :: m in l.leagueMatches && delay + ScoresService.WakeBeforeKickOff == m.timeToKickOff)
  {
    MinKickOffIsEarliest(l.leagueMatches);
  }

  /** Every code the snapshot's flags call for, highest priority first. */
  function Raised(l: LeagueSnapshot): seq<string>
  {
    (if l.newMatch then [StatusMatchFound] else [])
    + (if l.goal then [LeagueGoal] else [])
    + (if l.statusChanged then [LeagueStatusChange] else [])
  }

  /** `_checkStatus`: the one code sent for this snapshot, if any. A league never reports which
      side scored nor which status a match reached. */
  function StatusCode(l: LeagueSnapshot): (code: Option<string>)
    ensures code.None? <==> !l.newMatch && !l.goal && !l.statusChanged
    ensures code.Some? ==> code.value in {StatusMatchFound, LeagueGoal, LeagueStatusChange}
  {
    if l.newMatch then Some(StatusMatchFound)
    else if l.goal then Some(LeagueGoal)
    else if l.statusChanged then Some(LeagueStatusChange)
    else None
  }

  /** Simultaneous conditions are coalesced: only the highest-priority raised code is sent. */
  lemma StatusCodeIsFirstRaised(l: LeagueSnapshot)
    ensures StatusCode(l) == if Raised(l) == [] then None else Some(Raised(l)[0])
  {
  }

  /** The specification of one cycle: detect (only when the league has matches), then the delay,
      both from the snapshot held before the refresh. */
  function LeagueCycle(l: LeagueSnapshot, notifiers: seq<Notifier>, livetime: int, nonlivetime: int): (c: Cycle<LeagueSnapshot>)
    ensures l.leagueMatches == [] ==> c.sent == [] && c.delay == nonlivetime
    ensures |c.sent| == if l.leagueMatches != [] && StatusCode(l).Some? then |notifiers| else 0
  {
    var sent := if l.leagueMatches != [] && StatusCode(l).Some?
                then Dispatched(notifiers, StatusCode(l).value, l, Some(ModeLeague))
                else [];
    Cycle(sent, SleepDelay(l, livetime, nonlivetime))
  }

  /** A cycle sends one code at most, to every notifier with the league mode, and only when the
      league has matches; with no matches it idles. */
  lemma LeagueCycleSendsAtMostOneCode(l: LeagueSnapshot, notifiers: seq<Notifier>, livetime: int, nonlivetime: int)
    ensures var c := LeagueCycle(l, notifiers, livetime, nonlivetime);
      && OneCode(c.sent)
      && (l.leagueMatches == [] ==> c.sent == [] && c.delay == nonlivetime)
      && (forall i :: 0 <= i < |c.sent| ==> c.sent[i].mode == Some(ModeLeague))
      && |c.sent| == if l.leagueMatches != [] && StatusCode(l).Some? then |notifiers| else 0
  {
  }

  /** A league of one match is scheduled exactly as the match worker schedules that match. */
  lemma SingleMatchLeagueAgreesWithMatchWorker(l: LeagueSnapshot, m: ScoresService.MatchSnapshot, livetime: int, nonlivetime: int)
    requires l.leagueMatches == [LeagueMatch(m.timeToKickOff)] && m.matchFound
    requires l.hasStarted == m.hasStarted && l.hasFinished == m.hasFinished && l.isLive == m.isLive
    ensures SleepDelay(l, livetime, nonlivetime) == ScoresService.SleepDelay(m, livetime, nonlivetime)
  {
    assert LeagueMatch(m.timeToKickOff) in l.leagueMatches;
  }

  /** The worker for one league (`LeagueNotifierService`). `league` is `self.league`, replaced by
      each refresh. */
  class LeagueNotifierService {
    const leagueid: string
    const notifiers: seq<Notifier>
    const livetime: int
    const nonlivetime: int
    const servicemode: nat := ModeLeague
    var league: LeagueSnapshot

    constructor (leagueid: string, notifiers: seq<Notifier>, livetime: int, nonlivetime: int)
      ensures this.leagueid == leagueid && this.notifiers == notifiers
      ensures this.livetime == livetime && this.nonlivetime == nonlivetime
    {
      this.leagueid := leagueid;
      this.notifiers := notifiers;
      this.livetime := livetime;
      this.nonlivetime := nonlivetime;
    }

    /** `_sendUpdate`: one `Notify(code, league, mode=servicemode)` per notifier, in list order,
        each answering with the success flag that `deliver` gives for that call. */
    method SendUpdate(code: string, deliver: Call<LeagueSnapshot> -> bool) returns (calls: seq<Call<LeagueSnapshot>>, results: seq<bool>)
      ensures |calls| == |notifiers| && |results| == |notifiers|
      ensures forall i :: 0 <= i < |notifiers| ==>
        calls[i] == Call(notifiers[i], code, league, Some(servicemode)) && results[i] == deliver(calls[i])
    {
      calls, results := [], [];
      for i := 0 to |notifiers|
        invariant |calls| == i && |results| == i
        invariant forall k :: 0 <= k < i ==>
          calls[k] == Call(notifiers[k], code, league, Some(servicemode)) && results[k] == deliver(calls[k])
      {
        var call := Call(notifiers[i], code, league, Some(servicemode));
        var r := deliver(call);
        calls, results := calls + [call], results + [r];
      }
    }

    /** `_checkStatus`: at most one `_sendUpdate`, with the code of the highest-priority event. */
    method CheckStatus(deliver: Call<LeagueSnapshot> -> bool) returns (calls: seq<Call<LeagueSnapshot>>)
      ensures calls == if StatusCode(league).Some?
                       then Dispatched(notifiers, StatusCode(league).value, league, Some(ModeLeague))
                       else []
    {
      calls := [];
      var results;
      if league.newMatch {
        calls, results := SendUpdate(StatusMatchFound, deliver);
      } else if league.goal {
        calls, results := SendUpdate(LeagueGoal, deliver);
      } else if league.statusChanged {
        calls, results := SendUpdate(LeagueStatusChange, deliver);
      }
    }

    /** `run`, for as many cycles as there are refreshes: each cycle checks the status if the
        league has matches, computes the delay, and then refreshes to the next snapshot. */
    method Run(initial: LeagueSnapshot, refreshes: seq<LeagueSnapshot>, deliver: Call<LeagueSnapshot> -> bool)
      returns (trace: seq<Cycle<LeagueSnapshot>>)
      modifies this
      ensures |trace| == |refreshes|
      ensures forall i :: 0 <= i < |refreshes| ==>
        trace[i] == LeagueCycle(([initial] + refreshes)[i], notifiers, livetime, nonlivetime)
      ensures league == ([initial] + refreshes)[|refreshes|]
    {
      league := initial;
      trace := [];
      var seen := [initial] + refreshes;
      ghost var expected := seq(|refreshes|, k requires 0 <= k < |refreshes| => LeagueCycle(seen[k], notifiers, livetime, nonlivetime));
      for i := 0 to |refreshes|
        invariant trace == expected[..i]
        invariant league == seen[i]
      {
        var sent := [];
        if league.leagueMatches != [] {
          sent := CheckStatus(deliver);
        }
        var delay := SleepDelay(league, livetime, nonlivetime);
        assert Cycle(sent, delay) == expected[i];
        trace := trace + [Cycle(sent, delay)];
        assert trace == expected[..i + 1];
        league := refreshes[i];
        assert league == seen[i + 1];
      }
      assert trace == expected;
    }
  }
}
