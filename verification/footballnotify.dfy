/**
 * The supervisor (service/footballnotify.py): it splits the configured
 * notifiers by capability once, then decides which workers to start.
 */
module FootballNotify {
  import opened Constants
  import opened Bits
  import opened NotifierBase
  import opened Worker
  import LeagueService

  const NoMatchNotifiersError: string :=
    "No compatible notifiers found for matches.\nNo match services will be started."
  const NoLeagueNotifiersError: string :=
    "No compatible notifiers found for leagues.\nNo league services will be started."

  /** A worker the supervisor starts, with what it is constructed from. */
  datatype Started =
    | MatchWorker(team: string, notifiers: seq<Notifier>, livetime: int, nonlivetime: int)
    | LeagueWorker(leagueid: string, notifiers: seq<Notifier>, livetime: int, nonlivetime: int)

  /** `r` keeps some of the elements of `s`, in their original order. */
  ghost predicate IsSubsequence<T>(r: seq<T>, s: seq<T>)
    decreases |s|
  {
    r == [] || (s != [] && ((r[0] == s[0] && IsSubsequence(r[1..], s[1..])) || IsSubsequence(r, s[1..])))
  }

  /** `getCompatibleNotifiers(mode)`: the notifiers whose `checkMode(mode)` holds. The result keeps
      their order and every occurrence of them, and nothing else. */
  function GetCompatibleNotifiers(notifiers: seq<Notifier>, mode: nat): (r: seq<Notifier>)
    ensures forall n :: n in r <==> n in notifiers && CheckMode(n, mode)
    ensures forall n :: multiset(r)[n] == if CheckMode(n, mode) then multiset(notifiers)[n] else 0
    ensures IsSubsequence(r, notifiers)
  {
    if notifiers == [] then []
    else
      var rest := GetCompatibleNotifiers(notifiers[1..], mode);
      assert notifiers == [notifiers[0]] + notifiers[1..];
      if CheckMode(notifiers[0], mode) then [notifiers[0]] + rest else rest
  }

  /** The match workers `run` starts: none when there are teams but no match notifiers,
      otherwise one per team, in order. */
  function MatchWorkers(teams: seq<string>, matchnotifiers: seq<Notifier>, livetime: int, nonlivetime: int): (workers: seq<Started>)
    ensures |workers| == if teams != [] && matchnotifiers == [] then 0 else |teams|
    ensures forall i :: 0 <= i < |workers| ==>
      workers[i].MatchWorker? && workers[i].team == teams[i] && workers[i].notifiers == matchnotifiers
  {
    if teams != [] && matchnotifiers == [] then []
    else seq(|teams|, i requires 0 <= i < |teams| => MatchWorker(teams[i], matchnotifiers, livetime, nonlivetime))
  }

  /** The league workers `run` starts, by the same rule. */
  function LeagueWorkers(leagues: seq<string>, leaguenotifiers: seq<Notifier>, livetime: int, nonlivetime: int): (workers: seq<Started>)
    ensures |workers| == if leagues != [] && leaguenotifiers == [] then 0 else |leagues|
    ensures forall i :: 0 <= i < |workers| ==>
      workers[i].LeagueWorker? && workers[i].leagueid == leagues[i] && workers[i].notifiers == leaguenotifiers
  {
    if leagues != [] && leaguenotifiers == [] then []
    else seq(|leagues|, i requires 0 <= i < |leagues| => LeagueWorker(leagues[i], leaguenotifiers, livetime, nonlivetime))
  }

  /** Every worker is handed only notifiers that serve its mode: a match-only notifier never
      hears from a league worker, and a league-only one never from a match worker. */
  lemma WorkersGetOnlyCompatibleNotifiers(teams: seq<string>, leagues: seq<string>, notifiers: seq<Notifier>, livetime: int, nonlivetime: int)
    ensures forall w, n ::
      (w in MatchWorkers(teams, GetCompatibleNotifiers(notifiers, ModeMatch), livetime, nonlivetime) && n in w.notifiers)
      ==> CheckMode(n, ModeMatch)
    ensures forall w, n ::
      (w in LeagueWorkers(leagues, GetCompatibleNotifiers(notifiers, ModeLeague), livetime, nonlivetime) && n in w.notifiers)
      ==> CheckMode(n, ModeLeague)
  {
  }

  /** Every `Notify` a league worker issues, in any cycle, goes to a league-capable notifier. */
  lemma LeagueCallsReachOnlyLeagueNotifiers(l: LeagueService.LeagueSnapshot, notifiers: seq<Notifier>, livetime: int, nonlivetime: int)
    ensures forall c :: c in LeagueService.LeagueCycle(l, GetCompatibleNotifiers(notifiers, ModeLeague), livetime, nonlivetime).sent
                        ==> CheckMode(c.notifier, ModeLeague)
  {
    var leaguenotifiers := GetCompatibleNotifiers(notifiers, ModeLeague);
    var sent := LeagueService.LeagueCycle(l, leaguenotifiers, livetime, nonlivetime).sent;
    forall c | c in sent ensures CheckMode(c.notifier, ModeLeague) {
      var i :| 0 <= i < |sent| && sent[i] == c;
      assert c.notifier == leaguenotifiers[i];
    }
  }

  /** Two notifiers, one for matches only and one for matches and leagues: a league event
      reaches the second one only. */
  lemma MatchOnlyAndDualNotifiers(a: string, b: string)
    ensures GetCompatibleNotifiers([NewNotifier(a), Notifier(b, Or(ModeMatch, ModeLeague))], ModeLeague)
            == [Notifier(b, Or(ModeMatch, ModeLeague))]
  {
    assert Or(1, 2) == 3 by {
      assert Or(0, 1) == 1;
    }
    assert And(2, 3) == 2 by {
      assert And(1, 1) == 1 by { assert And(0, 0) == 0; }
    }
    assert And(2, 1) == 0 by {
      assert And(1, 0) == 0;
    }
  }

  /** `FootballNotify`: the configuration, and the notifiers split by mode at construction. */
  class FootballNotify {
    const teams: seq<string>
    const leagues: seq<string>
    const notifiers: seq<Notifier>
    const livetime: int
    const nonlivetime: int
    const matchnotifiers: seq<Notifier>
    const leaguenotifiers: seq<Notifier>

    constructor (teams: seq<string>, leagues: seq<string>, notifiers: seq<Notifier>, livetime: int, nonlivetime: int)
      ensures this.teams == teams && this.leagues == leagues && this.notifiers == notifiers
      ensures this.livetime == livetime && this.nonlivetime == nonlivetime
      ensures matchnotifiers == GetCompatibleNotifiers(notifiers, ModeMatch)
      ensures leaguenotifiers == GetCompatibleNotifiers(notifiers, ModeLeague)
    {
      this.teams := teams;
      this.leagues := leagues;
      this.notifiers := notifiers;
      this.livetime := livetime;
      this.nonlivetime := nonlivetime;
      this.matchnotifiers := GetCompatibleNotifiers(notifiers, ModeMatch);
      this.leaguenotifiers := GetCompatibleNotifiers(notifiers, ModeLeague);
    }

    /** `run`, up to the keep-alive loop: the match decision, then the league decision, each
        logging one error and starting nothing when its entity list has no notifiers to use. */
    method Run() returns (errors: seq<string>, started: seq<Started>)
      ensures errors ==
        (if teams != [] && matchnotifiers == [] then [NoMatchNotifiersError] else [])
        + (if leagues != [] && leaguenotifiers == [] then [NoLeagueNotifiersError] else [])
      ensures started == MatchWorkers(teams, matchnotifiers, livetime, nonlivetime)
                         + LeagueWorkers(leagues, leaguenotifiers, livetime, nonlivetime)
    {
      errors := [];
      var matchWorkers := [];
      if teams != [] && matchnotifiers == [] {
        errors := errors + [NoMatchNotifiersError];
      } else {
        for i := 0 to |teams|
          invariant |matchWorkers| == i
          invariant forall k :: 0 <= k < i ==> matchWorkers[k] == MatchWorker(teams[k], matchnotifiers, livetime, nonlivetime)
        {
          matchWorkers := matchWorkers + [MatchWorker(teams[i], matchnotifiers, livetime, nonlivetime)];
        }
      }
      assert matchWorkers == MatchWorkers(teams, matchnotifiers, livetime, nonlivetime);
      var leagueWorkers := [];
      if leagues != [] && leaguenotifiers == [] {
        errors := errors + [NoLeagueNotifiersError];
      } else {
        for i := 0 to |leagues|
          invariant |leagueWorkers| == i
          invariant forall k :: 0 <= k < i ==> leagueWorkers[k] == LeagueWorker(leagues[k], leaguenotifiers, livetime, nonlivetime)
        {
          leagueWorkers := leagueWorkers + [LeagueWorker(leagues[i], leaguenotifiers, livetime, nonlivetime)];
        }
      }
      assert leagueWorkers == LeagueWorkers(leagues, leaguenotifiers, livetime, nonlivetime);
      started := matchWorkers + leagueWorkers;
    }
  }
}
