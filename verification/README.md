# football_notifications — a Dafny model of the notification service core

football_notifications follows football matches and whole leagues and tells the
user about them through pluggable notifiers (e-mail, Kodi, AutoRemote).

- A **match worker** (`ScoreNotifierService`) follows one team.
- A **league worker** (`LeagueNotifierService`) follows one league.
- Each worker runs the same loop:
  - look at the latest snapshot of its match or league;
  - report at most one event (a new match, a goal, a status change) to every notifier it was given;
  - sleep for a delay chosen from the snapshot;
  - refresh.
- A **supervisor** (`FootballNotify`) sorts the configured notifiers by capability mode.
  It then starts one worker per team and per league, unless no notifier can serve that kind of worker.

This project models that decision logic, plus the message-building parts of the three notifiers.

| Dafny file | models |
|---|---|
| `constants.dfy` | the event codes and the two capability modes |
| `bits.dfy` | Python's `&` and `\|` on non-negative integers, bit by bit |
| `notifierbase.dfy` | the capability mask, `checkMode`, and adding modes |
| `worker.dfy` | a `Notify` call, one loop cycle, and the calls of one `_sendUpdate` |
| `scoresservice.dfy` | the match worker: `_sleep`, `_checkStatus`, `_sendUpdate`, `run` |
| `leagueservice.dfy` | the league worker: the same four, with the minimum kickoff and the league codes |
| `footballnotify.dfy` | `getCompatibleNotifiers`, the construction, and the start decisions of `run` |
| `notifier_email.dfy` | the stored title, the subject line, the `To` header, and the scorer cells |
| `notifier_kodi.dfy` | the title table, the JSON-RPC envelope with its id counter, and the success test |
| `notifier_autoremote.dfy` | the message text, the request parameters, and the success test |
| `strings.dfy`, `wrappers.dfy` | `IndexOf`, `Option` and `Result` |

How the model represents the running system:

- **Workers are classes.** Their state field (`current` for the match, `league` for the league) is replaced on every refresh.
- **`Run` is a bounded loop.** It runs one cycle per refresh it is given.
- **`Run` returns a trace.** The trace holds one `Cycle` per iteration: the `Notify` calls issued, then the delay slept.
- **Each worker's `Run` is proved against a specification function of one cycle** (`MatchCycle`, `LeagueCycle`). The lemmas beside those functions state what one cycle does:
  - at most one code;
  - every notifier reached;
  - idle when nothing was found.
- **Constants the code uses but never defines** are given distinct values here:
  - `MODE_MATCH = 1` and `MODE_LEAGUE = 2`, two distinct single bits;
  - `LEAGUE_GOAL` and `LEAGUE_STATUS_CHANGE`, two strings distinct from the six match codes.

Three behaviours of the code are easy to misread; the model follows the code:

- **League kickoff.** The league worker's kickoff is the minimum over *all* of the league's matches (service/leagueservice.py:163-164). It is not taken over the pending matches only.
- **Match worker results.** The match worker discards what `Notify` returns (service/scoresservice.py:114). Only the league worker collects the results (service/leagueservice.py:118-119).
- **Supervisor errors.** The supervisor logs one error per kind of worker, and only when that kind has entities but no notifiers. An empty team or league list starts nothing and logs nothing (service/footballnotify.py:83-95).

## Model

| member | source | states |
|---|---|---|
| Bits.AndBit | notifiers/notifierbase.py:20 | a bit is set in `a & b` exactly when it is set in both operands |
| Bits.OrBit | notifiers/notifierbase.py:6-12 | a bit is set in `a \| b` exactly when it is set in either operand, so OR-ing modes in only adds capabilities |
| NotifierBase.NewNotifier | notifiers/notifierbase.py:5-13 | a fresh notifier keeps its name and serves matches but not leagues |
| NotifierBase.CheckMode | notifiers/notifierbase.py:15-20 | mode 0 is never compatible |
| NotifierBase.CheckModeIffSharedMode | notifiers/notifierbase.py:20 | `checkMode(m)` holds if and only if `m` and the notifier's mask share a mode bit |
| NotifierBase.CheckModeOfUnion | notifiers/notifierbase.py:20 | `checkMode(a \| b)` is `checkMode(a) or checkMode(b)` |
| NotifierBase.AddModes | notifiers/notifierbase.py:6-12 | OR-ing in extra modes keeps the name; the new mask holds exactly the bits of the old mask and of the extra modes |
| NotifierBase.AddModesKeepsCompatibility | notifiers/notifierbase.py:6-13 | adding modes never makes a compatible mode incompatible |
| NotifierBase.AddModesGrantsMode | notifiers/notifierbase.py:6-13 | after adding a non-zero set of modes, the notifier is compatible with it |
| Worker.Dispatched | service/scoresservice.py:111-114 | one call per notifier, in list order, each with the same code, subject and mode |
| ScoresService.SleepDelay | service/scoresservice.py:140-178 | no match: `nonlivetime`; before kickoff, under 300 s: `livetime`, otherwise a delay of at least 60 that ends 240 s before kickoff; started: `livetime` only when live and not finished, else `nonlivetime` |
| ScoresService.StatusCode | service/scoresservice.py:116-138 | no code exactly when no flag is set; a new match always reports "found" |
| ScoresService.StatusCodeIsFirstRaised | service/scoresservice.py:121-138 | the code sent is the highest-priority raised one: new match, then goal, then status change |
| ScoresService.GoalCodeNamesScorer | service/scoresservice.py:129-133 | a goal reports "goodgoal" if and only if it was the team's goal, "badgoal" if and only if it was not |
| ScoresService.StatusChangeForwardsStatus | service/scoresservice.py:136-138 | a status change alone forwards the match status itself as the code |
| ScoresService.MatchCycle | service/scoresservice.py:84-93 | one cycle: with no match, nothing is sent and the delay is `nonlivetime`; otherwise one call per notifier when a code is raised, none when not |
| ScoresService.MatchCycleSendsAtMostOneCode | service/scoresservice.py:84-93 | one cycle sends a single code to every notifier, or nothing; with no match it sends nothing and sleeps `nonlivetime` |
| ScoresService.WakesInsideLiveWindow | service/scoresservice.py:152-162 | after a long pre-match sleep, the match is 240 s from kickoff and the next delay is `livetime` |
| ScoresService.ScoreNotifierService.constructor | service/scoresservice.py:38-65 | the worker keeps its team, notifiers and both delays |
| ScoresService.ScoreNotifierService.SendUpdate | service/scoresservice.py:104-114 | one `Notify(code, match)` per notifier, in order |
| ScoresService.ScoreNotifierService.CheckStatus | service/scoresservice.py:116-138 | the calls are `_sendUpdate` of the snapshot's code, or none when no code is raised |
| ScoresService.ScoreNotifierService.Run | service/scoresservice.py:67-97 | cycle i detects (only when a match is found) and sleeps on snapshot i, then refreshes; the final state is the last refresh |
| LeagueService.MinKickOffIsEarliest | service/leagueservice.py:163-164 | the minimum kickoff is one match's kickoff, and no match kicks off earlier |
| LeagueService.SleepDelay | service/leagueservice.py:145-184 | no matches: `nonlivetime`; started: `livetime` only when live and not finished, else `nonlivetime` |
| LeagueService.SleepsUntilEarliestKickOff | service/leagueservice.py:157-168 | before the league starts: `livetime` if any match is under 300 s away; otherwise a delay of at least 60 that ends 240 s before the earliest kickoff and before every match's window |
| LeagueService.StatusCode | service/leagueservice.py:121-143 | no code exactly when no flag is set; the code is "found" or one of the two league codes |
| LeagueService.StatusCodeIsFirstRaised | service/leagueservice.py:129-143 | priority new match, then goal, then status change, with no side and no per-match status |
| LeagueService.LeagueCycle | service/leagueservice.py:89-101 | one cycle: with no matches, nothing is sent and the delay is `nonlivetime`; otherwise one call per notifier when a code is raised, none when not |
| LeagueService.LeagueCycleSendsAtMostOneCode | service/leagueservice.py:89-101 | one cycle sends a single code, with the league mode, to every notifier, or nothing; with no matches it idles at `nonlivetime` |
| LeagueService.SingleMatchLeagueAgreesWithMatchWorker | service/leagueservice.py:145-184 | a one-match league sleeps exactly as the match worker does for that match |
| LeagueService.LeagueNotifierService.constructor | service/leagueservice.py:40-68 | the worker keeps its league id, notifiers and both delays |
| LeagueService.LeagueNotifierService.SendUpdate | service/leagueservice.py:108-119 | one `Notify(code, league, mode=servicemode)` per notifier, in order, with one result per call |
| LeagueService.LeagueNotifierService.CheckStatus | service/leagueservice.py:121-143 | the calls are `_sendUpdate` of the league code, or none when no code is raised |
| LeagueService.LeagueNotifierService.Run | service/leagueservice.py:70-101 | cycle i detects (only when the league has matches) and sleeps on snapshot i, then refreshes; the final state is the last refresh |
| FootballNotify.GetCompatibleNotifiers | service/footballnotify.py:41-42 | exactly the compatible notifiers, each as often as in the input, in their original order |
| FootballNotify.MatchWorkers | service/footballnotify.py:83-88 | no match workers when there are teams but no match notifiers; otherwise one per team, in team order, each given the match notifiers |
| FootballNotify.LeagueWorkers | service/footballnotify.py:90-95 | no league workers when there are leagues but no league notifiers; otherwise one per league, in order, each given the league notifiers |
| FootballNotify.WorkersGetOnlyCompatibleNotifiers | service/footballnotify.py:44-69 | every notifier handed to a match worker serves matches, and every one handed to a league worker serves leagues |
| FootballNotify.LeagueCallsReachOnlyLeagueNotifiers | service/footballnotify.py:61-64 | every `Notify` a league worker issues goes to a league-capable notifier |
| FootballNotify.MatchOnlyAndDualNotifiers | service/footballnotify.py:41-42 | of a match-only and a dual-mode notifier, only the dual one is a league notifier |
| FootballNotify.FootballNotify.constructor | service/footballnotify.py:11-23 | the match and league notifier lists are filtered once, at construction |
| FootballNotify.FootballNotify.Run | service/footballnotify.py:79-95 | one error and no workers for a kind of entity that is present but has no notifiers; otherwise one worker per entity, in order; the two decisions are independent |
| NotifierEmail.StoredTitle | notifiers/notifier_email.py:73 | empty for a missing or empty title, otherwise the title followed by one space |
| NotifierEmail.NewEmailNotifier | notifiers/notifier_email.py:53-73 | the recipients and sender are kept; the stored title follows the `StoredTitle` rule, so it is empty exactly when no title was given |
| NotifierEmail.SubjectPrefix | notifiers/notifier_email.py:116-132 | a prefix exists exactly for the six match codes |
| NotifierEmail.SubjectPrefixInjective | notifiers/notifier_email.py:116-132 | different codes get different prefixes |
| NotifierEmail.ScoreText | notifiers/notifier_email.py:113-114 | the score reads home team, space, home score, `-`, away score, space, away team, with nothing else in it |
| NotifierEmail.Subject | notifiers/notifier_email.py:108-136 | fails exactly for a code that is not a match code; otherwise it is the title, then the event's prefix and one space, then the score text |
| NotifierEmail.SubjectIdentifiesEvent | notifiers/notifier_email.py:108-136 | for one score, equal subjects mean the same event |
| NotifierEmail.LeagueCodesHaveNoSubject | notifiers/notifier_email.py:116-136 | a league code leaves the prefix unbound |
| NotifierEmail.JoinAddresses | notifiers/notifier_email.py:82 | the joined list is as long as all the addresses together plus two characters for each separator, one fewer than the addresses; it starts with the first address and ends with the last; when no address holds a comma, the result has a comma exactly when there are two or more addresses |
| NotifierEmail.ToHeader | notifiers/notifier_email.py:82 | a non-empty `To` header whose addresses hold no comma splits back into exactly the recipients, where splitting cuts only at the two characters ", " |
| NotifierEmail.ToHeaderRoundTrip | notifiers/notifier_email.py:82 | cutting the `To` header at each ", " gives back the recipients, in order, when no address holds a comma |
| NotifierEmail.SplitJoinInverse | notifiers/notifier_email.py:82 | joining the pieces of any string back with ", " restores the string, so the split loses nothing |
| NotifierEmail.HeaderIsTheJoin | notifiers/notifier_email.py:82 | any header that cuts back into the recipients is their `", ".join`; with ToHeaderRoundTrip, each separator is exactly ", " |
| NotifierEmail.BareCommaStaysInAddress | notifiers/notifier_email.py:82 | a comma with no space after it is not a separator: `"a,b"` reads back as one recipient |
| NotifierEmail.BreakLines | notifiers/notifier_email.py:85-95 | no line break is left, and text without one is unchanged |
| NotifierEmail.BreakLinesRoundTrip | notifiers/notifier_email.py:85-95 | reading each `<br />` back as a line break gives the scorer text back, when it has no markup |
| NotifierEmail.ScorerCell | notifiers/notifier_email.py:85-95 | empty when the scorers are not a list; otherwise the formatted text with every line break replaced by `<br />`, so no line break is left |
| NotifierKodi.FormatMessage | notifiers/notifier_kodi.py:77-82 | the message is the match text; the title is "Unknown status" if and only if the code is not a match code, else its table entry |
| NotifierKodi.TitlesAgreeWithEmailPrefixes | notifiers/notifier_kodi.py:13-29 | Kodi's title table and the e-mail subject prefixes agree on every code |
| NotifierKodi.Succeeded | notifiers/notifier_kodi.py:57-75 | success if and only if status 200 and a "result" member that is the string "OK" |
| NotifierKodi.KodiNotifier.constructor | notifiers/notifier_kodi.py:39-55 | the endpoint is `http://address:port/jsonrpc`; the first id is 0 |
| NotifierKodi.KodiNotifier.Notify | notifiers/notifier_kodi.py:84-98 | the envelope is "2.0" / "GUI.ShowNotification" with the formatted message; the id is the current one, it is then advanced by one, and it is greater than every id used before |
| NotifierAutoRemote.FormatMessage | notifiers/notifier_autoremote.py:36-40 | the message is the prefix, one space, the event, the `=:=` marker and the match text, in that order and with nothing else |
| NotifierAutoRemote.FormatParseRoundTrip | notifiers/notifier_autoremote.py:36-40 | the receiver recovers the prefix, the event and the match text from the message, when the prefix has no space and the event no `=` |
| NotifierAutoRemote.Params | notifiers/notifier_autoremote.py:49-50 | the parameters are exactly the key and the formatted message |
| NotifierAutoRemote.Succeeded | notifiers/notifier_autoremote.py:29-34 | success if and only if status 200 and a body of exactly "OK" |
| NotifierAutoRemote.Notify | notifiers/notifier_autoremote.py:42-51 | one request to the fixed endpoint whose parameters are exactly the notifier's key and the formatted message; the result is the success test |

## Left out

- Sleeping, refreshing and time. `sleep(delay)` is left out: the delay is returned in the trace. `Update()` is left out: a refresh takes the next snapshot of a given sequence. The fixture source (`service.footballscores`) is not part of this model. Its snapshots are datatypes of boolean flags and whole seconds.
- ScoresService.ScoreNotifierService.Run: covers as many cycles as refreshes are given, not the unbounded `while True`. The same holds for LeagueService.LeagueNotifierService.Run.
- Time to kickoff is a float of seconds in the code. It is modelled as an integer number of seconds.
- Threads, the dispatch lock, `daemon`/`start()` and the keep-alive loop are left out. So is `KeyboardInterrupt` handling. Dispatch is sequential.
- Logging is left out: debug, info and exception messages, log levels, the log file, and the `detailed` flag. The supervisor's two error messages are returned as values.
- Exceptions and re-raising are left out. So is the undefined name `match` in the error path of `startMatchService`.
- The workers' calls to `ServiceBase.__init__` are not modelled as written. Those calls pass `notifiers=` (both workers) and `servicemode=` (league worker) as keywords. `ServiceBase.__init__` accepts neither keyword and has no `**kwargs` (service/servicebase.py:7-9). So in the code both constructors would raise `TypeError`, and `_notifiers` is never set. The model assumes the evident intent instead: each worker keeps the notifier list it is given, and the league worker's mode is `MODE_LEAGUE`.
- `checkNotification` is never defined. The league worker's `SendUpdate` returns the results instead.
- The concrete notifiers do not inherit `NotifierBase`, so they have no `checkMode`. In the model every notifier carries a mode mask.
- Negative mode masks are left out. Modes and masks are natural numbers.
- Which notifier class handles a call is not modelled. `Notify` results reach the league worker through a `deliver` function parameter.
- E-mail transport is left out: SMTP, the MIME structure, the `From` header, the plain-text part and the HTML template. `formatIncidents` is not part of this model; a side's scorers arrive already formatted.
- Kodi and AutoRemote transport is left out: HTTP, JSON encoding, the `Content-Type` header and the Basic-auth header (whose format string is malformed). Replies are parameters: the status and the decoded body.
- NotifierKodi.KodiNotifier.constructor: the port is the text it is formatted to, and `displaytime` is not stored, as the code does not store it either.
