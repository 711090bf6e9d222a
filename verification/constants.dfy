/**
 * Event codes shared by the services and the notifiers (service/constants.py),
 * and the two notifier capability modes.
 *
 * The league codes and the mode bits are referenced by the services but not
 * defined in service/constants.py; here they are fixed as distinct strings and
 * distinct single-bit masks.
 */
module Constants {

  const GoalMyTeam: string := "goodgoal"
  const GoalOpposition: string := "badgoal"
  const StatusMatchFound: string := "found"
  const StatusKickOff: string := "L"
  const StatusHalfTime: string := "HT"
  const StatusFullTime: string := "FT"

  const LeagueGoal: string := "leaguegoal"
  const LeagueStatusChange: string := "leaguestatus"

  /** Capability bit of notifiers that handle single-team matches. */
  const ModeMatch: nat := 1
  /** Capability bit of notifiers that handle whole leagues. */
  const ModeLeague: nat := 2

  /** The six codes a match service can emit for the standard match statuses. */
  predicate IsMatchCode(code: string)
  {
    code in {GoalMyTeam, GoalOpposition, StatusMatchFound, StatusKickOff, StatusHalfTime, StatusFullTime}
  }
}
