/** Calendar dates, the 2025 season window, and the rule deciding which game dates count
    for a team (app.py:34-36, 95-99, 153-158). */
module Season {

  /** A calendar date; compared field by field like Python's `datetime` at midnight. */
  datatype Date = Date(year: int, month: int, day: int)

  /** Strict chronological order. */
  predicate Before(a: Date, b: Date)
  {
    a.year < b.year
    || (a.year == b.year && (a.month < b.month || (a.month == b.month && a.day < b.day)))
  }

  /** The two Tokyo Series days and the regular-season opening day. */
  const TokyoStart: Date := Date(2025, 3, 18)
  const Tokyo2: Date := Date(2025, 3, 19)
  const RegularStart: Date := Date(2025, 3, 27)
  const TokyoDays: seq<Date> := [TokyoStart, Tokyo2]

  /** The two teams that played the Tokyo Series. */
  const ExceptedTeams: set<string> := {"LAD", "CHC"}

  /** The eligibility mask for one record's date. */
  predicate Eligible(team: string, d: Date)
    ensures !Before(d, RegularStart) ==> Eligible(team, d)
    ensures Eligible(team, d) ==>
      !Before(d, RegularStart) || (team in ExceptedTeams && (d == TokyoStart || d == Tokyo2))
  {
    if team in ExceptedTeams then d in TokyoDays || !Before(d, RegularStart)
    else !Before(d, RegularStart)
  }

  /** The sidebar warning: the team has no official game before the regular start, yet the
      chosen start date precedes it. */
  predicate PreSeasonWarning(team: string, start: Date)
    ensures PreSeasonWarning(team, start) ==> !Eligible(team, start)
  {
    team !in ExceptedTeams && Before(start, RegularStart)
  }

  /** `Before` is a strict total order, so sorting by date is meaningful. */
  lemma BeforeIsStrictTotalOrder(a: Date, b: Date, c: Date)
    ensures !Before(a, a)
    ensures Before(a, b) && Before(b, c) ==> Before(a, c)
    ensures a == b || Before(a, b) || Before(b, a)
  {
  }

  /** Outside LAD and CHC nothing earlier than the regular start is eligible; for those two
      teams only the Tokyo days are. */
  lemma EligibleBeforeRegularStart(team: string, d: Date)
    requires Before(d, RegularStart)
    ensures Eligible(team, d) <==> team in ExceptedTeams && (d == TokyoStart || d == Tokyo2)
  {
  }

  /** For a team without Tokyo games, the warning fires exactly when some date in the chosen
      window (on or after `start`) is dropped by the eligibility mask. */
  lemma WarningIffWindowLosesDays(team: string, start: Date)
    requires team !in ExceptedTeams
    ensures PreSeasonWarning(team, start) <==> exists d :: !Before(d, start) && !Eligible(team, d)
  {
  }

  /** LAD and CHC never get the warning, whatever the start date. */
  lemma NoWarningForTokyoTeams(team: string, start: Date)
    requires team in ExceptedTeams
    ensures !PreSeasonWarning(team, start)
  {
  }
}
