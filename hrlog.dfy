/** The home-run log of one batter (`fetch_hr_log`, app.py:84-122): the season-window
    eligibility mask, the home-run selection, the date sort, the `HR No` numbering and the
    pitcher-name column, applied to the raw per-pitch records the event source returned. */
module HrLog {
  import opened Wrappers
  import opened Seqs
  import opened Season
  import opened Decimal

  /** One raw per-pitch row: `game_date`, `events` (absent on pitches that end no plate
      appearance), `pitcher` (possibly absent), `home_team`, `away_team`. */
  datatype Record = Record(
    date: Date,
    events: Option<string>,
    pitcher: Option<int>,
    homeTeam: string,
    awayTeam: string)

  /** A successful reverse lookup of a pitcher id. */
  datatype PersonName = PersonName(first: string, last: string)

  /** The id-to-name lookup; `None` stands for any exception it raises. */
  type Resolver = int -> Option<PersonName>

  /** One row of the output: the kept record with its `HR No` and `Pitcher` columns. */
  datatype HrEvent = HrEvent(record: Record, hrNo: int, pitcherName: string)

  predicate IsHomeRun(r: Record)
  {
    r.events == Some("home_run")
  }

  /** A qualifying home run: a home run on a date the team's eligibility mask keeps. */
  predicate Qualifies(team: string, r: Record)
  {
    IsHomeRun(r) && Eligible(team, r.date)
  }

  predicate SortedByDate(s: seq<Record>)
  {
    forall i, j :: 0 <= i < j < |s| ==> !Before(s[j].date, s[i].date)
  }

  /** Inserts `x` into a date-sorted sequence, ahead of the rows dated no earlier than it. */
  function Insert(x: Record, s: seq<Record>): (r: seq<Record>)
    requires SortedByDate(s)
    ensures SortedByDate(r)
    ensures multiset(r) == multiset(s) + multiset{x}
    // follows from the multiset clause; stated for the recursive step's proof
    ensures forall y :: y in r ==> y == x || y in s
  {
    if s == [] || !Before(s[0].date, x.date) then
      assert forall k :: 0 < k < |s| ==> !Before(s[k].date, x.date) by {
        forall k | 0 < k < |s| ensures !Before(s[k].date, x.date) {
          BeforeIsStrictTotalOrder(s[k].date, s[0].date, x.date);
        }
      }
      [x] + s
    else
      var rest := Insert(x, s[1..]);
      assert s == [s[0]] + s[1..];
      InsertHead(s[0], rest, x, s[1..]);
      [s[0]] + rest
  }

  /** Putting `h` in front of `rest` keeps the order when nothing in `rest` is earlier. */
  lemma InsertHead(h: Record, rest: seq<Record>, x: Record, tail: seq<Record>)
    requires SortedByDate(rest)
    requires Before(h.date, x.date)
    requires forall k :: 0 <= k < |tail| ==> !Before(tail[k].date, h.date)
    requires forall y :: y in rest ==> y == x || y in tail
    ensures SortedByDate([h] + rest)
  {
    forall j | 0 <= j < |rest| ensures !Before(rest[j].date, h.date) {
      BeforeIsStrictTotalOrder(rest[j].date, h.date, x.date);
      assert rest[j] in rest;
    }
  }

  /** `sort_values('Date')`: a date-ascending permutation of `s`. Rows with equal dates may
      come out in any order in the source; this is one admissible order. */
  function SortByDate(s: seq<Record>): (r: seq<Record>)
    ensures SortedByDate(r)
    ensures multiset(r) == multiset(s)
  {
    if s == [] then []
    else
      assert s == [s[0]] + s[1..];
      Insert(s[0], SortByDate(s[1..]))
  }

  /** `pid2name` behind the `pd.notna` guard. The column is empty exactly when the row has
      no pitcher id: a resolved name holds at least the separating space and the fallback at
      least one digit. */
  function PitcherName(pitcher: Option<int>, lookup: Resolver): (name: string)
    ensures name == "" <==> pitcher.None?
  {
    match pitcher
    case None => ""
    case Some(pid) =>
      match lookup(pid)
      case Some(name) => name.first + " " + name.last
      case None => Str(pid)
  }

  /** The `HR No` and `Pitcher` columns written onto the sorted rows. */
  function Number(s: seq<Record>, lookup: Resolver): (log: seq<HrEvent>)
    ensures Records(log) == s
    ensures forall i :: 0 <= i < |log| ==>
      log[i].hrNo == i + 1 && log[i].pitcherName == PitcherName(s[i].pitcher, lookup)
  {
    seq(|s|, i requires 0 <= i < |s| => HrEvent(s[i], i + 1, PitcherName(s[i].pitcher, lookup)))
  }

  /** The raw rows underneath a log. */
  function Records(log: seq<HrEvent>): seq<Record>
  {
    seq(|log|, i requires 0 <= i < |log| => log[i].record)
  }

  /** `fetch_hr_log` once `statcast_batter` has returned `raw`. */
  function FetchHrLog(raw: seq<Record>, team: string, lookup: Resolver): (log: seq<HrEvent>)
    ensures forall x :: multiset(Records(log))[x] == if Qualifies(team, x) then multiset(raw)[x] else 0
    // follows from the clause above; stated on its own for callers
    ensures forall e :: e in log ==> IsHomeRun(e.record) && Eligible(team, e.record.date)
    ensures SortedByDate(Records(log))
    ensures forall i :: 0 <= i < |log| ==> log[i].hrNo == i + 1
    ensures forall e :: e in log ==> e.pitcherName == PitcherName(e.record.pitcher, lookup)
  {
    if raw == [] then []
    else
      var season := Filter(raw, (r: Record) => Eligible(team, r.date));
      var hrs := SortByDate(Filter(season, IsHomeRun));
      QualifyingCount(raw, team, season, hrs);
      if hrs == [] then []
      else
        NumberKeepsRows(hrs, lookup, team);
        Number(hrs, lookup)
  }

  /** The two masks together keep exactly the qualifying rows, each as often as in `raw`. */
  lemma QualifyingCount(raw: seq<Record>, team: string, season: seq<Record>, hrs: seq<Record>)
    requires forall x :: multiset(season)[x] == if Eligible(team, x.date) then multiset(raw)[x] else 0
    requires multiset(hrs) == multiset(Filter(season, IsHomeRun))
    ensures forall x :: multiset(hrs)[x] == if Qualifies(team, x) then multiset(raw)[x] else 0
    ensures forall x :: x in hrs ==> Qualifies(team, x)
  {
  }

  /** Numbering keeps the sorted rows in place and writes `HR No` and `Pitcher` on each. */
  lemma NumberKeepsRows(s: seq<Record>, lookup: Resolver, team: string)
    requires forall x :: x in s ==> Qualifies(team, x)
    ensures forall e :: e in Number(s, lookup) ==>
      IsHomeRun(e.record) && Eligible(team, e.record.date)
      && e.pitcherName == PitcherName(e.record.pitcher, lookup)
  {
    var log := Number(s, lookup);
    forall e | e in log
      ensures IsHomeRun(e.record) && Eligible(team, e.record.date)
      ensures e.pitcherName == PitcherName(e.record.pitcher, lookup)
    {
      var i :| 0 <= i < |log| && log[i] == e;
      assert e.record == s[i] && s[i] in s;
    }
  }
}
