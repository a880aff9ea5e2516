# MLB home-run pace tracker: the home-run log derivation

This project models the one piece of logic in the 2025 home-run pace tracker (a Streamlit
app): how a batter's raw Statcast per-pitch rows become the home-run log that is shown in
the table and drawn as a cumulative-count chart. The modelled steps are:

- the season-window eligibility mask. LAD and CHC keep rows dated on the two Tokyo Series
  days (2025-03-18 and 2025-03-19). Every team keeps rows dated on or after the
  regular-season start, 2025-03-27. All other rows are dropped;
- the selection of rows whose `events` is `home_run`;
- the sort by date;
- the `HR No` numbering 1..N;
- the `Pitcher` column: empty without a pitcher id, the id as text when the name lookup
  fails, and "first last" otherwise;
- the head-to-head merge of two players' logs;
- the sidebar's pre-season warning.

Everything is modelled as pure functions over sequences of rows. In the source, `Date` is
written into the fetched frame before the mask (app.py:94), and `HR No` and `Pitcher` are
written in place into the sorted copy (app.py:110, 119). None of these writes carries an
invariant of its own, so each becomes a function that returns the rows with the column filled in.

Modules:

- `Wrappers` (wrappers.dfy): `Option`.
- `Seqs` (seqs.dfy): `Filter`, the boolean-mask row selection.
- `Decimal` (decimal.dfy): Python's `str` of an int, with its inverse.
- `Season` (season.dfy): dates, the season constants, the eligibility rule and the warning.
- `HrLog` (hrlog.dfy): rows, the date sort, numbering, pitcher names, `FetchHrLog`.
- `HrLogFacts` (hrlog_facts.dfy): the properties of the derived log.
- `HeadToHead` (headtohead.dfy): the tagged merge and the per-player series of the chart.

The event source (`statcast_batter`) is represented by its result, an arbitrary
`seq<Record>`: it is not trusted to respect season boundaries. The reverse name lookup
(`playerid_reverse_lookup`) is a total function `int -> Option<PersonName>`, where `None`
stands for any exception raised in the `try` body: the lookup itself, the indexing of its
result, or the concatenation of the two names.

Two behaviours one might expect are not what the code does, and the model follows the code:

- Rows sharing a date (a doubleheader) might be expected to keep their fetched order. The
  code calls `sort_values('Date')` with pandas' default quicksort, which is not stable. So
  the model promises only a date-sorted permutation. `HrLogFacts.ChartIndependentOfTieOrder`
  shows that every such order puts the same date at every `HR No`.
- The derivation might be expected never to raise. In the code, a malformed `game_date`
  makes `pd.to_datetime` raise, and a failing fetch propagates. The model receives dates
  already parsed and a fetched sequence, so neither failure is represented.

## Model

| member | source | states |
|---|---|---|
| `Seqs.Filter` | app.py:97-102 | the mask selection keeps exactly the rows satisfying the mask; every row keeps its multiplicity and nothing is added |
| `Decimal.Str` | app.py:118 | `str(pid)` is never empty, starts with '-' exactly for a negative id, and has no leading zero: "0" is the only text starting with '0', and no '0' follows the sign |
| `Decimal.Digits` | app.py:118 | `str` of a non-negative id is a non-empty run of decimal digits with no leading zero; 0 gives exactly "0" |
| `Decimal.StrRoundTrip` | app.py:118 | the fallback text `str(pid)` is well-formed decimal and reads back as `pid` |
| `Decimal.StrInjective` | app.py:118 | two different ids never give the same fallback text |
| `Season.Eligible` | app.py:95-99 | the mask keeps every date from 2025-03-27 on, for every team; a kept date is either on or after 2025-03-27 or a Tokyo day for LAD or CHC |
| `Season.PreSeasonWarning` | app.py:155-156 | when the warning fires, the chosen start day itself is dropped by the team's mask |
| `Season.EligibleBeforeRegularStart` | app.py:95-99 | before 2025-03-27 a date is eligible only for LAD or CHC and only on 2025-03-18 or 2025-03-19 |
| `Season.WarningIffWindowLosesDays` | app.py:153-158 | for a team other than LAD and CHC, the warning fires exactly when some date on or after the chosen start is dropped by the mask |
| `Season.NoWarningForTokyoTeams` | app.py:155 | LAD and CHC never get the pre-season warning |
| `HrLog.Insert` | app.py:104 | inserting a row into a date-sorted log keeps it sorted and adds exactly that row |
| `HrLog.SortByDate` | app.py:104 | the sort returns a date-ascending permutation of its input |
| `HrLog.QualifyingCount` | app.py:95-102 | the eligibility mask followed by the home-run selection keeps exactly the qualifying home runs, each as often as fetched |
| `HrLog.NumberKeepsRows` | app.py:110-120 | when every sorted row qualifies, every numbered row is a home run on an eligible date and carries the pitcher name of its own pitcher id |
| `HrLog.PitcherName` | app.py:113-120 | the `Pitcher` value is empty exactly when the row has no pitcher id |
| `HrLog.Number` | app.py:110-120 | the numbered log holds the sorted rows in order; row i has `HR No` i+1 and the pitcher name of its own pitcher id |
| `HrLog.FetchHrLog` | app.py:84-122 | the log is a permutation of the qualifying home runs; every row is a home run on an eligible date; rows are sorted by date; row i has `HR No` i+1; `Pitcher` comes from the pitcher id |
| `HrLogFacts.EmptyLogIffNothingQualifies` | app.py:91-108 | the log is empty exactly when no fetched row is a qualifying home run; an empty fetch gives an empty log, never an error |
| `HrLogFacts.NoPreseasonForOtherTeams` | app.py:98-100 | for a team other than LAD and CHC, no logged home run is dated before 2025-03-27, whatever the fetch returned |
| `HrLogFacts.TokyoHomeRunKept` | app.py:95-97 | for LAD and CHC, a home run dated on a Tokyo Series day is kept as many times as it was fetched |
| `HrLogFacts.OtherPreseasonHomeRunDropped` | app.py:95-100 | a home run before 2025-03-27 on a day other than the Tokyo days is dropped for every team |
| `HrLogFacts.SortedPermutationsAgreeOnDates` | app.py:104 | any two date-sorted orders of the same rows have the same date at every position |
| `HrLogFacts.ChartIndependentOfTieOrder` | app.py:104-110 | any date-sorted order of the qualifying home runs puts the same date at each `HR No` as the modelled log |
| `HrLogFacts.FailedLookupKeepsId` | app.py:117-118 | when the lookup fails, the `Pitcher` column is exactly `str(pid)`, which is decimal text that reads back as that id |
| `HrLogFacts.ResolvedName` | app.py:115-116 | when the lookup succeeds, the `Pitcher` column is the first name, a space, then the last name |
| `HeadToHead.Merge` | app.py:213-219 | the comparison exists only when both logs are non-empty; its length is the sum of the two lengths; the first log comes first, tagged with the first player, then the second log, tagged with the second player |
| `HeadToHead.Tag` | app.py:217-218 | `assign(Player=...)` keeps the log's rows in order and tags every one with the given player |
| `HeadToHead.Series` | app.py:231-242 | one player's chart series draws only rows of the merged frame tagged with that player, and no more rows than the frame has |
| `HeadToHead.MergeSplitsBack` | app.py:216-242 | for two different players, the chart's per-player series of the merged frame give back each player's log unchanged and in order |
| `HeadToHead.MergeKeepsNumbering` | app.py:216-219 | the merge renumbers nothing: the first player's rows keep `HR No` 1..N1 and the second player's rows keep 1..N2 |
| `HeadToHead.DerivedLogsMerge` | app.py:175-219 | when two derived logs are merged, every merged row carries its own player's `HR No` |

## Left out

- `statcast_batter` (the per-player event fetch) and the caller's start/end window. The
  model takes the fetched rows as an arbitrary input sequence, and a fetch that raises is
  not modelled.
- `playerid_reverse_lookup`: a parameter of the model, total, with `None` for any exception.
- `pd.to_datetime` parsing of `game_date`: dates arrive as (year, month, day) values, so a
  malformed date string, which raises in the source, is not modelled.
- The `MM-DD` display column (`strftime`): date formatting, not modelled.
- Columns other than date, `events`, `pitcher`, `home_team` and `away_team`: the source
  carries them through unchanged, and the model does not represent them.
- `HrLog.PitcherName`: the id is a Python int here. If a missing pitcher made pandas store
  the column as floats, `str` would give text such as `543037.0`; that case is not modelled.
- The name lookup is one function for the whole derivation, so every row with the same
  pitcher id gets the same `Pitcher` text. The source calls the lookup once per row, so a
  transient failure can give two rows of the same pitcher different text; that is not modelled.
- A missing or empty `game_date` becomes NaT without raising, and both mask branches then
  drop the row. The model's dates are always present, so such a row is not represented.
- When the fetch is empty, the source returns the raw empty frame, whose columns differ from
  the log's. The model returns the empty sequence in both empty cases.
- `build_star_players` (roster fetch with a 12-hour cache), `get_player_image`, the Streamlit
  widgets, the Altair chart construction, the colour constants and the default player and
  team selection: network I/O, caching and presentation.
