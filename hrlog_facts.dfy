/** What `fetch_hr_log` promises about its output, stated over the model in HrLog. */
module HrLogFacts {
  import opened Wrappers
  import opened Season
  import opened Decimal
  import opened HrLog

  /** The log is empty exactly when no raw row is a qualifying home run; an empty fetch and a
      fetch with nothing qualifying both end here, never in an error. */
  lemma EmptyLogIffNothingQualifies(raw: seq<Record>, team: string, lookup: Resolver)
    ensures FetchHrLog(raw, team, lookup) == [] <==> forall x :: x in raw ==> !Qualifies(team, x)
  {
  }

  /** A team without Tokyo games has no home run before the regular-season start in its log,
      whatever pre-season rows the event source returned. */
  lemma NoPreseasonForOtherTeams(raw: seq<Record>, team: string, lookup: Resolver)
    requires team !in ExceptedTeams
    ensures forall e :: e in FetchHrLog(raw, team, lookup) ==> !Before(e.record.date, RegularStart)
  {
  }

  /** For LAD and CHC a home run on a Tokyo Series day is kept, as often as it was fetched. */
  lemma TokyoHomeRunKept(raw: seq<Record>, team: string, lookup: Resolver, x: Record)
    requires team in ExceptedTeams
    requires x in raw && IsHomeRun(x) && x.date in TokyoDays
    ensures multiset(Records(FetchHrLog(raw, team, lookup)))[x] == multiset(raw)[x] > 0
    // the same fact as a position in the log
    ensures exists i :: 0 <= i < |FetchHrLog(raw, team, lookup)| && FetchHrLog(raw, team, lookup)[i].record == x
  {
  }

  /** Any other pre-season home run is dropped, for every team. */
  lemma OtherPreseasonHomeRunDropped(raw: seq<Record>, team: string, lookup: Resolver, x: Record)
    requires Before(x.date, RegularStart) && x.date !in TokyoDays
    ensures forall e :: e in FetchHrLog(raw, team, lookup) ==> e.record != x
  {
  }

  /** Removing one row from a date-sorted sequence leaves it sorted. */
  lemma RemoveAtKeepsSorted(b: seq<Record>, j: int)
    requires SortedByDate(b) && 0 <= j < |b|
    ensures SortedByDate(b[..j] + b[j + 1..])
    ensures multiset(b[..j] + b[j + 1..]) == multiset(b) - multiset{b[j]}
  {
    var b' := b[..j] + b[j + 1..];
    assert b == b[..j] + [b[j]] + b[j + 1..];
    forall p, q | 0 <= p < q < |b'| ensures !Before(b'[q].date, b'[p].date) {
      var p' := if p < j then p else p + 1;
      var q' := if q < j then q else q + 1;
      assert b'[p] == b[p'] && b'[q] == b[q'];
    }
  }

  /** In a date-sorted sequence, rows between two rows of the same date share that date. */
  lemma SameDateRun(b: seq<Record>, j: int)
    requires SortedByDate(b) && 0 <= j < |b| && b[0].date == b[j].date
    ensures forall i :: 0 <= i <= j ==> b[i].date == b[j].date
  {
  }

  /** A row of `b` sharing the first date of `a`, when both are sorted arrangements of the
      same rows. */
  lemma FirstDateMatch(a: seq<Record>, b: seq<Record>) returns (j: int)
    requires SortedByDate(a) && SortedByDate(b)
    requires a != [] && multiset(a) == multiset(b)
    ensures 0 <= j < |b| && b[j] == a[0] && b[0].date == a[0].date
  {
    assert a[0] in multiset(b);
    j :| 0 <= j < |b| && b[j] == a[0];
    assert b[0] in multiset(a);
    var k :| 0 <= k < |a| && a[k] == b[0];
    BeforeIsStrictTotalOrder(a[0].date, b[0].date, a[0].date);
  }

  /** Dates of `b` read past the removed position `j`, given the dates of the rest. */
  lemma DatesAcrossRemoval(a: seq<Record>, b: seq<Record>, j: int)
    requires 0 <= j < |b| && |a| == |b|
    requires forall i :: 0 <= i <= j ==> b[i].date == b[j].date
    requires a[0].date == b[j].date
    requires forall i :: 0 <= i < |a| - 1 ==> a[1..][i].date == (b[..j] + b[j + 1..])[i].date
    ensures forall i :: 0 <= i < |a| ==> a[i].date == b[i].date
  {
    forall i | 0 < i < |a| ensures a[i].date == b[i].date {
      assert a[i] == a[1..][i - 1];
      if i <= j {
        assert (b[..j] + b[j + 1..])[i - 1] == b[i - 1];
      } else {
        assert (b[..j] + b[j + 1..])[i - 1] == b[i];
      }
    }
  }

  /** Two date-sorted arrangements of the same rows have the same date at every position. */
  lemma {:induction false} SortedPermutationsAgreeOnDates(a: seq<Record>, b: seq<Record>)
    requires SortedByDate(a) && SortedByDate(b)
    requires multiset(a) == multiset(b)
    ensures |a| == |b|
    ensures forall i :: 0 <= i < |a| ==> a[i].date == b[i].date
    decreases |a|
  {
    assert |a| == |multiset(a)| == |multiset(b)| == |b|;
    if a != [] {
      var j := FirstDateMatch(a, b);
      SameDateRun(b, j);
      RemoveAtKeepsSorted(b, j);
      assert a == [a[0]] + a[1..];
      assert multiset(a[1..]) == multiset(a) - multiset{a[0]};
      SortedPermutationsAgreeOnDates(a[1..], b[..j] + b[j + 1..]);
      DatesAcrossRemoval(a, b, j);
    }
  }

  /** The source's date sort is not stable, so rows sharing a date may come out in another
      order; any such order gives the same date for every `HR No`, so the pace chart
      (`HR No` against date) does not depend on it. */
  lemma ChartIndependentOfTieOrder(raw: seq<Record>, team: string, lookup: Resolver, other: seq<Record>)
    requires SortedByDate(other)
    requires forall x :: multiset(other)[x] == if Qualifies(team, x) then multiset(raw)[x] else 0
    ensures |other| == |FetchHrLog(raw, team, lookup)|
    ensures forall i :: 0 <= i < |other| ==>
      FetchHrLog(raw, team, lookup)[i].record.date == other[i].date
      && FetchHrLog(raw, team, lookup)[i].hrNo == i + 1
  {
    var log := FetchHrLog(raw, team, lookup);
    assert multiset(Records(log)) == multiset(other);
    SortedPermutationsAgreeOnDates(Records(log), other);
  }

  /** A failed lookup leaves the id itself in the `Pitcher` column, readable back as a number. */
  lemma FailedLookupKeepsId(pid: int, lookup: Resolver)
    requires lookup(pid).None?
    ensures PitcherName(Some(pid), lookup) == Str(pid)
    ensures IsDecimal(PitcherName(Some(pid), lookup))
    ensures Value(PitcherName(Some(pid), lookup)) == pid
  {
    StrRoundTrip(pid);
  }

  /** A successful lookup gives "first last". */
  lemma ResolvedName(pid: int, lookup: Resolver, first: string, last: string)
    requires lookup(pid) == Some(PersonName(first, last))
    ensures PitcherName(Some(pid), lookup) == first + " " + last
  {
  }
}
