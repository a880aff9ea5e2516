/** The head-to-head comparison (app.py:213-244): the two players' logs, each tagged with
    its player, concatenated without renumbering; the chart then draws one series per tag. */
module HeadToHead {
  import opened Wrappers
  import opened HrLog

  /** A log row with the `Player` column added by `assign(Player=...)`. */
  datatype Tagged = Tagged(player: string, event: HrEvent)

  function Tag(player: string, log: seq<HrEvent>): (tagged: seq<Tagged>)
    ensures |tagged| == |log|
    ensures forall t :: t in tagged ==> t.player == player
    ensures forall i :: 0 <= i < |log| ==> tagged[i].event == log[i]
  {
    seq(|log|, i requires 0 <= i < |log| => Tagged(player, log[i]))
  }

  /** The merged frame, or `None` when either log is empty and no comparison is drawn. */
  function Merge(p1: string, log1: seq<HrEvent>, p2: string, log2: seq<HrEvent>): (m: Option<seq<Tagged>>)
    ensures m.Some? <==> log1 != [] && log2 != []
    ensures m.Some? ==> |m.value| == |log1| + |log2|
    ensures m.Some? ==> forall i :: 0 <= i < |log1| ==> m.value[i] == Tagged(p1, log1[i])
    ensures m.Some? ==> forall j :: 0 <= j < |log2| ==> m.value[|log1| + j] == Tagged(p2, log2[j])
  {
    if log1 != [] && log2 != [] then Some(Tag(p1, log1) + Tag(p2, log2)) else None
  }

  /** The rows of one player's series (`color='Player:N'` splits the merged frame by tag). */
  function Series(m: seq<Tagged>, player: string): (s: seq<HrEvent>)
    ensures |s| <= |m|
    ensures forall e :: e in s ==> Tagged(player, e) in m
  {
    if m == [] then []
    else (if m[0].player == player then [m[0].event] else []) + Series(m[1..], player)
  }

  lemma {:induction false} SeriesOfConcat(a: seq<Tagged>, b: seq<Tagged>, player: string)
    ensures Series(a + b, player) == Series(a, player) + Series(b, player)
    decreases |a|
  {
    if a != [] {
      assert (a + b)[1..] == a[1..] + b;
      SeriesOfConcat(a[1..], b, player);
    } else {
      assert a + b == b;
    }
  }

  lemma {:induction false} SeriesOfTag(log: seq<HrEvent>, p: string, player: string)
    ensures Series(Tag(p, log), player) == if p == player then log else []
    decreases |log|
  {
    if log != [] {
      assert Tag(p, log)[1..] == Tag(p, log[1..]);
      SeriesOfTag(log[1..], p, player);
      assert log == [log[0]] + log[1..];
    }
  }

  /** Splitting the merged frame by player gives back each player's own log, unchanged and in
      its own order, when the two players are different. */
  lemma MergeSplitsBack(p1: string, log1: seq<HrEvent>, p2: string, log2: seq<HrEvent>)
    requires p1 != p2
    requires log1 != [] && log2 != []
    ensures Series(Merge(p1, log1, p2, log2).value, p1) == log1
    ensures Series(Merge(p1, log1, p2, log2).value, p2) == log2
  {
    SeriesOfConcat(Tag(p1, log1), Tag(p2, log2), p1);
    SeriesOfConcat(Tag(p1, log1), Tag(p2, log2), p2);
    SeriesOfTag(log1, p1, p1);
    SeriesOfTag(log2, p2, p1);
    SeriesOfTag(log1, p1, p2);
    SeriesOfTag(log2, p2, p2);
  }

  /** Merging renumbers nothing: when each log is numbered 1..N as `fetch_hr_log` numbers
      it, the first player's rows keep `HR No` 1..N1 and the second player's rows 1..N2,
      each behind its own tag. */
  lemma MergeKeepsNumbering(p1: string, log1: seq<HrEvent>, p2: string, log2: seq<HrEvent>)
    requires log1 != [] && log2 != []
    requires forall i :: 0 <= i < |log1| ==> log1[i].hrNo == i + 1
    requires forall i :: 0 <= i < |log2| ==> log2[i].hrNo == i + 1
    ensures
      var m := Merge(p1, log1, p2, log2).value;
      forall k :: 0 <= k < |m| ==>
        if k < |log1| then m[k].player == p1 && m[k].event.hrNo == k + 1
        else m[k].player == p2 && m[k].event.hrNo == k - |log1| + 1
  {
  }

  /** The comparison of two derived logs is drawn exactly when both players have a
      qualifying home run, and then keeps both numberings. */
  lemma DerivedLogsMerge(
    p1: string, raw1: seq<Record>, team1: string,
    p2: string, raw2: seq<Record>, team2: string, lookup: Resolver)
    ensures
      var log1 := FetchHrLog(raw1, team1, lookup);
      var log2 := FetchHrLog(raw2, team2, lookup);
      Merge(p1, log1, p2, log2).Some? ==>
        forall k :: 0 <= k < |Merge(p1, log1, p2, log2).value| ==>
          Merge(p1, log1, p2, log2).value[k].event.hrNo
            == if k < |log1| then k + 1 else k - |log1| + 1
  {
  }
}
