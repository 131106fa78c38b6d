/**
  `analyze_mood`: the mean score of the newest entries of the log, found by
  walking the map backwards from its greatest key for at most three steps.
 */
module MoodAnalysis {
  import opened StringOrder
  import opened MoodLog

  /** The number of entries the backward walk visits at most. */
  const WindowSize: nat := 3

  /** The value `analyze_mood` returns for an empty log. */
  const NoData: real := -1.0

  function Min(a: nat, b: nat): nat
  {
    if a <= b then a else b
  }

  /** The entries visited by the backward walk, newest first. */
  function Window(log: Log): (w: seq<Entry>)
    ensures |w| == Min(WindowSize, |log|)
    ensures forall i :: 0 <= i < |w| ==> w[i] == log[|log| - 1 - i]
    ensures Sorted(log) ==> forall i, j :: 0 <= i < j < |w| ==> Less(w[j].key, w[i].key)
  {
    var n := Min(WindowSize, |log|);
    seq(n, i requires 0 <= i < n => log[|log| - 1 - i])
  }

  /** The sum of the scores of some entries. */
  function ScoreSum(es: seq<Entry>): int
  {
    if |es| == 0 then 0 else ScoreSum(es[..|es| - 1]) + es[|es| - 1].score
  }

  /** Scores of entries that are each in range add up to a total in range
      for their number. */
  lemma {:induction false} ScoreSumBounds(es: seq<Entry>)
    requires forall e :: e in es ==> MinScore <= e.score <= MaxScore
    ensures |es| * MinScore <= ScoreSum(es) <= |es| * MaxScore
    decreases |es|
  {
    if |es| > 0 {
      var init := es[..|es| - 1];
      assert forall e :: e in init ==> e in es;
      ScoreSumBounds(init);
    }
  }

  /** The window of a log whose scores are in range sums to a total in range
      for the window's size. */
  lemma WindowSumBounds(log: Log)
    ensures ScoresInRange(log) ==>
      |Window(log)| * MinScore <= ScoreSum(Window(log)) <= |Window(log)| * MaxScore
  {
    if ScoresInRange(log) {
      var w := Window(log);
      assert forall e :: e in w ==> e in log;
      ScoreSumBounds(w);
    }
  }

  lemma ScoreSumOfThree(a: Entry, b: Entry, c: Entry)
    ensures ScoreSum([a, b, c]) == a.score + b.score + c.score
  {
    assert [a][..0] == [];
    assert ScoreSum([a]) == a.score;
    assert [a, b][..1] == [a];
    assert ScoreSum([a, b]) == a.score + b.score;
    assert [a, b, c][..2] == [a, b];
  }

  /** The value of `analyze_mood`: the no-data sentinel on an empty log and
      otherwise the exact mean of the window's scores. */
  function RecentAverage(log: Log): (avg: real)
    ensures |log| == 0 ==> avg == NoData
    ensures |log| > 0 && ScoresInRange(log) ==> MinScore as real <= avg <= MaxScore as real
    ensures |log| == 1 ==> avg == log[0].score as real
  {
    if |log| == 0 then
      NoData
    else
      var w := Window(log);
      var n := |w| as real;
      var total := ScoreSum(w) as real;
      WindowSumBounds(log);
      assert |log| == 1 ==> w[..0] == [] && ScoreSum(w) == log[0].score;
      total / n
  }

  /** `analyze_mood` as the source computes it: collect the scores met by the
      backward walk, then accumulate them from 0.0 and divide by their count. */
  method AnalyzeMood(log: Log) returns (avg: real)
    ensures avg == RecentAverage(log)
  {
    if |log| == 0 {
      return NoData;
    }
    var recent: seq<int> := [];
    var i := 0;
    var it := |log|;  // the backward walk's next entry is log[it - 1]
    while i < WindowSize && it > 0
      invariant 0 <= i <= WindowSize && i <= |log|
      invariant it == |log| - i
      invariant |recent| == i
      invariant forall j :: 0 <= j < i ==> recent[j] == log[|log| - 1 - j].score
    {
      recent := recent + [log[it - 1].score];
      i := i + 1;
      it := it - 1;
    }
    ghost var w := Window(log);
    assert |recent| == |w|;
    var total := 0.0;
    var j := 0;
    while j < |recent|
      invariant 0 <= j <= |recent|
      invariant total == ScoreSum(w[..j]) as real
    {
      assert w[..j + 1][..j] == w[..j];
      total := total + recent[j] as real;
      j := j + 1;
    }
    assert w[..j] == w;
    avg := total / (|recent| as real);
  }

  /** How many entries of the log have a key greater than `k`. */
  function CountNewer(log: Log, k: string): (c: nat)
    ensures c <= |log|
  {
    if |log| == 0 then 0
    else (if Less(k, log[0].key) then 1 else 0) + CountNewer(log[1..], k)
  }

  lemma {:induction false} AllNewer(log: Log, k: string)
    requires forall e :: e in log ==> Less(k, e.key)
    ensures CountNewer(log, k) == |log|
    decreases |log|
  {
    if |log| > 0 {
      assert log[0] in log;
      assert forall e :: e in log[1..] ==> e in log;
      AllNewer(log[1..], k);
    }
  }

  /** In a sorted log, the entry at position `i` has exactly the entries
      after it as newer ones. */
  lemma {:induction false} CountNewerAt(log: Log, i: nat)
    requires Sorted(log)
    requires i < |log|
    ensures CountNewer(log, log[i].key) == |log| - 1 - i
    decreases |log|
  {
    if i == 0 {
      LessIrreflexive(log[0].key);
      assert forall e :: e in log[1..] ==> Less(log[0].key, e.key);
      AllNewer(log[1..], log[0].key);
    } else {
      LessAsymmetric(log[0].key, log[i].key);
      assert log[1..][i - 1] == log[i];
      CountNewerAt(log[1..], i - 1);
    }
  }

  /** The window holds exactly the entries of the log that fewer than
      WindowSize other entries are newer than; no other entry contributes. */
  lemma WindowMembership(log: Log, e: Entry)
    requires Sorted(log)
    ensures e in Window(log) <==> e in log && CountNewer(log, e.key) < WindowSize
  {
    var w := Window(log);
    if e in w {
      var j :| 0 <= j < |w| && w[j] == e;
      CountNewerAt(log, |log| - 1 - j);
    }
    if e in log {
      var i :| 0 <= i < |log| && log[i] == e;
      CountNewerAt(log, i);
      if |log| - 1 - i < WindowSize {
        assert w[|log| - 1 - i] == e;
      }
    }
  }

  /** The average depends only on which score is stored at which timestamp,
      not on the order in which the entries were logged. */
  lemma AverageDependsOnlyOnView(a: Log, b: Log)
    requires Sorted(a) && Sorted(b)
    requires View(a) == View(b)
    ensures RecentAverage(a) == RecentAverage(b)
  {
    SortedViewUnique(a, b);
  }
}
