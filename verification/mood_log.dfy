/**
  The mood log: a `std::map<std::string, int>` from timestamp to mood score.
  A `std::map` is a search tree whose in-order walk visits its keys in
  ascending order, so the log is modelled by that walk: a sequence of entries
  whose keys strictly increase. `View` gives the plain key-to-score mapping.
 */
module MoodLog {
  import opened Wrappers
  import opened StringOrder

  /** One stored pair of the map: timestamp key and mood score. */
  datatype Entry = Entry(key: string, score: int)

  type Log = seq<Entry>

  /** The accepted score range of `log_mood`. */
  const MinScore: int := 1
  const MaxScore: int := 10

  /** The in-order walk of a map: keys strictly increase, hence are unique. */
  predicate Sorted(log: Log)
  {
    forall i, j :: 0 <= i < j < |log| ==> Less(log[i].key, log[j].key)
  }

  /** Every stored score lies in [MinScore, MaxScore]. */
  predicate ScoresInRange(log: Log)
  {
    forall e :: e in log ==> MinScore <= e.score <= MaxScore
  }

  /** The key-to-score mapping the log stands for. */
  function View(log: Log): map<string, int>
  {
    if |log| == 0 then map[] else View(log[1..])[log[0].key := log[0].score]
  }

  /** The keys of the view are exactly the keys of the entries. */
  lemma {:induction false} ViewDomain(log: Log, k: string)
    ensures k in View(log) <==> exists e :: e in log && e.key == k
    decreases |log|
  {
    if |log| > 0 {
      ViewDomain(log[1..], k);
      assert forall e :: e in log <==> e == log[0] || e in log[1..];
    }
  }

  /** In a sorted log every entry's score is what the view holds for its key. */
  lemma {:induction false} ViewAt(log: Log, e: Entry)
    requires Sorted(log)
    requires e in log
    ensures e.key in View(log) && View(log)[e.key] == e.score
    decreases |log|
  {
    if e != log[0] {
      var i :| 0 <= i < |log| && log[i] == e;
      LessIrreflexive(log[0].key);
      assert e in log[1..] && e.key != log[0].key;
      ViewAt(log[1..], e);
    }
  }

  /** A key below the first key of a sorted log is below all of its keys, so
      it is not in the log. */
  lemma BelowAll(log: Log, key: string)
    requires Sorted(log) && |log| > 0
    requires Less(key, log[0].key)
    ensures forall i :: 0 <= i < |log| ==> Less(key, log[i].key)
    ensures key !in View(log)
  {
    forall i | 0 < i < |log|
      ensures Less(key, log[i].key)
    {
      LessTransitive(key, log[0].key, log[i].key);
    }
    ViewDomain(log, key);
    if key in View(log) {
      var e :| e in log && e.key == key;
      var i :| 0 <= i < |log| && log[i] == e;
      LessIrreflexive(key);
      assert false;
    }
  }

  /** What `mood_log[key] = score` promises of the resulting log `r`: it is
      still sorted, it holds no entry but the new one and old ones, and its
      view is the old view with `key` mapped to `score`. */
  ghost predicate Assigned(log: Log, key: string, score: int, r: Log)
  {
    && Sorted(r)
    && (forall e :: e in r ==> e == Entry(key, score) || e in log)
    && View(r) == View(log)[key := score]
  }

  /** Assigning past the first key keeps the first entry in front. */
  lemma AssignAfterHead(log: Log, key: string, score: int, rest: Log)
    requires Sorted(log) && |log| > 0
    requires Less(log[0].key, key)
    requires Assigned(log[1..], key, score, rest)
    ensures Assigned(log, key, score, [log[0]] + rest)
  {
    var head, r := log[0], [log[0]] + rest;
    forall j | 0 < j < |r|
      ensures Less(head.key, r[j].key)
    {
      assert r[j] == rest[j - 1];
      assert r[j] in rest;
      if r[j] != Entry(key, score) {
        var i :| 0 <= i < |log[1..]| && log[1..][i] == r[j];
        assert log[i + 1] == r[j];
      }
    }
    assert Sorted(r);
    assert forall e :: e in r ==> e == head || e in rest;
    assert forall e :: e in log[1..] ==> e in log;
    LessIrreflexive(key);
    assert View(r) == View(rest)[head.key := head.score];
    assert View(log) == View(log[1..])[head.key := head.score];
  }

  /** `mood_log[key] = score`: overwrite the entry at `key`, or insert a new
      one at its place in key order. */
  function Insert(log: Log, key: string, score: int): (r: Log)
    requires Sorted(log)
    ensures Sorted(r)
    ensures forall e :: e in r ==> e == Entry(key, score) || e in log
    ensures View(r) == View(log)[key := score]
    decreases |log|
  {
    if |log| == 0 then
      [Entry(key, score)]
    else if key == log[0].key then
      [Entry(key, score)] + log[1..]
    else if Less(key, log[0].key) then
      BelowAll(log, key);
      [Entry(key, score)] + log
    else
      LessTotal(key, log[0].key);
      var rest := Insert(log[1..], key, score);
      AssignAfterHead(log, key, score, rest);
      [log[0]] + rest
  }

  /** A sorted log has as many entries as its view has keys. */
  lemma {:induction false} SortedViewSize(log: Log)
    requires Sorted(log)
    ensures |View(log)| == |log|
    decreases |log|
  {
    if |log| > 0 {
      HeadNotInTail(log);
      SortedViewSize(log[1..]);
    }
  }

  /** Assigning at a key above every key of the log appends the new entry at
      the end: the usual case, where the clock has moved past every earlier
      entry. */
  lemma {:induction false} AssignAfterLatestAppends(log: Log, key: string, score: int)
    requires Sorted(log)
    requires forall e :: e in log ==> Less(e.key, key)
    ensures Insert(log, key, score) == log + [Entry(key, score)]
    decreases |log|
  {
    if |log| > 0 {
      var head, tail := log[0], log[1..];
      assert head in log;
      LessIrreflexive(key);
      LessAsymmetric(head.key, key);
      assert key != head.key && !Less(key, head.key);
      assert Insert(log, key, score) == [head] + Insert(tail, key, score);
      assert forall e :: e in tail ==> e in log;
      AssignAfterLatestAppends(tail, key, score);
      assert [head] + (tail + [Entry(key, score)]) == log + [Entry(key, score)];
    }
  }

  /** A sorted log is determined by its view: two sorted logs holding the
      same key-to-score mapping are the same sequence. */
  lemma {:induction false} SortedViewUnique(a: Log, b: Log)
    requires Sorted(a) && Sorted(b)
    requires View(a) == View(b)
    ensures a == b
    decreases |a|
  {
    if |a| == 0 || |b| == 0 {
      if |a| > 0 {
        ViewAt(a, a[0]);
      } else if |b| > 0 {
        ViewAt(b, b[0]);
      }
    } else {
      ViewAt(a, a[0]);
      ViewAt(b, b[0]);
      if a[0].key != b[0].key {
        HeadIsLeast(a, b[0].key);
        HeadIsLeast(b, a[0].key);
        LessAsymmetric(a[0].key, b[0].key);
        assert false;
      }
      ViewOfTail(a);
      ViewOfTail(b);
      SortedViewUnique(a[1..], b[1..]);
      assert a == [a[0]] + a[1..] && b == [b[0]] + b[1..];
    }
  }

  /** Every key of a sorted log other than its first is above its first. */
  lemma HeadIsLeast(log: Log, k: string)
    requires Sorted(log) && |log| > 0
    requires k in View(log) && k != log[0].key
    ensures Less(log[0].key, k)
  {
    ViewDomain(log, k);
    var e :| e in log && e.key == k;
    var i :| 0 <= i < |log| && log[i] == e;
  }

  /** The first key of a sorted log does not occur again in its tail. */
  lemma HeadNotInTail(log: Log)
    requires Sorted(log) && |log| > 0
    ensures log[0].key !in View(log[1..])
  {
    ViewDomain(log[1..], log[0].key);
    LessIrreflexive(log[0].key);
    forall i | 1 <= i < |log|
      ensures log[i].key != log[0].key
    {
    }
  }

  /** Dropping the first entry of a sorted log drops exactly its key. */
  lemma ViewOfTail(log: Log)
    requires Sorted(log) && |log| > 0
    ensures View(log[1..]) == View(log) - {log[0].key}
  {
    HeadNotInTail(log);
    var k := log[0].key;
    var tail := View(log[1..]);
    assert View(log) == tail[k := log[0].score];
    assert tail[k := log[0].score] - {k} == tail;
  }

  /** The score check of `log_mood`: the input parsed as an integer and the
      integer lies in [MinScore, MaxScore]. */
  predicate Accepted(input: Option<int>)
  {
    input.Some? && MinScore <= input.value <= MaxScore
  }

  /** `log_mood`: `input` is the result of reading an integer (None when the
      read failed) and `now` the timestamp of the moment of logging. */
  function LogMood(log: Log, input: Option<int>, now: string): (r: Log)
    requires Sorted(log)
    ensures Sorted(r)
    ensures !Accepted(input) ==> r == log
    ensures Accepted(input) ==> View(r) == View(log)[now := input.value]
    ensures |r| == if Accepted(input) && now !in View(log) then |log| + 1 else |log|
    ensures ScoresInRange(log) ==> ScoresInRange(r)
  {
    if !Accepted(input) then
      log
    else
      var r := Insert(log, now, input.value);
      SortedViewSize(log);
      SortedViewSize(r);
      r
  }

  /** Logging an accepted score at a timestamp later than the newest one
      appends the entry at the end of the walk. */
  lemma LogAfterLatestAppends(log: Log, input: Option<int>, now: string)
    requires Sorted(log)
    requires Accepted(input)
    requires |log| == 0 || Less(log[|log| - 1].key, now)
    ensures LogMood(log, input, now) == log + [Entry(now, input.value)]
  {
    forall e | e in log
      ensures Less(e.key, now)
    {
      var i :| 0 <= i < |log| && log[i] == e;
      if i < |log| - 1 {
        LessTransitive(e.key, log[|log| - 1].key, now);
      }
    }
    AssignAfterLatestAppends(log, now, input.value);
  }

  /** Logging twice at the same timestamp keeps only the later score: the
      entry is overwritten, not duplicated. */
  lemma SameTimestampOverwrites(log: Log, first: Option<int>, second: Option<int>, now: string)
    requires Sorted(log)
    requires Accepted(second)
    ensures LogMood(LogMood(log, first, now), second, now) == LogMood(log, second, now)
  {
    var mid := LogMood(log, first, now);
    var a := LogMood(mid, second, now);
    var b := LogMood(log, second, now);
    assert View(a) == View(mid)[now := second.value];
    assert View(b) == View(log)[now := second.value];
    if Accepted(first) {
      assert View(mid) == View(log)[now := first.value];
      assert View(log)[now := first.value][now := second.value] == View(log)[now := second.value];
    }
    SortedViewUnique(a, b);
  }

  /** Entries logged at distinct timestamps give the same log whatever the
      order they were logged in. */
  lemma DistinctTimestampsCommute(log: Log, s1: Option<int>, t1: string, s2: Option<int>, t2: string)
    requires Sorted(log)
    requires t1 != t2
    ensures LogMood(LogMood(log, s1, t1), s2, t2) == LogMood(LogMood(log, s2, t2), s1, t1)
  {
    var m1, m2 := LogMood(log, s1, t1), LogMood(log, s2, t2);
    var a, b := LogMood(m1, s2, t2), LogMood(m2, s1, t1);
    var v := View(log);
    if Accepted(s1) && Accepted(s2) {
      assert View(a) == v[t1 := s1.value][t2 := s2.value];
      assert View(b) == v[t2 := s2.value][t1 := s1.value];
      assert v[t1 := s1.value][t2 := s2.value] == v[t2 := s2.value][t1 := s1.value];
    } else if Accepted(s1) {
      assert a == m1 && b == m1;
    } else {
      assert m1 == log && b == m2;
    }
    SortedViewUnique(a, b);
  }
}
