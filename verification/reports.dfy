/**
 * The reporting helpers of `BehaviorScorer` (backend/behavior_scorer.py):
 * the violation summary, grouping the log by type or by severity, and the
 * timeline sorted by timestamp.
 */
module Reports {
  import opened Options
  import opened Violations
  import opened Scorer
  import opened ScorerInvariants

  function TypeOf(v: Violation): ViolationType { v.vtype }

  function SeverityOf(v: Violation): Severity { v.severity }

  /** The records of `log` whose key is `k`, in log order. */
  function Select<K(==)>(log: seq<Violation>, key: Violation -> K, k: K): (r: seq<Violation>)
    ensures |r| <= |log|
    ensures forall i :: 0 <= i < |r| ==> key(r[i]) == k && r[i] in log
    ensures forall i :: 0 <= i < |log| && key(log[i]) == k ==> log[i] in r
    decreases |log|
  {
    if log == [] then []
    else
      var prev := Select(log[..|log| - 1], key, k);
      var v := log[|log| - 1];
      assert forall i :: 0 <= i < |log| - 1 ==> log[i] == log[..|log| - 1][i];
      if key(v) == k then prev + [v] else prev
  }

  lemma SelectSnoc<K>(log: seq<Violation>, v: Violation, key: Violation -> K)
    ensures forall k :: Select(log + [v], key, k) == Select(log, key, k) + (if key(v) == k then [v] else [])
  {
    assert (log + [v])[..|log|] == log;
  }

  /** The keys occurring in `log`. */
  function Keys<K(==)>(log: seq<Violation>, key: Violation -> K): set<K>
  {
    set i | 0 <= i < |log| :: key(log[i])
  }

  lemma KeysSnoc<K>(log: seq<Violation>, v: Violation, key: Violation -> K)
    ensures Keys(log + [v], key) == Keys(log, key) + {key(v)}
  {
    var l := log + [v];
    assert key(l[|log|]) in Keys(l, key);
    forall k | k in Keys(log, key) ensures k in Keys(l, key) {
      var i :| 0 <= i < |log| && key(log[i]) == k;
      assert l[i] == log[i];
    }
  }

  lemma SelectOfAbsentKey<K>(log: seq<Violation>, key: Violation -> K, k: K)
    requires k !in Keys(log, key)
    ensures Select(log, key, k) == []
  {
  }

  /** The grouping the source builds: each occurring key mapped to its records, in log order. */
  function Group<K(==)>(log: seq<Violation>, key: Violation -> K): map<K, seq<Violation>>
  {
    map k | k in Keys(log, key) :: Select(log, key, k)
  }

  /**
   * The source's grouping loop: a group is created the first time its key is
   * seen and every record is appended to its group.
   */
  method GroupBy<K(==)>(log: seq<Violation>, key: Violation -> K) returns (grouped: map<K, seq<Violation>>)
    ensures grouped.Keys == Keys(log, key)
    ensures forall k :: k in grouped ==> grouped[k] == Select(log, key, k) && |grouped[k]| > 0
  {
    grouped := map[];
    var i := 0;
    while i < |log|
      invariant 0 <= i <= |log|
      invariant grouped.Keys == Keys(log[..i], key)
      invariant forall k :: k in grouped ==> grouped[k] == Select(log[..i], key, k) && |grouped[k]| > 0
    {
      var v := log[i];
      var k := key(v);
      if k !in grouped {
        SelectOfAbsentKey(log[..i], key, k);
        grouped := grouped[k := []];
      }
      grouped := grouped[k := grouped[k] + [v]];
      assert log[..i + 1] == log[..i] + [v];
      SelectSnoc(log[..i], v, key);
      KeysSnoc(log[..i], v, key);
      i := i + 1;
    }
    assert log[..i] == log;
  }

  /** `_group_violations_by_type`. */
  method GroupByType(log: seq<Violation>) returns (grouped: map<ViolationType, seq<Violation>>)
    ensures grouped.Keys == Keys(log, TypeOf)
    ensures forall t :: t in grouped ==> grouped[t] == Select(log, TypeOf, t)
    ensures grouped == Group(log, TypeOf)
  {
    grouped := GroupBy(log, TypeOf);
  }

  /** `_group_violations_by_severity`. */
  method GroupBySeverity(log: seq<Violation>) returns (grouped: map<Severity, seq<Violation>>)
    ensures grouped.Keys == Keys(log, SeverityOf)
    ensures forall v :: v in grouped ==> grouped[v] == Select(log, SeverityOf, v)
    ensures grouped == Group(log, SeverityOf)
  {
    grouped := GroupBy(log, SeverityOf);
  }

  /** Total size of the groups for the keys `ks`. */
  function GroupSizes<K(==)>(log: seq<Violation>, key: Violation -> K, ks: seq<K>): nat
    decreases |ks|
  {
    if ks == [] then 0 else |Select(log, key, ks[0])| + GroupSizes(log, key, ks[1..])
  }

  function Occurrences<K(==)>(ks: seq<K>, x: K): nat
    decreases |ks|
  {
    if ks == [] then 0 else (if ks[0] == x then 1 else 0) + Occurrences(ks[1..], x)
  }

  predicate Distinct<K(==)>(ks: seq<K>)
  {
    forall i, j :: 0 <= i < j < |ks| ==> ks[i] != ks[j]
  }

  lemma {:induction false} OccursOnce<K>(ks: seq<K>, x: K)
    requires Distinct(ks) && x in ks
    ensures Occurrences(ks, x) == 1
    decreases |ks|
  {
    if ks[0] == x {
      NotOccurring(ks[1..], x);
    } else {
      OccursOnce(ks[1..], x);
    }
  }

  lemma {:induction false} NotOccurring<K>(ks: seq<K>, x: K)
    requires x !in ks
    ensures Occurrences(ks, x) == 0
    decreases |ks|
  {
    if ks != [] {
      NotOccurring(ks[1..], x);
    }
  }

  lemma {:induction false} GroupSizesSnoc<K>(log: seq<Violation>, v: Violation, key: Violation -> K, ks: seq<K>)
    ensures GroupSizes(log + [v], key, ks) == GroupSizes(log, key, ks) + Occurrences(ks, key(v))
    decreases |ks|
  {
    assert (log + [v])[..|log|] == log;
    if ks != [] {
      GroupSizesSnoc(log, v, key, ks[1..]);
    }
  }

  /**
   * Grouping is a partition: over a duplicate-free list of keys covering every
   * record's key, the group sizes add up to the length of the log.
   */
  lemma {:induction false} GroupsPartitionLog<K>(log: seq<Violation>, key: Violation -> K, ks: seq<K>)
    requires Distinct(ks)
    requires forall i :: 0 <= i < |log| ==> key(log[i]) in ks
    ensures GroupSizes(log, key, ks) == |log|
    decreases |log|
  {
    if log == [] {
      EmptyGroups(key, ks);
    } else {
      var p := log[..|log| - 1];
      var v := log[|log| - 1];
      assert log == p + [v];
      GroupsPartitionLog(p, key, ks);
      GroupSizesSnoc(p, v, key, ks);
      OccursOnce(ks, key(v));
    }
  }

  lemma {:induction false} EmptyGroups<K>(key: Violation -> K, ks: seq<K>)
    ensures GroupSizes([], key, ks) == 0
    decreases |ks|
  {
    if ks != [] {
      EmptyGroups(key, ks[1..]);
    }
  }

  /** The six per-type groups together hold every logged violation exactly once. */
  lemma {:induction false} TypeGroupsPartition(log: seq<Violation>)
    ensures GroupSizes(log, TypeOf, AllTypes) == |log|
  {
    AllTypesListed();
    AllTypesDistinct();
    GroupsPartitionLog(log, TypeOf, AllTypes);
  }

  lemma AllTypesDistinct()
    ensures Distinct(AllTypes)
  {
  }

  /** The four per-severity groups together hold every logged violation exactly once. */
  lemma {:induction false} SeverityGroupsPartition(log: seq<Violation>)
    ensures GroupSizes(log, SeverityOf, AllSeverities) == |log|
  {
    forall i | 0 <= i < |log|
      ensures SeverityOf(log[i]) in AllSeverities
    {
      match log[i].severity
      case Low =>
      case Medium =>
      case High =>
      case Critical =>
    }
    GroupsPartitionLog(log, SeverityOf, AllSeverities);
  }

  /** One line of the timeline. */
  datatype TimelineEntry = TimelineEntry(stamp: real, vtype: ViolationType, severity: Severity, penaltyApplied: bool)

  function Entry(v: Violation): TimelineEntry
  {
    TimelineEntry(v.stamp, v.vtype, v.severity, v.penaltyApplied)
  }

  /** The timeline entries in log order, before sorting. */
  function Project(log: seq<Violation>): (r: seq<TimelineEntry>)
    ensures |r| == |log|
    ensures forall i :: 0 <= i < |log| ==> r[i] == Entry(log[i])
  {
    seq(|log|, i requires 0 <= i < |log| => Entry(log[i]))
  }

  predicate SortedByStamp(s: seq<TimelineEntry>)
  {
    forall i, j :: 0 <= i < j < |s| ==> s[i].stamp <= s[j].stamp
  }

  /** The entries of `s` with stamp `x`, in order. */
  function WithStamp(s: seq<TimelineEntry>, x: real): seq<TimelineEntry>
    decreases |s|
  {
    if s == [] then []
    else
      var prev := WithStamp(s[..|s| - 1], x);
      if s[|s| - 1].stamp == x then prev + [s[|s| - 1]] else prev
  }

  /** Puts `e` after every entry whose stamp is not above its own. */
  function InsertByStamp(s: seq<TimelineEntry>, e: TimelineEntry): (r: seq<TimelineEntry>)
    ensures multiset(r) == multiset(s) + multiset{e}
    decreases |s|
  {
    if s == [] || s[|s| - 1].stamp <= e.stamp then s + [e]
    else
      var p := s[..|s| - 1];
      assert s == p + [s[|s| - 1]];
      InsertByStamp(p, e) + [s[|s| - 1]]
  }

  lemma {:induction false} InsertKeepsSorted(s: seq<TimelineEntry>, e: TimelineEntry)
    requires SortedByStamp(s)
    ensures SortedByStamp(InsertByStamp(s, e))
    decreases |s|
  {
    if s != [] && s[|s| - 1].stamp > e.stamp {
      var p := s[..|s| - 1];
      var last := s[|s| - 1];
      InsertKeepsSorted(p, e);
      var q := InsertByStamp(p, e);
      forall z | z in q
        ensures z.stamp <= last.stamp
      {
        assert z in multiset(q);
        if z != e {
          assert z in multiset(p);
          var k :| 0 <= k < |p| && p[k] == z;
          assert s[k] == z;
        }
      }
      forall i, j | 0 <= i < j < |q| + 1
        ensures (q + [last])[i].stamp <= (q + [last])[j].stamp
      {
        if j == |q| {
          assert q[i] in q;
        }
      }
    }
  }

  lemma {:induction false} InsertIsStable(s: seq<TimelineEntry>, e: TimelineEntry, x: real)
    ensures WithStamp(InsertByStamp(s, e), x) == WithStamp(s, x) + (if e.stamp == x then [e] else [])
    decreases |s|
  {
    if s == [] || s[|s| - 1].stamp <= e.stamp {
      assert (s + [e])[..|s|] == s;
    } else {
      var p := s[..|s| - 1];
      var last := s[|s| - 1];
      InsertIsStable(p, e, x);
      var q := InsertByStamp(p, e);
      assert (q + [last])[..|q|] == q;
    }
  }

  /** A stable insertion sort on the stamp, as Python's `list.sort(key=...)`. */
  function SortByStamp(s: seq<TimelineEntry>): (r: seq<TimelineEntry>)
    ensures SortedByStamp(r)
    ensures multiset(r) == multiset(s)
    ensures forall x :: WithStamp(r, x) == WithStamp(s, x)
    decreases |s|
  {
    if s == [] then []
    else
      var p := s[..|s| - 1];
      var e := s[|s| - 1];
      var sp := SortByStamp(p);
      InsertKeepsSorted(sp, e);
      assert s == p + [e];
      assert forall x :: WithStamp(InsertByStamp(sp, e), x) == WithStamp(s, x) by {
        forall x ensures WithStamp(InsertByStamp(sp, e), x) == WithStamp(s, x) {
          InsertIsStable(sp, e, x);
        }
      }
      InsertByStamp(sp, e)
  }

  /** Sorting an already ordered sequence changes nothing. */
  lemma {:induction false} SortOfSortedIsIdentity(s: seq<TimelineEntry>)
    requires SortedByStamp(s)
    ensures SortByStamp(s) == s
    decreases |s|
  {
    if s != [] {
      var p := s[..|s| - 1];
      assert SortedByStamp(p);
      SortOfSortedIsIdentity(p);
      assert s == p + [s[|s| - 1]];
    }
  }

  /**
   * `_create_violation_timeline`: the log's entries ordered by timestamp,
   * a permutation of the log that keeps log order among equal timestamps.
   */
  function Timeline(log: seq<Violation>): (r: seq<TimelineEntry>)
    ensures SortedByStamp(r)
    ensures multiset(r) == multiset(Project(log))
    ensures forall x :: WithStamp(r, x) == WithStamp(Project(log), x)
  {
    SortByStamp(Project(log))
  }

  /** When the log's timestamps never go backwards, the timeline is the log in its own order. */
  lemma TimelineOfOrderedLog(log: seq<Violation>)
    requires forall i, j :: 0 <= i < j < |log| ==> log[i].stamp <= log[j].stamp
    ensures Timeline(log) == Project(log)
  {
    SortOfSortedIsIdentity(Project(log));
  }

  /** The dictionary `get_violation_summary` returns. */
  datatype Summary = Summary(
    totalViolations: nat,
    violationCounts: map<ViolationType, nat>,
    currentScore: int,
    scoreDeduction: int,
    violationsByType: map<ViolationType, seq<Violation>>)

  /** `get_violation_summary`. */
  function ViolationSummary(s: State): (r: Summary)
    ensures r.totalViolations == |s.log|
    ensures r.currentScore == s.score
    ensures r.currentScore + r.scoreDeduction == BaseScore
    ensures r.violationCounts == s.counts
    ensures r.violationsByType == Group(s.log, TypeOf)
  {
    Summary(|s.log|, s.counts, s.score, BaseScore - s.score, Group(s.log, TypeOf))
  }

  /**
   * For a scorer consistent with its log: the deduction lies in [0, 100], it
   * is zero exactly when no record was billed, and the per-type groups hold
   * `total_violations` records between them.
   */
  lemma SummaryOfConsistentState(s: State)
    requires Consistent(s)
    ensures 0 <= ViolationSummary(s).scoreDeduction <= BaseScore
    ensures ViolationSummary(s).scoreDeduction == 0 <==>
              forall i :: 0 <= i < |s.log| ==> !s.log[i].penaltyApplied
    ensures GroupSizes(s.log, TypeOf, AllTypes) == ViolationSummary(s).totalViolations
  {
    ReplayInRange(s.log);
    ReplayUntouchedIffNothingBilled(s.log);
    TypeGroupsPartition(s.log);
  }

  /** The dictionary `get_detailed_report` returns. */
  datatype DetailedReport = DetailedReport(
    sessionSummary: Summary,
    allViolations: seq<Violation>,
    violationsBySeverity: map<Severity, seq<Violation>>,
    timeline: seq<TimelineEntry>)

  function Report(s: State): DetailedReport
  {
    DetailedReport(ViolationSummary(s), s.log, Group(s.log, SeverityOf), Timeline(s.log))
  }
}
