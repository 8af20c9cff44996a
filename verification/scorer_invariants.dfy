/**
 * What the scorer's state means in terms of its own log: the score is the
 * replay of the billed records, each counter is the number of detections
 * since that type's last bill, and a cooldown entry exists exactly for the
 * types ever billed. Runs from a fresh scorer keep all of this, never raise
 * the score, and space two bills of one type more than the cooldown apart.
 */
module ScorerInvariants {
  import opened Options
  import opened Violations
  import opened Scorer

  /** The score obtained by re-applying every billed record of `log`, in order, from the base score. */
  function ReplayScore(log: seq<Violation>): int
    decreases |log|
  {
    if log == [] then BaseScore
    else
      var v := log[|log| - 1];
      var prev := ReplayScore(log[..|log| - 1]);
      if v.penaltyApplied then FloorAtZero(prev - Penalty(v.vtype)) else prev
  }

  /** Detections of `t` logged after the last billed record of `t`. */
  function PendingCount(log: seq<Violation>, t: ViolationType): nat
    decreases |log|
  {
    if log == [] then 0
    else
      var v := log[|log| - 1];
      var prev := PendingCount(log[..|log| - 1], t);
      if v.vtype != t then prev else if v.penaltyApplied then 0 else prev + 1
  }

  /** Some record of type `t` in `log` was billed. */
  predicate EverBilled(log: seq<Violation>, t: ViolationType)
  {
    exists i :: 0 <= i < |log| && log[i].vtype == t && log[i].penaltyApplied
  }

  /** Record `i` carries the count it was billed against and the table penalty exactly when billed. */
  predicate RecordFaithful(log: seq<Violation>, i: nat)
    requires i < |log|
  {
    var v := log[i];
    && v.count == PendingCount(log[..i], v.vtype) + 1
    && (v.penaltyApplied ==> v.count >= Threshold(v.vtype))
    && v.penaltyAmount == (if v.penaltyApplied then Some(Penalty(v.vtype)) else None)
  }

  /** The scorer's state agrees with its own log. */
  predicate Consistent(s: State)
  {
    && CountsTotal(s.counts)
    && s.score == ReplayScore(s.log)
    && (forall t :: s.counts[t] == PendingCount(s.log, t))
    && (forall t :: t in s.lastPenalty <==> EverBilled(s.log, t))
    && (forall i :: 0 <= i < |s.log| ==> RecordFaithful(s.log, i))
  }

  lemma PenaltyPositive(t: ViolationType)
    ensures Penalty(t) > 0
  {
  }

  /** Replaying any log stays within [0, BaseScore]. */
  lemma {:induction false} ReplayInRange(log: seq<Violation>)
    ensures 0 <= ReplayScore(log) <= BaseScore
    decreases |log|
  {
    if log != [] {
      ReplayInRange(log[..|log| - 1]);
    }
  }

  /** The replayed score is still the base score exactly when nothing in the log was billed. */
  lemma {:induction false} ReplayUntouchedIffNothingBilled(log: seq<Violation>)
    ensures ReplayScore(log) == BaseScore <==> forall i :: 0 <= i < |log| ==> !log[i].penaltyApplied
    decreases |log|
  {
    if log != [] {
      var p := log[..|log| - 1];
      ReplayUntouchedIffNothingBilled(p);
      ReplayInRange(p);
      PenaltyPositive(log[|log| - 1].vtype);
      assert forall i :: 0 <= i < |p| ==> p[i] == log[i];
    }
  }

  lemma InitConsistent()
    ensures Consistent(Init())
  {
  }

  /** `reset_scores` yields a consistent state, whatever came before. */
  lemma ResetConsistent(s: State)
    ensures Consistent(Reset(s))
  {
    InitConsistent();
  }

  /** One `add_violation` step keeps the state consistent with its log. */
  lemma AddPreservesConsistent(s: State, t: ViolationType, severity: Severity, details: Details, at: Instant)
    requires Consistent(s)
    ensures Consistent(AddViolation(s, t, severity, details, at).state)
  {
    var log' := AddViolation(s, t, severity, details, at).state.log;
    assert log'[..|log'| - 1] == s.log;
    AddKeepsCounts(s, t, severity, details, at);
    AddKeepsCooldowns(s, t, severity, details, at);
    AddKeepsRecords(s, t, severity, details, at);
  }

  /** The counters after one step are the pending counts of the longer log. */
  lemma AddKeepsCounts(s: State, t: ViolationType, severity: Severity, details: Details, at: Instant)
    requires Consistent(s)
    ensures var a := AddViolation(s, t, severity, details, at);
              forall u :: a.state.counts[u] == PendingCount(a.state.log, u)
  {
    var log' := AddViolation(s, t, severity, details, at).state.log;
    assert log'[..|log'| - 1] == s.log;
  }

  /** The cooldown keys after one step are the types billed anywhere in the longer log. */
  lemma AddKeepsCooldowns(s: State, t: ViolationType, severity: Severity, details: Details, at: Instant)
    requires Consistent(s)
    ensures var a := AddViolation(s, t, severity, details, at);
              forall u :: u in a.state.lastPenalty <==> EverBilled(a.state.log, u)
  {
    var a := AddViolation(s, t, severity, details, at);
    var log' := a.state.log;
    forall u
      ensures u in a.state.lastPenalty <==> EverBilled(log', u)
    {
      if EverBilled(log', u) {
        var i :| 0 <= i < |log'| && log'[i].vtype == u && log'[i].penaltyApplied;
        if i < |s.log| {
          assert s.log[i] == log'[i];
        }
      }
      if EverBilled(s.log, u) {
        var i :| 0 <= i < |s.log| && s.log[i].vtype == u && s.log[i].penaltyApplied;
        assert log'[i] == s.log[i];
      }
      if a.record.vtype == u && a.record.penaltyApplied {
        assert log'[|s.log|] == a.record;
      }
    }
  }

  /** Every record of the longer log, old or new, agrees with the counts before it. */
  lemma AddKeepsRecords(s: State, t: ViolationType, severity: Severity, details: Details, at: Instant)
    requires Consistent(s)
    ensures var a := AddViolation(s, t, severity, details, at);
              forall i :: 0 <= i < |a.state.log| ==> RecordFaithful(a.state.log, i)
  {
    var log' := AddViolation(s, t, severity, details, at).state.log;
    forall i | 0 <= i < |log'|
      ensures RecordFaithful(log', i)
    {
      if i < |s.log| {
        assert log'[..i] == s.log[..i];
        assert log'[i] == s.log[i];
        assert RecordFaithful(s.log, i);
      } else {
        assert log'[..i] == s.log;
      }
    }
  }

  /** A recorded event matches the detection and clock reading it came from. */
  predicate Matches(v: Violation, e: Event)
  {
    v.vtype == e.vtype && v.severity == e.severity && v.details == e.details && v.stamp == e.at.utc
  }

  /** A run appends one matching record per event and leaves the earlier log alone. */
  lemma {:induction false} RunAppends(s: State, events: seq<Event>)
    requires CountsTotal(s.counts)
    ensures |Run(s, events).log| == |s.log| + |events|
    ensures Run(s, events).log[..|s.log|] == s.log
    ensures forall i :: 0 <= i < |events| ==> Matches(Run(s, events).log[|s.log| + i], events[i])
    decreases |events|
  {
    if events != [] {
      var p := events[..|events| - 1];
      RunAppends(s, p);
      var prev := Run(s, p).log;
      var log := Run(s, events).log;
      assert log == prev + [log[|log| - 1]];
      forall i | 0 <= i < |events|
        ensures Matches(log[|s.log| + i], events[i])
      {
        if i < |p| {
          assert log[|s.log| + i] == prev[|s.log| + i];
          assert events[i] == p[i];
        }
      }
    }
  }

  /** Running a concatenation is running its halves one after the other. */
  lemma {:induction false} RunConcat(s: State, a: seq<Event>, b: seq<Event>)
    requires CountsTotal(s.counts)
    ensures Run(s, a + b) == Run(Run(s, a), b)
    decreases |b|
  {
    if b == [] {
      assert a + b == a;
    } else {
      assert (a + b)[..|a + b| - 1] == a + b[..|b| - 1];
      assert (a + b)[|a + b| - 1] == b[|b| - 1];
      RunConcat(s, a, b[..|b| - 1]);
    }
  }

  /** Consistency survives any run. */
  lemma {:induction false} RunConsistent(s: State, events: seq<Event>)
    requires Consistent(s)
    ensures Consistent(Run(s, events))
    decreases |events|
  {
    if events != [] {
      var p := events[..|events| - 1];
      var e := events[|events| - 1];
      RunConsistent(s, p);
      AddPreservesConsistent(Run(s, p), e.vtype, e.severity, e.details, e.at);
    }
  }

  /** A run never raises a non-negative score and never takes it below zero. */
  lemma {:induction false} RunNeverRaises(s: State, events: seq<Event>)
    requires CountsTotal(s.counts) && s.score >= 0
    ensures 0 <= Run(s, events).score <= s.score
    decreases |events|
  {
    if events != [] {
      RunNeverRaises(s, events[..|events| - 1]);
    }
  }

  /**
   * From a fresh scorer, after any sequence of violations, the score lies in
   * [0, 100], equals the replay of the log, and is 100 exactly when nothing was billed.
   */
  lemma {:induction false} FreshRunScore(events: seq<Event>)
    ensures Consistent(Run(Init(), events))
    ensures 0 <= Run(Init(), events).score <= BaseScore
    ensures Run(Init(), events).score == ReplayScore(Run(Init(), events).log)
    ensures Run(Init(), events).score == BaseScore <==>
              forall i :: 0 <= i < |events| ==> !Run(Init(), events).log[i].penaltyApplied
  {
    InitConsistent();
    RunConsistent(Init(), events);
    RunAppends(Init(), events);
    ReplayInRange(Run(Init(), events).log);
    ReplayUntouchedIffNothingBilled(Run(Init(), events).log);
  }

  /** Along one session the score is non-increasing: a later prefix never scores above an earlier one. */
  lemma {:induction false} ScoreNonIncreasing(events: seq<Event>, j: nat, k: nat)
    requires j <= k <= |events|
    ensures Run(Init(), events[..k]).score <= Run(Init(), events[..j]).score
  {
    assert events[..k] == events[..j] + events[j..k];
    RunConcat(Init(), events[..j], events[j..k]);
    FreshRunScore(events[..j]);
    RunNeverRaises(Run(Init(), events[..j]), events[j..k]);
  }

  /** The log of a prefix run is the prefix of the full run's log. */
  lemma {:induction false} RunPrefixLog(s: State, events: seq<Event>, j: nat)
    requires CountsTotal(s.counts) && j <= |events|
    ensures Run(s, events[..j]).log == Run(s, events).log[..|s.log| + j]
  {
    assert events == events[..j] + events[j..];
    RunConcat(s, events[..j], events[j..]);
    RunAppends(Run(s, events[..j]), events[j..]);
    RunAppends(s, events[..j]);
  }

  /**
   * For every billed record, the cooldown entry of its type is that record's
   * epoch or lies more than the cooldown after it.
   */
  ghost predicate LastPenaltyTracks(r: State, events: seq<Event>)
    requires |r.log| == |events|
  {
    forall i :: 0 <= i < |events| && r.log[i].penaltyApplied ==>
      var t := r.log[i].vtype;
      t in r.lastPenalty
      && (r.lastPenalty[t] == events[i].at.epoch || r.lastPenalty[t] - events[i].at.epoch > CooldownSeconds)
  }

  /** Two billed records of one type stem from clock readings more than the cooldown apart. */
  ghost predicate BillsSpaced(log: seq<Violation>, events: seq<Event>)
    requires |log| == |events|
  {
    forall i, j ::
      0 <= i < j < |events| && log[i].penaltyApplied && log[j].penaltyApplied && log[i].vtype == log[j].vtype
      ==> events[j].at.epoch - events[i].at.epoch > CooldownSeconds
  }

  lemma {:induction false} FreshRunTracksLastPenalty(events: seq<Event>)
    ensures |Run(Init(), events).log| == |events|
    ensures LastPenaltyTracks(Run(Init(), events), events)
    decreases |events|
  {
    if events != [] {
      var p := events[..|events| - 1];
      var e := events[|events| - 1];
      FreshRunTracksLastPenalty(p);
      assert p + [e] == events;
      AddTracksLastPenalty(Run(Init(), p), p, e);
    }
  }

  /** One more detection keeps every billed record's cooldown entry current or long expired. */
  lemma AddTracksLastPenalty(r: State, p: seq<Event>, e: Event)
    requires CountsTotal(r.counts) && |r.log| == |p| && LastPenaltyTracks(r, p)
    ensures var a := AddViolation(r, e.vtype, e.severity, e.details, e.at);
              |a.state.log| == |p + [e]| && LastPenaltyTracks(a.state, p + [e])
  {
    var a := AddViolation(r, e.vtype, e.severity, e.details, e.at);
    var events := p + [e];
    forall i | 0 <= i < |events| && a.state.log[i].penaltyApplied
      ensures var t := a.state.log[i].vtype;
              t in a.state.lastPenalty
              && (a.state.lastPenalty[t] == events[i].at.epoch
                  || a.state.lastPenalty[t] - events[i].at.epoch > CooldownSeconds)
    {
      if i < |p| {
        assert a.state.log[i] == r.log[i];
        assert events[i] == p[i];
      }
    }
  }

  lemma {:induction false} FreshRunSpacesBills(events: seq<Event>)
    ensures |Run(Init(), events).log| == |events|
    ensures BillsSpaced(Run(Init(), events).log, events)
    decreases |events|
  {
    if events != [] {
      var p := events[..|events| - 1];
      var e := events[|events| - 1];
      FreshRunSpacesBills(p);
      FreshRunTracksLastPenalty(p);
      var r := Run(Init(), p);
      var a := AddViolation(r, e.vtype, e.severity, e.details, e.at);
      var log := a.state.log;
      assert a.state == Run(Init(), events);
      forall i, j |
        0 <= i < j < |events| && log[i].penaltyApplied && log[j].penaltyApplied && log[i].vtype == log[j].vtype
        ensures events[j].at.epoch - events[i].at.epoch > CooldownSeconds
      {
        assert log[i] == r.log[i] && events[i] == p[i];
        if j < |p| {
          assert log[j] == r.log[j] && events[j] == p[j];
        } else {
          assert log[j] == a.record && events[j] == e;
          NewBillSpaced(r, p, e, i);
        }
      }
    }
  }

  /** A new bill comes more than the cooldown after every earlier bill of its type. */
  lemma NewBillSpaced(r: State, p: seq<Event>, e: Event, i: nat)
    requires CountsTotal(r.counts) && |r.log| == |p| && LastPenaltyTracks(r, p)
    requires i < |p| && r.log[i].penaltyApplied
    requires AddViolation(r, e.vtype, e.severity, e.details, e.at).record.penaltyApplied
    requires r.log[i].vtype == e.vtype
    ensures e.at.epoch - p[i].at.epoch > CooldownSeconds
  {
  }

  /**
   * The cooldown property: in a session started fresh, two billed records of
   * the same type come from clock readings more than the cooldown apart, so
   * no window of that length holds two bills of one type. No clock
   * monotonicity is assumed.
   */
  lemma {:induction false} BilledSameTypeSpaced(events: seq<Event>, i: nat, j: nat)
    requires i < j < |events|
    requires Run(Init(), events).log[i].penaltyApplied && Run(Init(), events).log[j].penaltyApplied
    requires Run(Init(), events).log[i].vtype == Run(Init(), events).log[j].vtype
    ensures events[j].at.epoch - events[i].at.epoch > CooldownSeconds
  {
    FreshRunSpacesBills(events);
  }

  /**
   * A type that had no cooldown running at `start` (a fresh session or one
   * just reset) and that none of the later detections had still has none.
   */
  lemma {:induction false} UnseenTypeHasNoCooldown(start: State, events: seq<Event>, t: ViolationType)
    requires CountsTotal(start.counts) && t !in start.lastPenalty
    requires forall i :: 0 <= i < |events| ==> events[i].vtype != t
    ensures t !in Run(start, events).lastPenalty
    decreases |events|
  {
    if events != [] {
      UnseenTypeHasNoCooldown(start, events[..|events| - 1], t);
    }
  }

  /**
   * A tab switch has threshold one, so the first one since the session began
   * or was reset is always billed, whatever other violations came before it.
   */
  lemma {:induction false} FirstTabSwitchBilled(start: State, events: seq<Event>, at: Instant)
    requires CountsTotal(start.counts) && TabSwitch !in start.lastPenalty
    requires forall i :: 0 <= i < |events| ==> events[i].vtype != TabSwitch
    ensures AddTabSwitch(Run(start, events), at).record.penaltyApplied
    ensures AddTabSwitch(Run(start, events), at).state.score
              == FloorAtZero(Run(start, events).score - Penalty(TabSwitch))
  {
    UnseenTypeHasNoCooldown(start, events, TabSwitch);
  }

  /**
   * A face missing from seven frames, at epochs 0, 1, 2, 3, 4, 5 and 8: the
   * third detection reaches the threshold and costs 5 points; the sixth
   * reaches it again but falls inside the cooldown and keeps counting; the
   * seventh, six seconds after the first bill, costs 5 more.
   */
  lemma FaceAbsentScenario(d: Details)
    ensures var r1 := AddViolation(Init(), FaceAbsent, High, d, Instant(0.0, 0.0));
            var r2 := AddViolation(r1.state, FaceAbsent, High, d, Instant(1.0, 1.0));
            var r3 := AddViolation(r2.state, FaceAbsent, High, d, Instant(2.0, 2.0));
            var r4 := AddViolation(r3.state, FaceAbsent, High, d, Instant(3.0, 3.0));
            var r5 := AddViolation(r4.state, FaceAbsent, High, d, Instant(4.0, 4.0));
            var r6 := AddViolation(r5.state, FaceAbsent, High, d, Instant(5.0, 5.0));
            var r7 := AddViolation(r6.state, FaceAbsent, High, d, Instant(8.0, 8.0));
            && !r1.record.penaltyApplied && !r2.record.penaltyApplied
            && r3.record.penaltyApplied && r3.state.score == 95
            && !r4.record.penaltyApplied && !r5.record.penaltyApplied
            && !r6.record.penaltyApplied && r6.record.count == 3 && r6.state.score == 95
            && r7.record.penaltyApplied && r7.record.count == 4 && r7.state.score == 90
  {
  }
}
