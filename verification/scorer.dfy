/**
 * The `BehaviorScorer` state machine (backend/behavior_scorer.py) as an
 * immutable state and a pure `AddViolation` step. The clock is an explicit
 * `Instant` argument.
 */
module Scorer {
  import opened Options
  import opened Violations

  /** The scorer's fields: current score, violation log, per-type counts, per-type last-penalty time. */
  datatype State = State(
    score: int,
    log: seq<Violation>,
    counts: map<ViolationType, nat>,
    lastPenalty: map<ViolationType, real>)

  /** What one `add_violation` call leaves behind: the next state and the record it returned. */
  datatype Added = Added(state: State, record: Violation)

  /** One detection to be recorded, with the clock readings its `add_violation` call takes. */
  datatype Event = Event(vtype: ViolationType, severity: Severity, details: Details, at: Instant)

  /** The counter table has an entry for every violation type. */
  predicate CountsTotal(counts: map<ViolationType, nat>)
  {
    forall t: ViolationType :: t in counts
  }

  /** Python's `max(0, x)`. */
  function FloorAtZero(x: int): (r: int)
    ensures r >= 0 && r >= x
    ensures r == x || r == 0
  {
    if x < 0 then 0 else x
  }

  function ZeroCounts(): (c: map<ViolationType, nat>)
    ensures CountsTotal(c)
    ensures forall t :: c[t] == 0
  {
    AllTypesListed();
    map t | t in AllTypes :: 0
  }

  /** A freshly constructed scorer. */
  function Init(): State
  {
    State(BaseScore, [], ZeroCounts(), map[])
  }

  /** `reset_scores`: back to the base score, an empty log, zero counts and no cooldowns. */
  function Reset(s: State): (r: State)
    ensures r.score == BaseScore
    ensures r.log == []
    ensures CountsTotal(r.counts) && forall t :: r.counts[t] == 0
    ensures r.lastPenalty == map[]
    ensures r == Init()
  {
    Init()
  }

  /** `_should_penalize`: the type was never billed, or its last bill is more than the cooldown ago. */
  predicate ShouldPenalize(lastPenalty: map<ViolationType, real>, t: ViolationType, now: real)
  {
    t !in lastPenalty || now - lastPenalty[t] > CooldownSeconds
  }

  /** The billing gate of `add_violation`: the incremented count reaches the threshold and the cooldown allows it. */
  predicate Billable(s: State, t: ViolationType, now: real)
    requires CountsTotal(s.counts)
  {
    s.counts[t] + 1 >= Threshold(t) && ShouldPenalize(s.lastPenalty, t, now)
  }

  /** `add_violation(t, severity, details)` with the clock reading `at`. */
  function AddViolation(s: State, t: ViolationType, severity: Severity, details: Details, at: Instant): (r: Added)
    requires CountsTotal(s.counts)
    ensures CountsTotal(r.state.counts)
    // exactly one record is appended; the earlier log is untouched
    ensures r.state.log == s.log + [r.record]
    ensures r.record.vtype == t && r.record.severity == severity && r.record.details == details
    ensures r.record.stamp == at.utc && r.record.count == s.counts[t] + 1
    // when a penalty is billed
    ensures r.record.penaltyApplied <==>
              s.counts[t] + 1 >= Threshold(t)
              && (t !in s.lastPenalty || at.epoch - s.lastPenalty[t] > CooldownSeconds)
    // what a billed penalty changes
    ensures r.record.penaltyApplied ==>
              && r.state.score == FloorAtZero(s.score - Penalty(t))
              && r.state.counts[t] == 0
              && r.state.lastPenalty == s.lastPenalty[t := at.epoch]
              && r.record.penaltyAmount == Some(Penalty(t))
    // a suppressed detection keeps counting and changes nothing else
    ensures !r.record.penaltyApplied ==>
              && r.state.score == s.score
              && r.state.counts[t] == s.counts[t] + 1
              && r.state.lastPenalty == s.lastPenalty
              && r.record.penaltyAmount == None
    // other types are isolated
    ensures forall u :: u != t ==> r.state.counts[u] == s.counts[u]
    ensures forall u :: u != t ==>
              (u in r.state.lastPenalty <==> u in s.lastPenalty)
              && (u in s.lastPenalty ==> r.state.lastPenalty[u] == s.lastPenalty[u])
    // the score never rises and never drops below zero
    ensures s.score >= 0 ==> 0 <= r.state.score <= s.score
  {
    var count := s.counts[t] + 1;
    var counted := s.counts[t := count];
    if count >= Threshold(t) && ShouldPenalize(s.lastPenalty, t, at.epoch) then
      var record := Violation(t, at.utc, severity, count, true, Some(Penalty(t)), details);
      Added(State(FloorAtZero(s.score - Penalty(t)), s.log + [record], counted[t := 0], s.lastPenalty[t := at.epoch]), record)
    else
      var record := Violation(t, at.utc, severity, count, false, None, details);
      Added(State(s.score, s.log + [record], counted, s.lastPenalty), record)
  }

  /** The state after recording `events` in order, one `add_violation` call each. */
  function Run(s: State, events: seq<Event>): (r: State)
    requires CountsTotal(s.counts)
    ensures CountsTotal(r.counts)
    ensures |r.log| == |s.log| + |events|
    decreases |events|
  {
    if events == [] then s
    else
      var e := events[|events| - 1];
      AddViolation(Run(s, events[..|events| - 1]), e.vtype, e.severity, e.details, e.at).state
  }

  /** `add_tab_switch_violation`: a high-severity tab switch flagged for immediate penalty. */
  function AddTabSwitch(s: State, at: Instant): (r: Added)
    requires CountsTotal(s.counts)
    ensures r.record.vtype == TabSwitch && r.record.severity == High
    ensures r.record.details == ImmediatePenalty
    ensures r.state.log == s.log + [r.record]
    // threshold one: only the cooldown can suppress a tab-switch penalty
    ensures r.record.penaltyApplied <==> ShouldPenalize(s.lastPenalty, TabSwitch, at.epoch)
  {
    AddViolation(s, TabSwitch, High, ImmediatePenalty, at)
  }
}
