/**
 * `calculate_final_score` (backend/behavior_scorer.py): both scores clamped
 * to [0, 100], a weighted sum (0.4 behaviour, 0.6 test by default) and an
 * inclusive certificate threshold of 85. Exact real arithmetic stands in for
 * Python floats.
 */
module FinalScore {
  import opened Violations
  import opened Scorer
  import opened ScorerInvariants
  import opened Reports

  datatype CertificateStatus = Issued | NotIssued

  const DefaultBehaviorWeight: real := 0.4
  const DefaultTestWeight: real := 0.6
  const CertificateThreshold: real := 85.0

  /** Python's `max(0, min(100, x))`. */
  function Clamp(x: real): (r: real)
    ensures 0.0 <= r <= 100.0
    ensures 0.0 <= x <= 100.0 ==> r == x
    ensures x < 0.0 ==> r == 0.0
    ensures x > 100.0 ==> r == 100.0
  {
    if x > 100.0 then 100.0 else if x < 0.0 then 0.0 else x
  }

  /** The dictionary `calculate_final_score` returns. */
  datatype FinalResult = FinalResult(
    behaviorScore: real,
    testScore: real,
    finalScore: real,
    certificateEligible: bool,
    certificateStatus: CertificateStatus,
    behaviorContribution: real,
    testContribution: real,
    violationSummary: Summary)

  /** `calculate_final_score(test_score, behavior_weight, test_weight)`. */
  function CalculateFinalScore(
    s: State, testScore: real,
    behaviorWeight: real := DefaultBehaviorWeight, testWeight: real := DefaultTestWeight): (r: FinalResult)
    ensures 0.0 <= r.behaviorScore <= 100.0 && 0.0 <= r.testScore <= 100.0
    ensures 0 <= s.score <= BaseScore ==> r.behaviorScore == s.score as real
    ensures 0.0 <= testScore <= 100.0 ==> r.testScore == testScore
    ensures r.finalScore == r.behaviorContribution + r.testContribution
    ensures r.behaviorContribution == behaviorWeight * r.behaviorScore
    ensures r.testContribution == testWeight * r.testScore
    ensures r.certificateEligible <==> r.finalScore >= CertificateThreshold
    ensures r.certificateStatus == Issued <==> r.certificateEligible
    ensures r.violationSummary == ViolationSummary(s)
  {
    var behavior := Clamp(s.score as real);
    var test := Clamp(testScore);
    var final := behaviorWeight * behavior + testWeight * test;
    var eligible := final >= CertificateThreshold;
    FinalResult(behavior, test, final, eligible, if eligible then Issued else NotIssued,
                behaviorWeight * behavior, testWeight * test, ViolationSummary(s))
  }

  /** With the default weights the final score lies in [0, 100] for every state and test score. */
  lemma FinalScoreInRange(s: State, testScore: real)
    ensures 0.0 <= CalculateFinalScore(s, testScore).finalScore <= 100.0
  {
  }

  /**
   * A certificate needs both parts: with the default weights, issuing one
   * requires a clamped test score of at least 75 and a clamped behaviour
   * score of at least 62.5.
   */
  lemma CertificateNeedsBothScores(s: State, testScore: real)
    requires CalculateFinalScore(s, testScore).certificateStatus == Issued
    ensures CalculateFinalScore(s, testScore).testScore >= 75.0
    ensures CalculateFinalScore(s, testScore).behaviorScore >= 62.5
  {
  }

  /** A better test score never lowers the final score, and never turns an issued certificate into a refusal. */
  lemma FinalScoreMonotoneInTest(s: State, t1: real, t2: real)
    requires t1 <= t2
    ensures CalculateFinalScore(s, t1).finalScore <= CalculateFinalScore(s, t2).finalScore
    ensures CalculateFinalScore(s, t1).certificateStatus == Issued ==>
              CalculateFinalScore(s, t2).certificateStatus == Issued
  {
  }

  /** A scorer that has billed more (a lower behaviour score) never gets a better final score. */
  lemma FinalScoreMonotoneInBehavior(s1: State, s2: State, testScore: real)
    requires s1.score <= s2.score
    ensures CalculateFinalScore(s1, testScore).finalScore <= CalculateFinalScore(s2, testScore).finalScore
  {
  }

  /**
   * Worked cases: a clean session with test score 90 gives 94 and is issued;
   * behaviour 60 with test 70 gives 66 and is refused; exactly 85 (behaviour
   * 100, test 75) is issued, since the threshold is inclusive.
   */
  lemma FinalScoreExamples(s: State)
    ensures s.score == 100 ==> CalculateFinalScore(s, 90.0).finalScore == 94.0
    ensures s.score == 100 ==> CalculateFinalScore(s, 90.0).certificateStatus == Issued
    ensures s.score == 60 ==> CalculateFinalScore(s, 70.0).finalScore == 66.0
    ensures s.score == 60 ==> CalculateFinalScore(s, 70.0).certificateStatus == NotIssued
    ensures s.score == 100 ==> CalculateFinalScore(s, 75.0).finalScore == 85.0
    ensures s.score == 100 ==> CalculateFinalScore(s, 75.0).certificateStatus == Issued
  {
  }
}
