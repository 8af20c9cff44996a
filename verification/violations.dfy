/**
 * The vocabulary of the behaviour scorer (backend/behavior_scorer.py):
 * violation types, severities, the fixed penalty and threshold tables,
 * clock readings and the shape of one logged violation record.
 */
module Violations {
  import opened Options

  datatype ViolationType =
    | FaceAbsent
    | MultipleFaces
    | NoiseDetected
    | SpeechDetected
    | TabSwitch
    | HeadTurn

  datatype Severity = Low | Medium | High | Critical

  /** Every violation type, once each, in declaration order. */
  const AllTypes: seq<ViolationType> :=
    [FaceAbsent, MultipleFaces, NoiseDetected, SpeechDetected, TabSwitch, HeadTurn]

  /** Every severity, once each. */
  const AllSeverities: seq<Severity> := [Low, Medium, High, Critical]

  /** The score a fresh or reset scorer starts from. */
  const BaseScore: int := 100

  /** Seconds that must pass (strictly) between two billed penalties of one type. */
  const CooldownSeconds: real := 5.0

  /** Points deducted when a violation of the given type is billed. */
  function Penalty(t: ViolationType): nat
  {
    match t
    case FaceAbsent => 5
    case MultipleFaces => 10
    case NoiseDetected => 3
    case SpeechDetected => 5
    case TabSwitch => 5
    case HeadTurn => 3
  }

  /**
   * Number of detections of a type needed before a penalty can be billed.
   * The source comments the face-absence entry as seconds, but the value is
   * compared against a detection count.
   */
  function Threshold(t: ViolationType): nat
  {
    match t
    case FaceAbsent => 3
    case MultipleFaces => 5
    case NoiseDetected => 3
    case SpeechDetected => 10
    case TabSwitch => 1
    case HeadTurn => 3
  }

  /**
   * The two clock readings taken by one `add_violation` call: `epoch` is
   * `time.time()` (used for cooldowns), `utc` is `datetime.utcnow()` (stored
   * in the record), both as real numbers of seconds.
   */
  datatype Instant = Instant(epoch: real, utc: real)

  /** The `additional_data` a caller attaches to a violation. */
  datatype Details =
    | FaceCountInfo(faceCount: int)
    | MovementInfo(movementScore: real)
    | NoiseInfo(dbLevel: real, noiseLevel: string)
    | QualityInfo(audioQuality: string)
    | ImmediatePenalty
    | NoDetails

  /**
   * One entry of the violation log. `count` is the type's occurrence count
   * after this detection was counted; `penaltyAmount` is present only when the
   * penalty was billed.
   */
  datatype Violation = Violation(
    vtype: ViolationType,
    stamp: real,
    severity: Severity,
    count: nat,
    penaltyApplied: bool,
    penaltyAmount: Option<nat>,
    details: Details)

  /** The type list is exhaustive. */
  lemma AllTypesListed()
    ensures forall t: ViolationType :: t in AllTypes
  {
    forall t: ViolationType ensures t in AllTypes {
      match t
      case FaceAbsent =>
      case MultipleFaces =>
      case NoiseDetected =>
      case SpeechDetected =>
      case TabSwitch =>
      case HeadTurn =>
    }
  }
}
