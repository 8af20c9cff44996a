/**
 * The classifiers of `BehaviorScorer` (backend/behavior_scorer.py):
 * `process_video_analysis` and `process_audio_analysis` turn a detector's
 * result dictionary into zero to three violations, recorded one
 * `add_violation` call each. A dictionary key the caller may omit is an
 * `Option`, read with the default the source's `.get` uses.
 */
module Analysis {
  import opened Options
  import opened Violations
  import opened Scorer
  import opened ScorerInvariants

  /** The `movement_analysis` dictionary of a video result. */
  datatype MovementReport = MovementReport(headTurnDetected: Option<bool>, movementScore: Option<real>)

  /** The keys of a video result that the video classifier reads. */
  datatype VideoReport = VideoReport(
    facePresent: Option<bool>,
    faceCount: Option<int>,
    movementAnalysis: Option<MovementReport>)

  /** The `noise_analysis` dictionary of an audio result. */
  datatype NoiseReport = NoiseReport(thresholdExceeded: Option<bool>, dbLevel: Option<real>, noiseLevel: Option<string>)

  /** The keys of an audio result that the audio classifier reads. */
  datatype AudioReport = AudioReport(
    noiseAnalysis: Option<NoiseReport>,
    speechDetected: Option<bool>,
    audioQuality: Option<string>)

  /** One violation a classifier asks `add_violation` to record. */
  datatype Detection = Detection(vtype: ViolationType, severity: Severity, details: Details)

  /** The classifier's output plus what recording it did to the scorer. */
  datatype Processed = Processed(state: State, added: seq<Violation>)

  /** Some detection of `ds` has type `t`. */
  predicate Yields(ds: seq<Detection>, t: ViolationType)
  {
    exists i :: 0 <= i < |ds| && ds[i].vtype == t
  }

  /** Some record of `vs` has type `t`. */
  predicate Logged(vs: seq<Violation>, t: ViolationType)
  {
    exists i :: 0 <= i < |vs| && vs[i].vtype == t
  }

  lemma LoggedIffYields(vs: seq<Violation>, ds: seq<Detection>)
    requires |vs| == |ds|
    requires forall i :: 0 <= i < |ds| ==> vs[i].vtype == ds[i].vtype
    ensures forall t :: Logged(vs, t) <==> Yields(ds, t)
  {
    forall t ensures Logged(vs, t) <==> Yields(ds, t) {
      if Logged(vs, t) {
        var i :| 0 <= i < |vs| && vs[i].vtype == t;
        assert ds[i].vtype == t;
      }
      if Yields(ds, t) {
        var i :| 0 <= i < |ds| && ds[i].vtype == t;
        assert vs[i].vtype == t;
      }
    }
  }

  /** Position of a type in the order the video classifier checks it. */
  function VideoRank(t: ViolationType): nat
  {
    match t
    case FaceAbsent => 0
    case MultipleFaces => 1
    case HeadTurn => 2
    case _ => 3
  }

  /** The detections `process_video_analysis` makes for one video result. */
  function VideoDetections(v: VideoReport): (r: seq<Detection>)
    ensures |r| <= 3
    ensures Yields(r, FaceAbsent) <==> v.facePresent == Some(false)
    ensures Yields(r, MultipleFaces) <==> v.faceCount.GetOr(0) > 1
    ensures Yields(r, HeadTurn) <==>
              v.movementAnalysis.Some? && v.movementAnalysis.value.headTurnDetected == Some(true)
    ensures forall i :: 0 <= i < |r| ==> VideoRank(r[i].vtype) < 3
    ensures forall i, j :: 0 <= i < j < |r| ==> VideoRank(r[i].vtype) < VideoRank(r[j].vtype)
    ensures forall i :: 0 <= i < |r| && r[i].vtype == FaceAbsent ==>
              r[i].severity == High && r[i].details == FaceCountInfo(v.faceCount.GetOr(0))
    ensures forall i :: 0 <= i < |r| && r[i].vtype == MultipleFaces ==>
              r[i].severity == Critical && r[i].details == FaceCountInfo(v.faceCount.GetOr(0))
    ensures forall i :: 0 <= i < |r| && r[i].vtype == HeadTurn ==>
              r[i].severity == Medium
              && r[i].details == MovementInfo(v.movementAnalysis.value.movementScore.GetOr(0.0))
  {
    var faceCount := v.faceCount.GetOr(0);
    var movement := v.movementAnalysis.GetOr(MovementReport(None, None));
    var absent := if !v.facePresent.GetOr(true) then [Detection(FaceAbsent, High, FaceCountInfo(faceCount))] else [];
    var multiple := if faceCount > 1 then [Detection(MultipleFaces, Critical, FaceCountInfo(faceCount))] else [];
    var turned :=
      if movement.headTurnDetected.GetOr(false)
      then [Detection(HeadTurn, Medium, MovementInfo(movement.movementScore.GetOr(0.0)))]
      else [];
    var r := absent + multiple + turned;
    assert absent != [] ==> r[0] == absent[0];
    assert multiple != [] ==> r[|absent|] == multiple[0];
    assert turned != [] ==> r[|absent| + |multiple|] == turned[0];
    r
  }

  /** Position of a type in the order the audio classifier checks it. */
  function AudioRank(t: ViolationType): nat
  {
    match t
    case NoiseDetected => 0
    case SpeechDetected => 1
    case _ => 2
  }

  /** The detections `process_audio_analysis` makes for one audio result. */
  function AudioDetections(a: AudioReport): (r: seq<Detection>)
    ensures |r| <= 2
    ensures Yields(r, NoiseDetected) <==>
              a.noiseAnalysis.Some? && a.noiseAnalysis.value.thresholdExceeded == Some(true)
    ensures Yields(r, SpeechDetected) <==> a.speechDetected == Some(true)
    ensures forall i :: 0 <= i < |r| ==> AudioRank(r[i].vtype) < 2
    ensures forall i, j :: 0 <= i < j < |r| ==> AudioRank(r[i].vtype) < AudioRank(r[j].vtype)
    ensures forall i :: 0 <= i < |r| && r[i].vtype == NoiseDetected ==>
              r[i].severity == Medium
              && r[i].details == NoiseInfo(a.noiseAnalysis.value.dbLevel.GetOr(0.0),
                                           a.noiseAnalysis.value.noiseLevel.GetOr("unknown"))
    ensures forall i :: 0 <= i < |r| && r[i].vtype == SpeechDetected ==>
              r[i].severity == Medium && r[i].details == QualityInfo(a.audioQuality.GetOr("unknown"))
  {
    var noise := a.noiseAnalysis.GetOr(NoiseReport(None, None, None));
    var noisy :=
      if noise.thresholdExceeded.GetOr(false)
      then [Detection(NoiseDetected, Medium, NoiseInfo(noise.dbLevel.GetOr(0.0), noise.noiseLevel.GetOr("unknown")))]
      else [];
    var spoken :=
      if a.speechDetected.GetOr(false)
      then [Detection(SpeechDetected, Medium, QualityInfo(a.audioQuality.GetOr("unknown")))]
      else [];
    var r := noisy + spoken;
    assert noisy != [] ==> r[0] == noisy[0];
    assert spoken != [] ==> r[|noisy|] == spoken[0];
    r
  }

  /** Pairs the i-th detection with the i-th clock reading. */
  function Events(ds: seq<Detection>, at: seq<Instant>): (r: seq<Event>)
    requires |at| >= |ds|
    ensures |r| == |ds|
    ensures forall i :: 0 <= i < |ds| ==>
              r[i] == Event(ds[i].vtype, ds[i].severity, ds[i].details, at[i])
  {
    seq(|ds|, i requires 0 <= i < |ds| => Event(ds[i].vtype, ds[i].severity, ds[i].details, at[i]))
  }

  /**
   * Records the detections in order, the i-th with clock reading `at[i]`, and
   * returns the records added, as the classifiers' `violations_added` lists.
   */
  function RecordAll(s: State, ds: seq<Detection>, at: seq<Instant>): (r: Processed)
    requires CountsTotal(s.counts)
    requires |at| >= |ds|
    ensures CountsTotal(r.state.counts)
    ensures r.state == Run(s, Events(ds, at))
    ensures r.state.log == s.log + r.added
    ensures |r.added| == |ds|
    ensures forall i :: 0 <= i < |ds| ==>
              && r.added[i].vtype == ds[i].vtype
              && r.added[i].severity == ds[i].severity
              && r.added[i].details == ds[i].details
              && r.added[i].stamp == at[i].utc
    ensures s.score >= 0 ==> 0 <= r.state.score <= s.score
  {
    var events := Events(ds, at);
    var after := Run(s, events);
    RunAppends(s, events);
    assert s.score >= 0 ==> 0 <= after.score <= s.score by {
      if s.score >= 0 { RunNeverRaises(s, events); }
    }
    assert after.log == s.log + after.log[|s.log|..];
    Processed(after, after.log[|s.log|..])
  }

  /** `process_video_analysis`: one record per video detection, in the classifier's order. */
  function ProcessVideo(s: State, v: VideoReport, at: seq<Instant>): (r: Processed)
    requires CountsTotal(s.counts)
    requires |at| >= |VideoDetections(v)|
    ensures r.state.log == s.log + r.added
    ensures Logged(r.added, FaceAbsent) <==> v.facePresent == Some(false)
    ensures Logged(r.added, MultipleFaces) <==> v.faceCount.GetOr(0) > 1
    ensures Logged(r.added, HeadTurn) <==>
              v.movementAnalysis.Some? && v.movementAnalysis.value.headTurnDetected == Some(true)
    ensures |r.added| <= 3
    ensures s.score >= 0 ==> 0 <= r.state.score <= s.score
  {
    var ds := VideoDetections(v);
    var r := RecordAll(s, ds, at);
    LoggedIffYields(r.added, ds);
    r
  }

  /** `process_audio_analysis`: a noise record if the threshold was exceeded, then a speech record if speech was heard. */
  function ProcessAudio(s: State, a: AudioReport, at: seq<Instant>): (r: Processed)
    requires CountsTotal(s.counts)
    requires |at| >= |AudioDetections(a)|
    ensures r.state.log == s.log + r.added
    ensures Logged(r.added, NoiseDetected) <==>
              a.noiseAnalysis.Some? && a.noiseAnalysis.value.thresholdExceeded == Some(true)
    ensures Logged(r.added, SpeechDetected) <==> a.speechDetected == Some(true)
    ensures |r.added| <= 2
    ensures s.score >= 0 ==> 0 <= r.state.score <= s.score
  {
    var ds := AudioDetections(a);
    var r := RecordAll(s, ds, at);
    LoggedIffYields(r.added, ds);
    r
  }
}
