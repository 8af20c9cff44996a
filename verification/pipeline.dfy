/**
 * How the server feeds processor results to the scorer (backend/main.py):
 * a result is classified only when it reports success, so a decoding
 * failure records nothing. Combined with the processors' contracts this
 * gives the violations a frame or a chunk can cause in terms of what the
 * detectors saw.
 */
module Pipeline {
  import opened Options
  import opened Violations
  import opened Scorer
  import opened Analysis
  import opened Video
  import opened Audio

  /** The keys of a successful `process_frame` result that the video classifier reads. */
  function VideoReportOf(r: FrameResult): (v: VideoReport)
    requires r.FrameOk?
    ensures v.facePresent == Some(r.facePresent) && v.faceCount == Some(r.faceCount as int)
    ensures v.movementAnalysis.Some?
    ensures r.movementAnalysis.None? ==> v.movementAnalysis.value == MovementReport(None, None)
    ensures r.movementAnalysis.Some? ==>
              v.movementAnalysis.value.headTurnDetected == Some(r.movementAnalysis.value.headTurnDetected)
              && v.movementAnalysis.value.movementScore == Some(r.movementAnalysis.value.movementScore)
  {
    // without previous faces the result still carries an empty `movement_analysis` dictionary
    var movement :=
      match r.movementAnalysis
      case None => MovementReport(None, None)
      case Some(m) => MovementReport(Some(m.headTurnDetected), Some(m.movementScore));
    VideoReport(Some(r.facePresent), Some(r.faceCount as int), Some(movement))
  }

  /** The keys of a successful `process_audio_chunk` result that the audio classifier reads. */
  function AudioReportOf(r: ChunkResult): (a: AudioReport)
    requires r.ChunkOk?
    ensures a.speechDetected == Some(r.speechDetected)
    ensures a.audioQuality == Some(r.audioQuality.Label())
    ensures a.noiseAnalysis == Some(NoiseReport(
              Some(r.noiseAnalysis.thresholdExceeded),
              Some(r.noiseAnalysis.dbLevel),
              Some(r.noiseAnalysis.noiseLevel.Label())))
  {
    var n := r.noiseAnalysis;
    AudioReport(
      Some(NoiseReport(Some(n.thresholdExceeded), Some(n.dbLevel), Some(n.noiseLevel.Label()))),
      Some(r.speechDetected),
      Some(r.audioQuality.Label()))
  }

  /**
   * The violations a processed frame yields: face absent exactly when no
   * face was found, multiple faces exactly when more than one was, and a
   * head turn exactly when previous faces were supplied and the first
   * centres moved more than 50 pixels horizontally.
   */
  lemma FrameViolations(
    frame: Option<Frame>, yoloBoxes: seq<YoloBox>, rects: seq<Rect>,
    previous: Option<seq<Face>>, sqrt: real -> real, now: real)
    requires ProcessFrame(frame, yoloBoxes, rects, previous, sqrt, now).FrameOk?
    ensures var r := ProcessFrame(frame, yoloBoxes, rects, previous, sqrt, now);
            var ds := VideoDetections(VideoReportOf(r));
            && (Yields(ds, FaceAbsent) <==> |r.faces| == 0)
            && (Yields(ds, FaceAbsent) <==> |yoloBoxes| == 0 && |rects| == 0)
            && (Yields(ds, MultipleFaces) <==> |r.faces| > 1)
            && (Yields(ds, HeadTurn) <==>
                  previous.Some? && |r.faces| > 0 && |previous.value| > 0
                  && Abs(r.faces[0].center.x - previous.value[0].center.x) > HeadTurnPixels)
  {
  }

  /**
   * The server calls `process_frame` without previous faces
   * (backend/main.py:86), so a frame it handles never yields a head turn.
   */
  lemma ServerNeverReportsHeadTurn(
    frame: Option<Frame>, yoloBoxes: seq<YoloBox>, rects: seq<Rect>, sqrt: real -> real, now: real)
    requires ProcessFrame(frame, yoloBoxes, rects, None, sqrt, now).FrameOk?
    ensures !Yields(VideoDetections(VideoReportOf(ProcessFrame(frame, yoloBoxes, rects, None, sqrt, now))), HeadTurn)
  {
  }

  /**
   * The violations a processed chunk yields: noise exactly when its level is
   * above -40 dB, speech exactly when speech was detected; the noise record
   * carries the level and its band.
   */
  lemma ChunkViolations(data: seq<byte>, measuredDb: real, speech: bool, now: real)
    requires AnalyzeChunk(data, measuredDb, speech, now).ChunkOk?
    ensures var ds := AudioDetections(AudioReportOf(AnalyzeChunk(data, measuredDb, speech, now)));
            && (Yields(ds, NoiseDetected) <==> measuredDb > DefaultNoiseThresholdDb)
            && (Yields(ds, SpeechDetected) <==> speech)
            && (forall i :: 0 <= i < |ds| && ds[i].vtype == NoiseDetected ==>
                  ds[i].details == NoiseInfo(measuredDb, NoiseBand(measuredDb).Label()))
  {
  }

  /**
   * One `video_frame` message: the result is classified only on success.
   * `at` holds the clock readings for the (at most three) violations recorded.
   */
  function HandleVideoFrame(s: State, r: FrameResult, at: seq<Instant>): (p: Processed)
    requires CountsTotal(s.counts)
    requires |at| >= 3
    ensures r.FrameError? ==> p == Processed(s, [])
    ensures p.state.log == s.log + p.added
    ensures r.FrameOk? ==>
              && (Logged(p.added, FaceAbsent) <==> !r.facePresent)
              && (Logged(p.added, MultipleFaces) <==> r.faceCount > 1)
              && (Logged(p.added, HeadTurn) <==>
                    r.movementAnalysis.Some? && r.movementAnalysis.value.headTurnDetected)
    ensures s.score >= 0 ==> 0 <= p.state.score <= s.score
  {
    if r.FrameOk? then ProcessVideo(s, VideoReportOf(r), at) else Processed(s, [])
  }

  /**
   * One `audio_chunk` message: the result is classified only on success.
   * `at` holds the clock readings for the (at most two) violations recorded.
   */
  function HandleAudioChunk(s: State, r: ChunkResult, at: seq<Instant>): (p: Processed)
    requires CountsTotal(s.counts)
    requires |at| >= 2
    ensures r.ChunkError? ==> p == Processed(s, [])
    ensures p.state.log == s.log + p.added
    ensures r.ChunkOk? ==>
              && (Logged(p.added, NoiseDetected) <==> r.noiseAnalysis.thresholdExceeded)
              && (Logged(p.added, SpeechDetected) <==> r.speechDetected)
    ensures s.score >= 0 ==> 0 <= p.state.score <= s.score
  {
    if r.ChunkOk? then ProcessAudio(s, AudioReportOf(r), at) else Processed(s, [])
  }
}
