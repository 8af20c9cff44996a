# Proctoring behaviour scorer: a Dafny model

This project models the core of a proctoring backend:

- **Behaviour scorer** (`backend/behavior_scorer.py`). The scorer starts at 100 points. The video and audio classifiers turn detector results into violations. `add_violation` counts each violation per type. Once a type's count reaches that type's threshold, and its five-second cooldown has passed, the scorer deducts the type's penalty, never going below zero. The scorer also produces a summary, groupings by type and by severity, a timestamp-ordered timeline, and a final score that weighs the behaviour score against a test score and decides on a certificate.
- **Video processor** (`backend/video_processor.py`). This part turns detector boxes into faces and prefers YOLO faces over Haar-cascade faces. It derives presence and stability from the face count, and reports a head turn when the first face's centre moves more than 50 pixels horizontally between frames.
- **Audio processor** (`backend/audio_processor.py`). This part decodes 16-bit PCM. It detects speech over segments aligned to the chunk size, bands the noise level and grades the audio quality.
- **Server wiring** (`backend/main.py`). Only the rule that a processor result is classified when it reports success is modelled.

The scorer is an immutable `State` (score, log, per-type counts, per-type last-penalty time), and `AddViolation` is a pure step on it. Every clock reading is an explicit argument. An `Instant` holds the `time.time()` value used for cooldowns and the `datetime.utcnow()` value stored in the record. A result-dictionary key that a caller may omit is an `Option`, read with the default the source's `.get` uses. The foreign computations become inputs:

- the square root in the movement distance is a function parameter;
- the RMS/log10 dB level of a non-empty chunk is a real input;
- webrtcvad's `is_speech` is a function parameter;
- the face detectors' raw boxes are inputs.

Files, one module each: `options.dfy`, `violations.dfy`, `scorer.dfy`, `scorer_invariants.dfy`, `analysis.dfy`, `reports.dfy`, `final_score.dfy`, `video.dfy`, `audio.dfy`, `pipeline.dfy`.

Details of the code that the model follows:

- Thresholds are counts of detections. The face-absence entry is commented as seconds, but it is compared against a count.
- The cooldown is a strict `>` 5.0 seconds.
- A noise violation is recorded even when speech is detected in the same chunk.
- The score is an integer.
- There is no per-(user, course) session registry and no lifecycle state: the server keeps one scorer and resets it for each new connection.
- Three face-absent detections from a fresh scorer bill the third, because the threshold is 3 (`ScorerInvariants.FaceAbsentScenario`).

## Model

| member | source | states |
|---|---|---|
| Scorer.Reset | backend/behavior_scorer.py:54-59 | After a reset the score is 100, the log is empty, every type's count is 0 and no cooldown is running: the state of a fresh scorer. |
| Scorer.FloorAtZero | backend/behavior_scorer.py:97 | The deducted score is never negative and is either the difference or 0. |
| Scorer.AddViolation | backend/behavior_scorer.py:62-110 | One record is appended. It carries the type, severity, details, UTC stamp and the incremented count. It is billed iff the count reaches the threshold and the type was never billed or was last billed more than 5 s ago. A bill deducts the type's penalty floored at 0, zeroes the count, restarts the cooldown and stores the amount. An unbilled record changes nothing but the count. Other types are untouched, and the score never rises. |
| Scorer.Run | backend/behavior_scorer.py:72-110 | Recording a sequence of detections keeps a count for every type and appends exactly one record per detection. |
| Scorer.AddTabSwitch | backend/behavior_scorer.py:183-190 | A tab switch is logged as high severity with the immediate-penalty marker. Its threshold is one, so it is billed exactly when the tab-switch cooldown allows. |
| ScorerInvariants.UnseenTypeHasNoCooldown | backend/behavior_scorer.py:64-65 | Starting from a state with no cooldown for a type (a fresh or just-reset scorer), if no later detection had that type, it still has no cooldown entry and so is never suppressed by a cooldown. |
| ScorerInvariants.FirstTabSwitchBilled | backend/behavior_scorer.py:183-190 | The first tab switch since the scorer was created or reset is always billed and costs 5 points (floored at 0), whatever other violations came before it. |
| ScorerInvariants.ReplayInRange | backend/behavior_scorer.py:93-103 | Re-applying the billed records of any log from 100 stays within [0, 100]. |
| ScorerInvariants.ReplayUntouchedIffNothingBilled | backend/behavior_scorer.py:93-103 | The replayed score is still 100 exactly when no record of the log was billed. |
| ScorerInvariants.ResetConsistent | backend/behavior_scorer.py:54-59 | A reset state agrees with its (empty) log: the score is the replay, the counts are pending detections, and cooldowns exist only for billed types. |
| ScorerInvariants.AddPreservesConsistent | backend/behavior_scorer.py:72-110 | One `add_violation` keeps the state consistent with its log. The score equals the replay of the bills. Each count equals the detections since that type's last bill. A cooldown entry exists exactly for the types ever billed. Every record carries its true count and, exactly when billed, the table penalty. |
| ScorerInvariants.RunAppends | backend/behavior_scorer.py:107-110 | A run leaves the earlier log intact and appends one record per detection that matches its type, severity, details and stamp. |
| ScorerInvariants.RunConcat | backend/behavior_scorer.py:72-110 | Recording two batches in turn is the same as recording their concatenation. |
| ScorerInvariants.RunConsistent | backend/behavior_scorer.py:72-110 | Consistency with the log survives any sequence of detections. |
| ScorerInvariants.RunNeverRaises | backend/behavior_scorer.py:97 | No sequence of detections raises a non-negative score or takes it below zero. |
| ScorerInvariants.FreshRunScore | backend/behavior_scorer.py:72-110 | From a fresh scorer, after any detections, the score lies in [0, 100], equals the replay of the log, and is 100 iff nothing was billed. |
| ScorerInvariants.ScoreNonIncreasing | backend/behavior_scorer.py:97 | Along one session a later score is never above an earlier one. |
| ScorerInvariants.RunPrefixLog | backend/behavior_scorer.py:108 | The log after a prefix of the detections is the matching prefix of the full log. |
| ScorerInvariants.FreshRunTracksLastPenalty | backend/behavior_scorer.py:103 | For every billed record, its type's cooldown entry is that record's time or lies more than 5 s after it. |
| ScorerInvariants.FreshRunSpacesBills | backend/behavior_scorer.py:62-70 | In a fresh session any two billed records of one type come from clock readings more than 5 s apart. |
| ScorerInvariants.BilledSameTypeSpaced | backend/behavior_scorer.py:62-70 | The cooldown property for two given records: billed records i < j of the same type are more than 5 s apart. The clock need not be monotone. |
| ScorerInvariants.FaceAbsentScenario | backend/behavior_scorer.py:62-110 | Seven face-absent detections at 0, 1, 2, 3, 4, 5 and 8 s: the third is billed (score 95); the sixth reaches the threshold inside the cooldown and is not billed; the seventh is billed (score 90). |
| Analysis.LoggedIffYields | backend/behavior_scorer.py:112-181 | When records match detections one to one, a type is logged exactly when it was detected. |
| Analysis.VideoDetections | backend/behavior_scorer.py:112-149 | The video classifier detects at most three things, in this order: face absent iff `face_present` is false (missing counts as true), high severity with the face count; multiple faces iff the face count (default 0) exceeds 1, critical; head turn iff the movement report says so, medium, with the movement score (default 0). |
| Analysis.AudioDetections | backend/behavior_scorer.py:151-181 | The audio classifier detects noise iff the noise report's `threshold_exceeded` is true, medium, with dB level (default 0) and band (default "unknown"). It then detects speech iff `speech_detected` is true, medium, with the audio quality (default "unknown"). |
| Analysis.RecordAll | backend/behavior_scorer.py:119-176 | Recording a classifier's detections appends one matching record per detection, in order, and never raises the score. |
| Analysis.ProcessVideo | backend/behavior_scorer.py:112-149 | After processing a video result, face absent, multiple faces and head turn are logged exactly under the classifier's conditions; at most three records are added; the score never rises. |
| Analysis.ProcessAudio | backend/behavior_scorer.py:151-181 | After processing an audio result, noise and speech are logged exactly under the classifier's conditions; at most two records are added; the score never rises. |
| Reports.Select | backend/behavior_scorer.py:206-214 | A group holds only records of its key, all from the log, and every record of that key. |
| Reports.GroupBy | backend/behavior_scorer.py:206-214 | The grouping loop yields exactly the keys occurring in the log. Each maps to a non-empty list of that key's records in log order. |
| Reports.GroupByType | backend/behavior_scorer.py:206-214 | `_group_violations_by_type` yields the order-preserving groups of the log by type. |
| Reports.GroupBySeverity | backend/behavior_scorer.py:265-273 | `_group_violations_by_severity` yields the order-preserving groups of the log by severity. |
| Reports.GroupsPartitionLog | backend/behavior_scorer.py:209-213 | Over a duplicate-free key list covering the log, the group sizes add up to the log length, so every record is in exactly one group. |
| Reports.TypeGroupsPartition | backend/behavior_scorer.py:206-214 | The per-type groups together hold every logged record exactly once. |
| Reports.SeverityGroupsPartition | backend/behavior_scorer.py:265-273 | The per-severity groups together hold every logged record exactly once. |
| Reports.SortByStamp | backend/behavior_scorer.py:287 | The sort yields an ascending permutation that keeps the input order among equal stamps, as Python's stable `list.sort` does. |
| Reports.SortOfSortedIsIdentity | backend/behavior_scorer.py:287 | Sorting an already ordered sequence changes nothing. |
| Reports.Timeline | backend/behavior_scorer.py:275-288 | The timeline is a permutation of the log's entries, ordered by timestamp, with log order kept among equal timestamps. |
| Reports.TimelineOfOrderedLog | backend/behavior_scorer.py:275-288 | When stamps never go backwards in the log, the timeline is the log in its own order. |
| Reports.ViolationSummary | backend/behavior_scorer.py:196-204 | The summary's total equals the log length. Current score plus deduction equals 100. The counts are the scorer's, and the by-type entry is the log's grouping by type. |
| Reports.SummaryOfConsistentState | backend/behavior_scorer.py:196-204 | For a consistent scorer the deduction lies in [0, 100] and is 0 iff nothing was billed; the per-type groups hold `total_violations` records. |
| FinalScore.Clamp | backend/behavior_scorer.py:221-222 | A clamped score lies in [0, 100] and equals the input when the input does. |
| FinalScore.CalculateFinalScore | backend/behavior_scorer.py:216-243 | Both scores are clamped. The final score is the sum of the weighted contributions. The certificate is issued iff the final score is at least 85. The summary is attached. |
| FinalScore.FinalScoreInRange | backend/behavior_scorer.py:216-228 | With the default weights the final score lies in [0, 100]. |
| FinalScore.CertificateNeedsBothScores | backend/behavior_scorer.py:225-228 | With the default weights an issued certificate needs a clamped test score of at least 75 and a behaviour score of at least 62.5. |
| FinalScore.FinalScoreMonotoneInTest | backend/behavior_scorer.py:225-228 | A better test score never lowers the final score nor revokes an issued certificate. |
| FinalScore.FinalScoreMonotoneInBehavior | backend/behavior_scorer.py:221-225 | A lower behaviour score never gives a higher final score. |
| FinalScore.FinalScoreExamples | backend/behavior_scorer.py:225-235 | Behaviour 100 with test 90 gives 94 and is issued. Behaviour 60 with test 70 gives 66 and is refused. Behaviour 100 with test 75 gives exactly 85 and is issued. |
| Video.Trunc | backend/video_processor.py:62-64 | Python's `int()` truncates toward zero. |
| Video.CascadeFace | backend/video_processor.py:83-88 | A cascade rectangle becomes the bbox [x, y, x+w, y+h] with confidence 1.0. The centre is the bbox midpoint rounded down, and it lies inside the bbox for non-negative sizes. |
| Video.YoloFace | backend/video_processor.py:58-65 | A YOLO box becomes the truncated corner bbox, the float confidence, and the truncated real midpoint as centre. On non-negative corners the centre is the rounded-down midpoint of the integer bbox or one more, and it lies inside the bbox when the corners are ordered. |
| Video.MidpointBound | backend/video_processor.py:62-64 | Truncating the midpoint of two non-negative coordinates gives the rounded-down midpoint of their truncations or one more; it lies between the truncations; for whole numbers it is exactly that midpoint. |
| Video.CentreConventionsAgree | backend/video_processor.py:62-64 | On any non-negative corners the YOLO centre is the rounded-down midpoint of its bbox (the cascade convention) or one more; on whole-pixel corners it is exactly that midpoint. |
| Video.FractionalCornersShiftCentre | backend/video_processor.py:62-64 | The one-more case happens: x from 0.9 to 1.9 gives bbox x-range 0..1 (midpoint 0) but centre 1. |
| Video.DetectCascade | backend/video_processor.py:82-90 | One face per cascade rectangle, in order. |
| Video.DetectYolo | backend/video_processor.py:52-67 | One face per YOLO box, in order. |
| Video.SelectFaces | backend/video_processor.py:163-164 | The YOLO faces are used when there are any; otherwise the cascade's; the result is empty only if both are. |
| Video.AnalyzeMovement | backend/video_processor.py:113-145 | With either face list empty the result is no head turn, score 0, stability 1. Otherwise a head turn is reported iff the first faces' centres differ by more than 50 pixels horizontally. The movement score never exceeds 1. |
| Video.ProcessFrame | backend/video_processor.py:151-190 | An undecodable frame gives an error. Otherwise: the YOLO-or-cascade faces; `face_count` is their number; present iff the count is above 0; stable iff it is 1; the frame dimensions; movement analysis present iff previous faces were supplied, and then computed against them. |
| Audio.Int16LE | backend/audio_processor.py:33 | A little-endian sample lies in [-32768, 32768) and is the two's-complement reading of its two bytes. |
| Audio.Int16RoundTrip | backend/audio_processor.py:33 | Decoding the two bytes of an encoded 16-bit sample gives the sample back. |
| Audio.DecodeChunk | backend/audio_processor.py:29-42 | Odd-length input decodes to nothing. Even-length input gives one sample per byte pair, the 16-bit value divided by 32768. Every sample lies in [-1, 1). The result is empty iff the input is empty or odd. |
| Audio.DecodeEncode | backend/audio_processor.py:33-36 | Decoding the PCM encoding of integer samples gives each sample divided by 32768. |
| Audio.RmsDb | backend/audio_processor.py:44-56 | An empty sample array is reported as -100 dB; a non-empty one at its measured level. |
| Audio.DetectSpeech | backend/audio_processor.py:62-84 | The result is false without a VAD and for input shorter than one chunk. For a chunk size of 0 the result is the VAD's verdict on empty input and false otherwise. Otherwise it is true iff some whole segment at a multiple of the chunk size is speech. The fast path for exactly one chunk and the early `break` do not change the answer. |
| Audio.OnlySegment | backend/audio_processor.py:69-70 | For input of exactly one chunk, aligned-segment speech is the VAD's verdict on the whole input. |
| Audio.TrailingBytesIgnored | backend/audio_processor.py:74-75 | Bytes after the last whole segment never affect speech detection. |
| Audio.NoiseBand | backend/audio_processor.py:113 | The band is low below -50 dB, medium in [-50, -30) dB, and high from -30 dB. The three bands are disjoint and cover every level. |
| Audio.DetectBackgroundNoise | backend/audio_processor.py:107-120 | The level is the chunk's dB level. `noise_detected` equals `threshold_exceeded`, and both hold iff the level is above the threshold (default -40). The band is that of the level. |
| Audio.BandsAgainstDefaultThreshold | backend/audio_processor.py:112-113 | Against -40 dB a high band always exceeds the threshold and a low band never does; an empty chunk never counts as noise. |
| Audio.AudioQuality | backend/audio_processor.py:153-159 | The quality is too quiet below -60 dB. Otherwise it is too loud above -20 dB. In between it is noisy if the threshold was exceeded, else good. The four cases are disjoint and exhaustive. |
| Audio.AnalyzeChunk | backend/audio_processor.py:131-172 | The result is an error exactly for empty or odd-length input. Otherwise it reports the measured level, the speech verdict, noise over -40 dB, the quality of that level and the byte length. |
| Audio.QualityBandsForChunk | backend/audio_processor.py:153-159 | With the default threshold a chunk is noisy iff its level is in (-40, -20] dB and good iff it is in [-60, -40] dB. |
| Audio.ProcessAudioChunk | backend/audio_processor.py:131-172 | `process_audio_chunk` decodes first and runs speech detection only on decodable input. Its result carries the aligned-segment speech verdict. |
| Pipeline.VideoReportOf | backend/video_processor.py:179-188 | The classifier reads `face_present`, `face_count` and the movement dictionary, which is present but empty when no previous faces were given. |
| Pipeline.AudioReportOf | backend/audio_processor.py:161-170 | The classifier reads the noise dictionary, `speech_detected` and the quality label of a successful chunk. |
| Pipeline.FrameViolations | backend/behavior_scorer.py:117-144 | For a processed frame: face absent iff no face was found by either detector; multiple faces iff more than one face is used; head turn iff previous faces were supplied and the first centres moved more than 50 px horizontally. |
| Pipeline.ServerNeverReportsHeadTurn | backend/main.py:86 | The server passes no previous faces, so no frame it handles yields a head turn. |
| Pipeline.ChunkViolations | backend/behavior_scorer.py:156-176 | For a processed chunk: noise iff the level is above -40 dB, whatever the speech verdict; speech iff speech was detected. The noise record carries the level and its band. |
| Pipeline.HandleVideoFrame | backend/main.py:85-90 | A frame error records nothing. A successful frame logs face absent, multiple faces and head turn exactly under the frame's flags, and never raises the score. |
| Pipeline.HandleAudioChunk | backend/main.py:105-112 | A chunk error records nothing. A successful chunk logs noise and speech exactly under the chunk's flags, and never raises the score. |

## Left out

- The WebSocket and HTTP handlers, JSON and base64 handling, and database logging in `backend/main.py` are I/O. Only the success gate before classification is modelled.
- The single scorer shared by all connections in `backend/main.py` is a concurrency concern and is not modelled.
- `backend/database.py` (MongoDB persistence) and `backend/models.py` (schemas without behaviour) are I/O and types only.
- Frame decoding, YOLO, the Haar cascade, DeepFace and the `verify_identity` placeholder are foreign library calls. Their outputs (boxes, rectangles, whether a frame decoded) are inputs.
- The RMS and `log10` dB computation is floating-point numerics. The level of a non-empty chunk is an input; only the empty-input guard is modelled.
- webrtcvad is an abstract predicate over a byte segment and the sample rate. Whether it initialised is the `vadReady` flag.
- librosa spectral features, the PyAudio stream and `cleanup` are foreign calls or resource handling with no decision logic.
- `get_current_score` is a field read, and `get_detailed_report` only bundles the summary, the log, the severity grouping and the timeline (`Reports.Report`).
- The broad `try/except` handlers that return default dictionaries are not modelled, apart from the odd-length decode failure and the zero chunk size in `detect_speech`, whose outcomes are part of the modelled behaviour.
- Scores are exact reals, not IEEE doubles, so rounding near the 85 threshold is not modelled. The weight values are Python's decimal literals taken exactly.
- Video.AnalyzeMovement: states only the cap at 1.0 for the movement score, because the square root is a parameter.
- FinalScore.FinalScoreInRange: proved only for the default weights 0.4 and 0.6. The source accepts any weights and does not bound the result for other values.
- Timestamps are the real-valued readings passed in an `Instant`; `datetime` objects and time zones are not modelled.
- YOLO corner coordinates and confidence are exact reals. The float32 rounding of `x1 + x2` before `int()` truncates it is not modelled, so a sum within float32 precision of a whole number can truncate differently.
- PCM is decoded little-endian, as on the usual hosts; `np.frombuffer` reads the host's native byte order.
- The groupings by type and by severity are maps, so the first-occurrence order of their keys in the serialised dictionaries is not modelled; each group's records keep log order.
