/**
 * The decision logic of `AudioProcessor` (backend/audio_processor.py):
 * 16-bit PCM decoding, the silence guard on the dB level, speech detection
 * over aligned segments, noise banding and the audio-quality verdict. The
 * RMS/log10 dB value of a non-empty chunk is an input, and webrtcvad's
 * `is_speech` is a function parameter.
 */
module Audio {
  newtype byte = x: int | 0 <= x < 256

  /** The dB level reported for an empty sample array. */
  const SilenceDb: real := -100.0
  const DefaultNoiseThresholdDb: real := -40.0
  const DefaultSampleRate: nat := 16000
  /** Bytes per speech-detection segment: 160 16-bit samples, 10 ms at 16 kHz. */
  const DefaultChunkSize: nat := 320
  const PcmScale: real := 32768.0

  /** Constructor arguments of `AudioProcessor`; `vadReady` says whether webrtcvad initialised. */
  datatype AudioConfig = AudioConfig(sampleRate: nat, chunkSize: nat, vadReady: bool)

  function DefaultConfig(vadReady: bool): AudioConfig
  {
    AudioConfig(DefaultSampleRate, DefaultChunkSize, vadReady)
  }

  // ---------------------------------------------------------------- decoding

  /** A little-endian two's-complement 16-bit sample. */
  function Int16LE(lo: byte, hi: byte): (v: int)
    ensures -32768 <= v < 32768
    ensures (v + 65536) % 65536 == lo as int + 256 * hi as int
  {
    var u := lo as int + 256 * hi as int;
    if u >= 32768 then u - 65536 else u
  }

  function LowByte(v: int): byte
    requires -32768 <= v < 32768
  {
    (((v + 65536) % 65536) % 256) as byte
  }

  function HighByte(v: int): byte
    requires -32768 <= v < 32768
  {
    (((v + 65536) % 65536) / 256) as byte
  }

  /** Decoding the two bytes of an encoded sample gives the sample back. */
  lemma Int16RoundTrip(v: int)
    requires -32768 <= v < 32768
    ensures Int16LE(LowByte(v), HighByte(v)) == v
  {
    var u := (v + 65536) % 65536;
    assert LowByte(v) as int + 256 * HighByte(v) as int == u;
  }

  /**
   * `decode_audio_chunk`: `np.frombuffer(..., int16)` divided by 32768. An
   * odd number of bytes makes `frombuffer` raise, and the handler returns an
   * empty array.
   */
  function DecodeChunk(data: seq<byte>): (samples: seq<real>)
    ensures |data| % 2 == 1 ==> samples == []
    ensures |data| % 2 == 0 ==> |samples| == |data| / 2
    ensures |data| % 2 == 0 ==>
              forall i :: 0 <= i < |samples| ==>
                samples[i] == Int16LE(data[2 * i], data[2 * i + 1]) as real / PcmScale
    ensures forall i :: 0 <= i < |samples| ==> -1.0 <= samples[i] < 1.0
    ensures samples == [] <==> |data| == 0 || |data| % 2 == 1
  {
    if |data| % 2 == 1 then []
    else seq(|data| / 2, i requires 0 <= i < |data| / 2 => Int16LE(data[2 * i], data[2 * i + 1]) as real / PcmScale)
  }

  /** The 16-bit PCM bytes of a sequence of samples. */
  function EncodePcm(vs: seq<int>): (data: seq<byte>)
    requires forall i :: 0 <= i < |vs| ==> -32768 <= vs[i] < 32768
    ensures |data| == 2 * |vs|
  {
    seq(2 * |vs|, k requires 0 <= k < 2 * |vs| =>
      if k % 2 == 0 then LowByte(vs[k / 2]) else HighByte(vs[k / 2]))
  }

  /** Where the two bytes of sample `i` sit in the encoding. */
  lemma EncodedSampleAt(vs: seq<int>, i: nat)
    requires forall i :: 0 <= i < |vs| ==> -32768 <= vs[i] < 32768
    requires i < |vs|
    ensures EncodePcm(vs)[2 * i] == LowByte(vs[i])
    ensures EncodePcm(vs)[2 * i + 1] == HighByte(vs[i])
  {
    assert (2 * i) % 2 == 0 && (2 * i) / 2 == i;
    assert (2 * i + 1) % 2 == 1 && (2 * i + 1) / 2 == i;
  }

  /** Decoding the PCM encoding of integer samples gives each sample divided by 32768. */
  lemma DecodeEncode(vs: seq<int>)
    requires forall i :: 0 <= i < |vs| ==> -32768 <= vs[i] < 32768
    ensures |DecodeChunk(EncodePcm(vs))| == |vs|
    ensures forall i :: 0 <= i < |vs| ==> DecodeChunk(EncodePcm(vs))[i] == vs[i] as real / PcmScale
  {
    var data := EncodePcm(vs);
    assert |data| % 2 == 0 && |data| / 2 == |vs|;
    var samples := DecodeChunk(data);
    forall i | 0 <= i < |vs|
      ensures samples[i] == vs[i] as real / PcmScale
    {
      EncodedSampleAt(vs, i);
      Int16RoundTrip(vs[i]);
      assert samples[i] == Int16LE(data[2 * i], data[2 * i + 1]) as real / PcmScale;
    }
  }

  // ---------------------------------------------------------------- level

  /**
   * `calculate_rms_db`: an empty array is reported as -100 dB; otherwise the
   * level is `measured`, the value of `20 * log10(rms + 1e-10)`.
   */
  function RmsDb(samples: seq<real>, measured: real): (db: real)
    ensures |samples| == 0 ==> db == SilenceDb
    ensures |samples| > 0 ==> db == measured
  {
    if |samples| == 0 then SilenceDb else measured
  }

  // ---------------------------------------------------------------- speech

  /** The `j`-th segment of `c` bytes, starting at byte `j * c`. */
  function Segment(data: seq<byte>, c: nat, j: nat): seq<byte>
    requires j * c + c <= |data|
  {
    data[j * c .. j * c + c]
  }

  /** Some whole segment aligned to a multiple of `c` is classified as speech. */
  ghost predicate AlignedSpeech(data: seq<byte>, c: nat, rate: nat, isSpeech: (seq<byte>, nat) -> bool)
  {
    exists j: nat :: j * c + c <= |data| && isSpeech(Segment(data, c, j), rate)
  }

  /**
   * What `detect_speech` returns: false without a VAD or for input shorter
   * than one chunk; a chunk size of 0 only admits empty input, since
   * `range` with step 0 raises and the handler returns false.
   */
  ghost predicate SpeechDetected(data: seq<byte>, config: AudioConfig, isSpeech: (seq<byte>, nat) -> bool)
  {
    && config.vadReady
    && |data| >= config.chunkSize
    && (if config.chunkSize == 0 then |data| == 0 && isSpeech(data, config.sampleRate)
        else AlignedSpeech(data, config.chunkSize, config.sampleRate, isSpeech))
  }

  /** Multiples of `c` grow with the multiplier. */
  lemma {:induction false} MulMono(x: nat, y: nat, c: nat)
    requires x <= y
    ensures x * c <= y * c
    decreases y - x
  {
    if x < y {
      MulMono(x, y - 1, c);
      assert y * c == (y - 1) * c + c;
    }
  }

  /** A multiple of `c` below another is at least `c` below it. */
  lemma AlignedBelow(a: nat, b: nat, c: nat)
    requires c > 0 && a * c < b * c
    ensures a * c + c <= b * c
  {
    if a >= b {
      MulMono(b, a, c);
    } else {
      MulMono(a + 1, b, c);
      assert (a + 1) * c == a * c + c;
    }
  }

  /** For input of exactly one chunk the only aligned segment is the whole input. */
  lemma OnlySegment(data: seq<byte>, c: nat, rate: nat, isSpeech: (seq<byte>, nat) -> bool)
    requires |data| == c > 0
    ensures AlignedSpeech(data, c, rate, isSpeech) <==> isSpeech(data, rate)
  {
    assert Segment(data, c, 0) == data;
    if AlignedSpeech(data, c, rate, isSpeech) {
      var j: nat :| j * c + c <= |data| && isSpeech(Segment(data, c, j), rate);
      assert j == 0;
    }
  }

  /**
   * `detect_speech`: classifies segments at offsets 0, c, 2c, ... while a
   * whole segment fits, and stops at the first one classified as speech.
   */
  method DetectSpeech(data: seq<byte>, config: AudioConfig, isSpeech: (seq<byte>, nat) -> bool) returns (r: bool)
    ensures r == SpeechDetected(data, config, isSpeech)
  {
    var c := config.chunkSize;
    if !config.vadReady || |data| < c {
      return false;
    }
    if |data| == c {
      if c > 0 {
        OnlySegment(data, c, config.sampleRate, isSpeech);
      }
      return isSpeech(data, config.sampleRate);
    }
    if c == 0 {
      return false;
    }
    var i := 0;
    ghost var j: nat := 0;
    while i + c <= |data|
      invariant i == j * c && i <= |data|
      invariant forall m: nat :: m * c + c <= i ==> !isSpeech(Segment(data, c, m), config.sampleRate)
    {
      if isSpeech(data[i .. i + c], config.sampleRate) {
        assert Segment(data, c, j) == data[i .. i + c];
        return true;
      }
      forall m: nat | m * c + c <= i + c
        ensures !isSpeech(Segment(data, c, m), config.sampleRate)
      {
        if m * c < i {
          AlignedBelow(m, j, c);
        }
      }
      i := i + c;
      j := j + 1;
    }
    forall m: nat | m * c + c <= |data|
      ensures !isSpeech(Segment(data, c, m), config.sampleRate)
    {
      AlignedBelow(m, j, c);
    }
    return false;
  }

  /** A segment lying inside `data` is unaffected by bytes appended after it. */
  lemma SegmentOfPrefix(data: seq<byte>, tail: seq<byte>, c: nat, j: nat)
    requires j * c + c <= |data|
    ensures Segment(data + tail, c, j) == Segment(data, c, j)
  {
    var lo := j * c;
    assert forall i :: lo <= i < lo + c ==> (data + tail)[i] == data[i];
  }

  /**
   * Bytes after the last whole segment never influence speech detection:
   * for `data` made of `k` whole segments and a tail shorter than one.
   */
  lemma {:induction false} TrailingBytesIgnored(
    data: seq<byte>, tail: seq<byte>, k: nat, c: nat, rate: nat, isSpeech: (seq<byte>, nat) -> bool)
    requires c > 0 && |data| == k * c && |tail| < c
    ensures AlignedSpeech(data + tail, c, rate, isSpeech) <==> AlignedSpeech(data, c, rate, isSpeech)
  {
    if AlignedSpeech(data + tail, c, rate, isSpeech) {
      var j: nat :| j * c + c <= |data + tail| && isSpeech(Segment(data + tail, c, j), rate);
      AlignedBelow(j, k, c);
      SegmentOfPrefix(data, tail, c, j);
    }
    if AlignedSpeech(data, c, rate, isSpeech) {
      var j: nat :| j * c + c <= |data| && isSpeech(Segment(data, c, j), rate);
      SegmentOfPrefix(data, tail, c, j);
    }
  }

  // ---------------------------------------------------------------- noise

  datatype NoiseLevel = NoiseLow | NoiseMedium | NoiseHigh
  {
    /** The string `detect_background_noise` reports. */
    function Label(): string
    {
      match this
      case NoiseLow => "low"
      case NoiseMedium => "medium"
      case NoiseHigh => "high"
    }
  }

  /** The noise band of a dB level: below -50 low, below -30 medium, otherwise high. */
  function NoiseBand(db: real): (n: NoiseLevel)
    ensures n == NoiseLow <==> db < -50.0
    ensures n == NoiseMedium <==> -50.0 <= db < -30.0
    ensures n == NoiseHigh <==> db >= -30.0
  {
    if db < -50.0 then NoiseLow else if db < -30.0 then NoiseMedium else NoiseHigh
  }

  /** The dictionary `detect_background_noise` returns. */
  datatype NoiseAnalysis = NoiseAnalysis(noiseDetected: bool, dbLevel: real, noiseLevel: NoiseLevel, thresholdExceeded: bool)

  /** `detect_background_noise(samples, threshold_db)`. */
  function DetectBackgroundNoise(samples: seq<real>, measuredDb: real, thresholdDb: real := DefaultNoiseThresholdDb): (n: NoiseAnalysis)
    ensures n.dbLevel == RmsDb(samples, measuredDb)
    ensures n.noiseDetected == n.thresholdExceeded
    ensures n.thresholdExceeded <==> n.dbLevel > thresholdDb
    ensures n.noiseLevel == NoiseBand(n.dbLevel)
  {
    var db := RmsDb(samples, measuredDb);
    NoiseAnalysis(db > thresholdDb, db, NoiseBand(db), db > thresholdDb)
  }

  /**
   * Against the default threshold the outer bands are decided: a high band
   * always exceeds -40 dB and a low band never does; only the medium band
   * straddles the threshold.
   */
  lemma BandsAgainstDefaultThreshold(samples: seq<real>, measuredDb: real)
    ensures DetectBackgroundNoise(samples, measuredDb).noiseLevel == NoiseHigh ==>
              DetectBackgroundNoise(samples, measuredDb).thresholdExceeded
    ensures DetectBackgroundNoise(samples, measuredDb).noiseLevel == NoiseLow ==>
              !DetectBackgroundNoise(samples, measuredDb).thresholdExceeded
    ensures |samples| == 0 ==> !DetectBackgroundNoise(samples, measuredDb).noiseDetected
  {
  }

  // ---------------------------------------------------------------- quality

  datatype Quality = Good | TooQuiet | TooLoud | Noisy
  {
    /** The string `process_audio_chunk` reports. */
    function Label(): string
    {
      match this
      case Good => "good"
      case TooQuiet => "too_quiet"
      case TooLoud => "too_loud"
      case Noisy => "noisy"
    }
  }

  /** The audio-quality verdict: too quiet, else too loud, else noisy, else good. */
  function AudioQuality(db: real, thresholdExceeded: bool): (q: Quality)
    ensures q == TooQuiet <==> db < -60.0
    ensures q == TooLoud <==> -60.0 <= db && db > -20.0
    ensures q == Noisy <==> -60.0 <= db <= -20.0 && thresholdExceeded
    ensures q == Good <==> -60.0 <= db <= -20.0 && !thresholdExceeded
  {
    if db < -60.0 then TooQuiet
    else if db > -20.0 then TooLoud
    else if thresholdExceeded then Noisy
    else Good
  }

  // ---------------------------------------------------------------- chunk

  /** What `process_audio_chunk` returns; the spectral features are not modelled. */
  datatype ChunkResult =
    | ChunkOk(
        dbLevel: real,
        speechDetected: bool,
        noiseAnalysis: NoiseAnalysis,
        audioQuality: Quality,
        chunkSize: nat,
        processingTime: real)
    | ChunkError(error: string)

  /**
   * `process_audio_chunk` once `speech` has been decided: `measuredDb` is the
   * dB level of the decoded samples and `now` the clock reading.
   */
  function AnalyzeChunk(data: seq<byte>, measuredDb: real, speech: bool, now: real): (r: ChunkResult)
    ensures r.ChunkError? <==> |data| == 0 || |data| % 2 == 1
    ensures r.ChunkOk? ==>
              && r.dbLevel == measuredDb
              && r.speechDetected == speech
              && r.noiseAnalysis.dbLevel == measuredDb
              && (r.noiseAnalysis.thresholdExceeded <==> measuredDb > DefaultNoiseThresholdDb)
              && r.audioQuality == AudioQuality(measuredDb, measuredDb > DefaultNoiseThresholdDb)
              && r.chunkSize == |data|
              && r.processingTime == now
  {
    var samples := DecodeChunk(data);
    if |samples| == 0 then ChunkError("Invalid audio data")
    else
      var db := RmsDb(samples, measuredDb);
      var noise := DetectBackgroundNoise(samples, measuredDb);
      ChunkOk(db, speech, noise, AudioQuality(db, noise.thresholdExceeded), |data|, now)
  }

  /**
   * With the default threshold, a chunk is reported noisy exactly when its
   * level is in (-40, -20] dB and good exactly when it is in [-60, -40] dB.
   */
  lemma QualityBandsForChunk(data: seq<byte>, measuredDb: real, speech: bool, now: real)
    requires AnalyzeChunk(data, measuredDb, speech, now).ChunkOk?
    ensures AnalyzeChunk(data, measuredDb, speech, now).audioQuality == Noisy <==> -40.0 < measuredDb <= -20.0
    ensures AnalyzeChunk(data, measuredDb, speech, now).audioQuality == Good <==> -60.0 <= measuredDb <= -40.0
  {
  }

  /** `process_audio_chunk(audio_data)`: decoding, then speech detection, then the report. */
  method ProcessAudioChunk(
    data: seq<byte>, measuredDb: real, config: AudioConfig,
    isSpeech: (seq<byte>, nat) -> bool, now: real) returns (r: ChunkResult)
    ensures r == AnalyzeChunk(data, measuredDb, SpeechDetected(data, config, isSpeech), now)
    ensures r.ChunkOk? ==> (r.speechDetected <==> SpeechDetected(data, config, isSpeech))
  {
    var samples := DecodeChunk(data);
    if |samples| == 0 {
      return ChunkError("Invalid audio data");
    }
    var speech := DetectSpeech(data, config, isSpeech);
    r := AnalyzeChunk(data, measuredDb, speech, now);
  }
}
