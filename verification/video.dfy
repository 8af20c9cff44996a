/**
 * The decision logic of `VideoProcessor` (backend/video_processor.py):
 * turning detector boxes into faces, choosing between the two detectors,
 * movement analysis between frames and the per-frame presence flags.
 * Frame decoding and the detectors themselves are inputs; `np.sqrt` is a
 * function parameter.
 */
module Video {
  import opened Options

  datatype Point = Point(x: int, y: int)

  /** Corners `[x1, y1, x2, y2]` of a bounding box. */
  datatype BBox = BBox(x1: int, y1: int, x2: int, y2: int)

  datatype Face = Face(bbox: BBox, confidence: real, center: Point)

  /** One Haar-cascade detection: top-left corner, width and height in pixels. */
  datatype Rect = Rect(x: int, y: int, w: int, h: int)

  /** One YOLO person detection: corner coordinates and confidence, as floats. */
  datatype YoloBox = YoloBox(x1: real, y1: real, x2: real, y2: real, confidence: real)

  /** A decoded frame; only its dimensions matter here. */
  datatype Frame = Frame(width: nat, height: nat)

  /** Horizontal centre shift, in pixels, above which a head turn is reported. */
  const HeadTurnPixels: int := 50

  /** Centre distance, in pixels, that counts as a full movement score of 1. */
  const MovementScale: real := 100.0

  function Abs(x: int): nat
  {
    if x < 0 then -x else x
  }

  /** Python's `int()` on a float: truncation toward zero. */
  function Trunc(r: real): (n: int)
    ensures r >= 0.0 ==> n as real <= r < n as real + 1.0
    ensures r < 0.0 ==> n as real - 1.0 < r <= n as real
  {
    if r >= 0.0 then r.Floor else -((-r).Floor)
  }

  /** The face `detect_faces_opencv` builds from one cascade rectangle. */
  function CascadeFace(r: Rect): (f: Face)
    ensures f.bbox.x1 == r.x && f.bbox.y1 == r.y
    ensures f.bbox.x2 - f.bbox.x1 == r.w && f.bbox.y2 - f.bbox.y1 == r.h
    ensures f.confidence == 1.0
    // the centre is the bounding box's midpoint, rounded down
    ensures f.center == Point((f.bbox.x1 + f.bbox.x2) / 2, (f.bbox.y1 + f.bbox.y2) / 2)
    ensures r.w >= 0 && r.h >= 0 ==>
              f.bbox.x1 <= f.center.x <= f.bbox.x2 && f.bbox.y1 <= f.center.y <= f.bbox.y2
  {
    Face(BBox(r.x, r.y, r.x + r.w, r.y + r.h), 1.0, Point(r.x + r.w / 2, r.y + r.h / 2))
  }

  /** The face `detect_faces_yolo` builds from one YOLO box. */
  function YoloFace(b: YoloBox): (f: Face)
    ensures f.bbox == BBox(Trunc(b.x1), Trunc(b.y1), Trunc(b.x2), Trunc(b.y2))
    ensures f.center == Point(Trunc((b.x1 + b.x2) / 2.0), Trunc((b.y1 + b.y2) / 2.0))
    ensures f.confidence == b.confidence
    // on non-negative corners the centre is the bbox's rounded-down midpoint or one more
    ensures 0.0 <= b.x1 && 0.0 <= b.x2 ==>
              (f.bbox.x1 + f.bbox.x2) / 2 <= f.center.x <= (f.bbox.x1 + f.bbox.x2) / 2 + 1
    ensures 0.0 <= b.y1 && 0.0 <= b.y2 ==>
              (f.bbox.y1 + f.bbox.y2) / 2 <= f.center.y <= (f.bbox.y1 + f.bbox.y2) / 2 + 1
    // and it lies inside the bbox when the corners are ordered
    ensures 0.0 <= b.x1 <= b.x2 && 0.0 <= b.y1 <= b.y2 ==>
              f.bbox.x1 <= f.center.x <= f.bbox.x2 && f.bbox.y1 <= f.center.y <= f.bbox.y2
  {
    MidpointBound(b.x1, b.x2);
    MidpointBound(b.y1, b.y2);
    Face(BBox(Trunc(b.x1), Trunc(b.y1), Trunc(b.x2), Trunc(b.y2)), b.confidence,
         Point(Trunc((b.x1 + b.x2) / 2.0), Trunc((b.y1 + b.y2) / 2.0)))
  }

  /**
   * Truncating the real midpoint of two non-negative coordinates lands on
   * the rounded-down midpoint of their truncations or one above it, between
   * the two truncations, and exactly on that midpoint for whole numbers.
   */
  lemma MidpointBound(lo: real, hi: real)
    ensures 0.0 <= lo && 0.0 <= hi ==>
              (Trunc(lo) + Trunc(hi)) / 2 <= Trunc((lo + hi) / 2.0) <= (Trunc(lo) + Trunc(hi)) / 2 + 1
    ensures 0.0 <= lo <= hi ==> Trunc(lo) <= Trunc((lo + hi) / 2.0) <= Trunc(hi)
    ensures 0.0 <= lo && 0.0 <= hi && lo == Trunc(lo) as real && hi == Trunc(hi) as real ==>
              Trunc((lo + hi) / 2.0) == (Trunc(lo) + Trunc(hi)) / 2
  {
    if 0.0 <= lo && 0.0 <= hi {
      var a, d, c := Trunc(lo), Trunc(hi), Trunc((lo + hi) / 2.0);
      var m := (a + d) / 2;
      assert a + d == 2 * m || a + d == 2 * m + 1;
      assert 2 * c <= a + d + 1 && a + d <= 2 * c + 1;
    }
  }

  /**
   * The YOLO and cascade centre conventions compared: on non-negative corners
   * the YOLO centre is the bbox's rounded-down midpoint or one more, and
   * exactly that midpoint on whole-pixel corners, as for the cascade.
   */
  lemma CentreConventionsAgree(b: YoloBox)
    requires 0.0 <= b.x1 && 0.0 <= b.y1 && 0.0 <= b.x2 && 0.0 <= b.y2
    ensures var f := YoloFace(b);
            (f.bbox.x1 + f.bbox.x2) / 2 <= f.center.x <= (f.bbox.x1 + f.bbox.x2) / 2 + 1
    ensures var f := YoloFace(b);
            (f.bbox.y1 + f.bbox.y2) / 2 <= f.center.y <= (f.bbox.y1 + f.bbox.y2) / 2 + 1
    ensures b.x1 == b.x1.Floor as real && b.x2 == b.x2.Floor as real ==>
              YoloFace(b).center.x == (YoloFace(b).bbox.x1 + YoloFace(b).bbox.x2) / 2
    ensures b.y1 == b.y1.Floor as real && b.y2 == b.y2.Floor as real ==>
              YoloFace(b).center.y == (YoloFace(b).bbox.y1 + YoloFace(b).bbox.y2) / 2
  {
    MidpointBound(b.x1, b.x2);
    MidpointBound(b.y1, b.y2);
  }

  /**
   * On fractional corners the conventions differ: x from 0.9 to 1.9 gives the
   * bbox x-range 0..1, whose rounded-down midpoint is 0, but the centre 1.
   */
  lemma FractionalCornersShiftCentre()
    ensures YoloFace(YoloBox(0.9, 0.0, 1.9, 0.0, 1.0)).bbox.x1 == 0
    ensures YoloFace(YoloBox(0.9, 0.0, 1.9, 0.0, 1.0)).bbox.x2 == 1
    ensures YoloFace(YoloBox(0.9, 0.0, 1.9, 0.0, 1.0)).center.x == 1
  {
  }

  /** `detect_faces_opencv` after the cascade ran: one face per rectangle, in order. */
  function DetectCascade(rects: seq<Rect>): (faces: seq<Face>)
    ensures |faces| == |rects|
    ensures forall i :: 0 <= i < |rects| ==> faces[i] == CascadeFace(rects[i])
  {
    seq(|rects|, i requires 0 <= i < |rects| => CascadeFace(rects[i]))
  }

  /** `detect_faces_yolo` after the model ran: one face per box, in order. */
  function DetectYolo(boxes: seq<YoloBox>): (faces: seq<Face>)
    ensures |faces| == |boxes|
    ensures forall i :: 0 <= i < |boxes| ==> faces[i] == YoloFace(boxes[i])
  {
    seq(|boxes|, i requires 0 <= i < |boxes| => YoloFace(boxes[i]))
  }

  /** YOLO faces are primary; the cascade's are used only when YOLO found none. */
  function SelectFaces(yolo: seq<Face>, cascade: seq<Face>): (faces: seq<Face>)
    ensures |yolo| > 0 ==> faces == yolo
    ensures |yolo| == 0 ==> faces == cascade
    ensures |faces| == 0 <==> |yolo| == 0 && |cascade| == 0
  {
    if |yolo| > 0 then yolo else cascade
  }

  /** The `movement_analysis` dictionary. */
  datatype Movement = Movement(headTurnDetected: bool, movementScore: real, faceStability: real)

  /** The result when there is nothing to compare. */
  const NoMovement: Movement := Movement(false, 0.0, 1.0)

  function Min(a: real, b: real): real
  {
    if a <= b then a else b
  }

  /**
   * `analyze_movement`: compares the first face of each list. `sqrt` stands
   * for `np.sqrt` applied to the squared centre distance.
   */
  function AnalyzeMovement(current: seq<Face>, previous: seq<Face>, sqrt: real -> real): (m: Movement)
    ensures m.movementScore <= 1.0
    ensures m.faceStability == 1.0
    ensures m.headTurnDetected <==>
              |current| > 0 && |previous| > 0
              && Abs(current[0].center.x - previous[0].center.x) > HeadTurnPixels
    ensures |current| == 0 || |previous| == 0 ==> m == NoMovement
  {
    if |current| == 0 || |previous| == 0 then NoMovement
    else
      var c := current[0].center;
      var p := previous[0].center;
      var dx := c.x - p.x;
      var dy := c.y - p.y;
      var distance := sqrt((dx * dx + dy * dy) as real);
      Movement(Abs(dx) > HeadTurnPixels, Min(distance / MovementScale, 1.0), 1.0)
  }

  /** What `process_frame` returns. */
  datatype FrameResult =
    | FrameOk(
        faceCount: nat,
        facePresent: bool,
        faceStable: bool,
        faces: seq<Face>,
        frameWidth: nat,
        frameHeight: nat,
        movementAnalysis: Option<Movement>,
        processingTime: real)
    | FrameError(error: string)

  /**
   * `process_frame`: `frame` is the decoded image or `None` when decoding
   * failed; `yoloBoxes` and `rects` are what the two detectors found;
   * `previous` is the optional list of the previous frame's faces; `now` is
   * the clock reading.
   */
  function ProcessFrame(
    frame: Option<Frame>, yoloBoxes: seq<YoloBox>, rects: seq<Rect>,
    previous: Option<seq<Face>>, sqrt: real -> real, now: real): (r: FrameResult)
    ensures r.FrameError? <==> frame.None?
    ensures r.FrameOk? ==>
              && (|yoloBoxes| > 0 ==> r.faces == DetectYolo(yoloBoxes))
              && (|yoloBoxes| == 0 ==> r.faces == DetectCascade(rects))
              && r.faceCount == |r.faces|
              && (r.facePresent <==> r.faceCount > 0)
              && (r.faceStable <==> r.faceCount == 1)
              && r.frameWidth == frame.value.width && r.frameHeight == frame.value.height
              && (r.movementAnalysis.Some? <==> previous.Some?)
              && (previous.Some? ==> r.movementAnalysis.value == AnalyzeMovement(r.faces, previous.value, sqrt))
  {
    match frame
    case None => FrameError("Invalid frame data")
    case Some(f) =>
      var faces := SelectFaces(DetectYolo(yoloBoxes), DetectCascade(rects));
      var movement := if previous.Some? then Some(AnalyzeMovement(faces, previous.value, sqrt)) else None;
      FrameOk(|faces|, |faces| > 0, |faces| == 1, faces, f.width, f.height, movement, now)
  }
}
