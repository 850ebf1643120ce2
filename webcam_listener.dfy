/** The plotting image listener of the frame-detector webcam demo
    (vision/frame-detector-webcam-demo/PlottingImageListener.hpp): the same
    queue and frame rates as the shared listener, with a wider CSV row that
    also carries the appearance, the dominant emoji and the brightness. */
module WebcamListener {
  import opened Wrappers
  import opened ListenerSupport
  import opened VisionData

  const FixedColumns: seq<string> :=
    ["TimeStamp", "faceId", "interocularDistance", "glasses", "age", "ethnicity", "gender", "dominantEmoji"]

  /** Every value the row reads with at() is present; otherwise at() throws.
      The interocular distance is read with operator[] and may be missing. */
  predicate Writable(f: Face) {
    Complete(f) && Brightness in f.qualities
  }

  /** The faces a result carries, by face id. */
  type Faces = map<int, Face>
  type Result = (Frame, Faces)

  /** The detector reports every value for every face, so that writing a
      frame's faces never throws. */
  predicate AllWritable(faces: Faces) {
    forall f :: f in faces.Values ==> Writable(f)
  }

  /** The header row written by the constructor. */
  function Header(): Row {
    Names(FixedColumns) + Names(ColumnNames(HeadAngles)) + Names(ColumnNames(Emotions))
    + Names(ColumnNames(Expressions))
  }

  /** The row for a frame without faces. */
  function EmptyRow(timestamp: real): Row {
    [Num(timestamp), Txt("nan"), Txt("nan"), Txt("no"), Txt("unknown"), Txt("unknown"),
     Txt("unknown"), Txt("unknown")]
    + Nans(HeadAngleCount) + Nans(EmotionCount) + Nans(ExpressionCount)
  }

  /** The interocular distance as operator[] reads it: a missing value
      reads as zero. */
  function InterocularOf(f: Face): (d: real)
    ensures InterocularDistance in f.measurements ==> d == f.measurements[InterocularDistance]
    ensures InterocularDistance !in f.measurements ==> d == 0.0
  {
    if InterocularDistance in f.measurements then f.measurements[InterocularDistance] else 0.0
  }

  /** The row for one face. */
  function FaceRow(timestamp: real, f: Face): Row
    requires Writable(f)
  {
    [Num(timestamp), Whole(f.id), Num(f.confidence), Num(InterocularOf(f)),
     Txt(f.appearance.glasses), Txt(f.appearance.age), Txt(f.appearance.ethnicity),
     Txt(f.appearance.gender), Txt(f.dominantEmoji)]
    + Nums(ValuesOf(HeadAngles, f.measurements)) + Nums(ValuesOf(Emotions, f.emotions))
    + Nums(ValuesOf(Expressions, f.expressions)) + [Num(f.qualities[Brightness])]
  }

  /** The rows outputToFile writes for one frame. */
  function Rows(faces: Faces, timestamp: real): seq<Row>
    requires AllWritable(faces)
  {
    if |faces| == 0 then [EmptyRow(timestamp)]
    else FaceRows(faces, SortedKeys(faces.Keys), timestamp)
  }

  /** The rows of the faces filed under ids, in the order of ids. */
  function FaceRows(faces: Faces, ids: seq<int>, timestamp: real): (rows: seq<Row>)
    requires forall i :: 0 <= i < |ids| ==> ids[i] in faces
    requires AllWritable(faces)
    ensures |rows| == |ids|
    ensures forall i :: 0 <= i < |ids| ==> rows[i] == FaceRow(timestamp, faces[ids[i]])
  {
    seq(|ids|, i requires 0 <= i < |ids| => FaceRow(timestamp, faces[ids[i]]))
  }

  /** Writing one more face appends its row. */
  lemma FaceRowsAppend(faces: Faces, ids: seq<int>, k: nat, timestamp: real)
    requires k < |ids|
    requires forall i :: 0 <= i < |ids| ==> ids[i] in faces
    requires AllWritable(faces)
    ensures FaceRows(faces, ids[..k + 1], timestamp)
         == FaceRows(faces, ids[..k], timestamp) + [FaceRow(timestamp, faces[ids[k]])]
  {
    var a := FaceRows(faces, ids[..k + 1], timestamp);
    var b := FaceRows(faces, ids[..k], timestamp) + [FaceRow(timestamp, faces[ids[k]])];
    assert |a| == |b|;
    forall i | 0 <= i < |a|
      ensures a[i] == b[i]
    {
      if i < k {
        assert ids[..k + 1][i] == ids[..k][i];
      }
    }
  }

  /** The placeholder row has a field under every header column. A face row
      has two fields more: the confidence is written in the third column,
      under the interocular distance's name, which shifts every later value
      one column to the right, and the brightness closes the row with no
      column of its own. */
  lemma RowColumns(timestamp: real, f: Face)
    requires Writable(f)
    ensures |Header()| == 23
    ensures |EmptyRow(timestamp)| == |Header()|
    ensures |FaceRow(timestamp, f)| == |Header()| + 2
    ensures Header()[2] == Txt("interocularDistance") && FaceRow(timestamp, f)[2] == Num(f.confidence)
    ensures forall k :: 0 <= k < |Emotions| ==>
      Header()[11 + k] == Txt(Emotions[k].1) && FaceRow(timestamp, f)[12 + k] == Num(f.emotions[Emotions[k].0])
    ensures FaceRow(timestamp, f)[24] == Num(f.qualities[Brightness])
  {
    var h := Header();
    var r := FaceRow(timestamp, f);
    assert h[11..15] == Names(ColumnNames(Emotions));
    assert r[12..16] == Nums(ValuesOf(Emotions, f.emotions));
  }

  /** One row per face; a frame without faces gets the placeholder row alone. */
  lemma RowsCount(faces: Faces, timestamp: real)
    requires AllWritable(faces)
    ensures |faces| == 0 ==> Rows(faces, timestamp) == [EmptyRow(timestamp)]
    ensures |faces| > 0 ==> |Rows(faces, timestamp)| == |faces|
  {
    assert |SortedKeys(faces.Keys)| == |faces.Keys| == |faces|;
  }

  /** The loop of outputToFile: the rows for one frame, face by face in the
      map's order. */
  method WriteRows(faces: Faces, timestamp: real) returns (rows: seq<Row>)
    requires AllWritable(faces)
    ensures rows == Rows(faces, timestamp)
  {
    rows := [];
    if |faces| == 0 {
      rows := [EmptyRow(timestamp)];
    }
    var ids := SortedKeys(faces.Keys);
    var k := 0;
    while k < |ids|
      invariant 0 <= k <= |ids|
      invariant |faces| == 0 ==> rows == [EmptyRow(timestamp)]
      invariant |faces| > 0 ==> rows == FaceRows(faces, ids[..k], timestamp)
    {
      FaceRowsAppend(faces, ids, k, timestamp);
      rows := rows + [FaceRow(timestamp, faces[ids[k]])];
      k := k + 1;
    }
    assert |ids| == |faces|;
    assert ids[..k] == ids;
  }

  class PlottingImageListener {
    /** The queue of results, oldest first. */
    var dataArray: seq<Result>
    var captureLastTs: real
    var captureFps: Option<real>
    var processLastTs: real
    var processFps: Option<real>
    /** The rows written to the CSV stream so far. */
    var stream: seq<Row>

    /** Writes the header and starts every timestamp and rate at -1. */
    constructor ()
      ensures dataArray == [] && stream == [Header()]
      ensures captureLastTs == -1.0 && processLastTs == -1.0
      ensures captureFps == Some(-1.0) && processFps == Some(-1.0)
    {
      dataArray := [];
      stream := [Header()];
      captureLastTs, processLastTs := -1.0, -1.0;
      captureFps, processFps := Some(-1.0), Some(-1.0);
    }

    method GetProcessingFrameRate() returns (fps: Option<real>)
      ensures fps == processFps
    {
      fps := processFps;
    }

    method GetCaptureFrameRate() returns (fps: Option<real>)
      ensures fps == captureFps
    {
      fps := captureFps;
    }

    method GetDataSize() returns (n: int)
      ensures n == |dataArray|
    {
      n := |dataArray|;
    }

    /** Takes the oldest result off the queue; the queue may not be empty. */
    method GetData() returns (d: Result)
      requires |dataArray| > 0
      modifies this
      ensures d == old(dataArray[0]) && dataArray == old(dataArray[1..])
      ensures stream == old(stream)
      ensures captureFps == old(captureFps) && processFps == old(processFps)
      ensures captureLastTs == old(captureLastTs) && processLastTs == old(processLastTs)
    {
      d := dataArray[0];
      dataArray := dataArray[1..];
    }

    /** onImageResults: queues the result and rates processing against the
        previous result; nowMillis is the time since the listener was made. */
    method OnImageResults(faces: Faces, image: Frame, nowMillis: int)
      modifies this
      ensures dataArray == old(dataArray) + [(image, faces)]
      ensures processFps == FrameRate(nowMillis as real / 1000.0, old(processLastTs))
      ensures processLastTs == nowMillis as real / 1000.0
      ensures stream == old(stream) && captureFps == old(captureFps) && captureLastTs == old(captureLastTs)
    {
      dataArray := dataArray + [(image, faces)];
      var seconds := nowMillis as real / 1000.0;
      processFps := FrameRate(seconds, processLastTs);
      processLastTs := seconds;
    }

    /** onImageCapture: rates capture against the previous frame's timestamp. */
    method OnImageCapture(image: Frame)
      modifies this
      ensures captureFps == FrameRate(image.timestamp, old(captureLastTs))
      ensures captureLastTs == image.timestamp
      ensures dataArray == old(dataArray) && stream == old(stream)
      ensures processFps == old(processFps) && processLastTs == old(processLastTs)
    {
      captureFps := FrameRate(image.timestamp, captureLastTs);
      captureLastTs := image.timestamp;
    }

    /** outputToFile: the placeholder row for a frame without faces, else a
        row per face in the map's order. */
    method OutputToFile(faces: Faces, timestamp: real)
      requires AllWritable(faces)
      modifies this
      ensures stream == old(stream) + Rows(faces, timestamp)
      ensures dataArray == old(dataArray)
      ensures captureFps == old(captureFps) && captureLastTs == old(captureLastTs)
      ensures processFps == old(processFps) && processLastTs == old(processLastTs)
    {
      var rows := WriteRows(faces, timestamp);
      stream := stream + rows;
    }
  }
}
