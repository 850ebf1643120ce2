/** The plotting image listener of the frame-detector samples
    (vision/shared/PlottingImageListener.h): a queue of results, capture and
    processing frame rates, one CSV row per face or a placeholder row, and
    processResults, which drains the queue into the CSV stream. */
module SharedListener {
  import opened Wrappers
  import opened ListenerSupport
  import opened VisionData

  const FixedColumns: seq<string> := ["TimeStamp", "faceId", "confidence", "interocularDistance"]

  /** Every value the row reads with at() is present; otherwise at() throws. */
  predicate Writable(f: Face) {
    Complete(f) && InterocularDistance in f.measurements
  }

  /** The faces a result carries, by face id. */
  type Faces = map<int, Face>
  type Result = (Frame, Faces)

  /** The detector reports every value for every face, so that writing a
      frame's faces never throws. */
  predicate AllWritable(faces: Faces) {
    forall f :: f in faces.Values ==> Writable(f)
  }

  /** Every queued result can be written. */
  predicate AllResultsWritable(results: seq<Result>) {
    forall k :: 0 <= k < |results| ==> AllWritable(results[k].1)
  }

  /** The header row written by the constructor. */
  function Header(): Row {
    Names(FixedColumns) + Names(ColumnNames(HeadAngles)) + Names(ColumnNames(Emotions))
    + Names(ColumnNames(Expressions))
  }

  /** The row for a frame without faces: the timestamp and four "nan" for
      face id, confidence and interocular distance. */
  function EmptyRow(timestamp: real): Row {
    [Num(timestamp)] + Nans(4) + Nans(HeadAngleCount) + Nans(EmotionCount) + Nans(ExpressionCount)
  }

  /** The row for one face. */
  function FaceRow(timestamp: real, f: Face): Row
    requires Writable(f)
  {
    [Num(timestamp), Whole(f.id), Num(f.confidence),
     Num(f.measurements[InterocularDistance])]
    + Nums(ValuesOf(HeadAngles, f.measurements)) + Nums(ValuesOf(Emotions, f.emotions))
    + Nums(ValuesOf(Expressions, f.expressions))
  }

  /** The rows outputToFile writes for one frame. */
  function Rows(faces: Faces, timestamp: real): seq<Row>
    requires AllWritable(faces)
  {
    if |faces| == 0 then [EmptyRow(timestamp)]
    else FaceRows(faces, SortedKeys(faces.Keys), timestamp)
  }

  /** The rows of the faces filed under ids, in the order of ids. */
  function FaceRows(faces: Faces, ids: seq<int>, timestamp: real): (rows: seq<Row>)
    requires forall i :: 0 <= i < |ids| ==> ids[i] in faces
    requires AllWritable(faces)
    ensures |rows| == |ids|
    ensures forall i :: 0 <= i < |ids| ==> rows[i] == FaceRow(timestamp, faces[ids[i]])
  {
    seq(|ids|, i requires 0 <= i < |ids| => FaceRow(timestamp, faces[ids[i]]))
  }

  /** Writing one more face appends its row. */
  lemma FaceRowsAppend(faces: Faces, ids: seq<int>, k: nat, timestamp: real)
    requires k < |ids|
    requires forall i :: 0 <= i < |ids| ==> ids[i] in faces
    requires AllWritable(faces)
    ensures FaceRows(faces, ids[..k + 1], timestamp)
         == FaceRows(faces, ids[..k], timestamp) + [FaceRow(timestamp, faces[ids[k]])]
  {
    var a := FaceRows(faces, ids[..k + 1], timestamp);
    var b := FaceRows(faces, ids[..k], timestamp) + [FaceRow(timestamp, faces[ids[k]])];
    assert |a| == |b|;
    forall i | 0 <= i < |a|
      ensures a[i] == b[i]
    {
      if i < k {
        assert ids[..k + 1][i] == ids[..k][i];
      }
    }
  }

  /** A face row has a field under every header column, each classifier
      value under its own name; the placeholder row writes four "nan" after
      the timestamp for three columns and so has one field more than the header. */
  lemma RowColumns(timestamp: real, f: Face)
    requires Writable(f)
    ensures |Header()| == 19
    ensures |FaceRow(timestamp, f)| == |Header()|
    ensures forall k :: 0 <= k < |Emotions| ==>
      Header()[7 + k] == Txt(Emotions[k].1) && FaceRow(timestamp, f)[7 + k] == Num(f.emotions[Emotions[k].0])
    ensures forall k :: 0 <= k < |Expressions| ==>
      Header()[11 + k] == Txt(Expressions[k].1) && FaceRow(timestamp, f)[11 + k] == Num(f.expressions[Expressions[k].0])
    ensures |EmptyRow(timestamp)| == |Header()| + 1
  {
    HeaderLayout();
    FaceRowLayout(timestamp, f);
    var h := Header();
    var r := FaceRow(timestamp, f);
    forall k | 0 <= k < |Emotions|
      ensures h[7 + k] == Txt(Emotions[k].1) && r[7 + k] == Num(f.emotions[Emotions[k].0])
    {
      assert h[7 + k] == h[7..11][k] && r[7 + k] == r[7..11][k];
    }
    forall k | 0 <= k < |Expressions|
      ensures h[11 + k] == Txt(Expressions[k].1) && r[11 + k] == Num(f.expressions[Expressions[k].0])
    {
      assert h[11 + k] == h[11..][k] && r[11 + k] == r[11..][k];
    }
  }

  lemma HeaderLayout()
    ensures |Header()| == 19
    ensures Header()[7..11] == Names(ColumnNames(Emotions))
    ensures Header()[11..] == Names(ColumnNames(Expressions))
  {
    var a := Names(FixedColumns) + Names(ColumnNames(HeadAngles));
    assert Header() == a + Names(ColumnNames(Emotions)) + Names(ColumnNames(Expressions));
    assert |a| == 7;
  }

  lemma FaceRowLayout(timestamp: real, f: Face)
    requires Writable(f)
    ensures |FaceRow(timestamp, f)| == 19
    ensures FaceRow(timestamp, f)[7..11] == Nums(ValuesOf(Emotions, f.emotions))
    ensures FaceRow(timestamp, f)[11..] == Nums(ValuesOf(Expressions, f.expressions))
  {
    var a := [Num(timestamp), Whole(f.id), Num(f.confidence), Num(f.measurements[InterocularDistance])]
      + Nums(ValuesOf(HeadAngles, f.measurements));
    assert FaceRow(timestamp, f) == a + Nums(ValuesOf(Emotions, f.emotions)) + Nums(ValuesOf(Expressions, f.expressions));
    assert |a| == 7;
  }

  /** One row per face; a frame without faces gets the placeholder row alone. */
  lemma RowsCount(faces: Faces, timestamp: real)
    requires AllWritable(faces)
    ensures |faces| == 0 ==> Rows(faces, timestamp) == [EmptyRow(timestamp)]
    ensures |faces| > 0 ==> |Rows(faces, timestamp)| == |faces|
  {
    assert |SortedKeys(faces.Keys)| == |faces.Keys| == |faces|;
  }

  /** The rows of a run of results, oldest first. */
  function AllRows(results: seq<Result>): seq<Row>
    requires AllResultsWritable(results)
  {
    if results == [] then []
    else AllRows(results[..|results| - 1]) + Rows(results[|results| - 1].1, results[|results| - 1].0.timestamp)
  }

  /** Draining one more result appends its rows. */
  lemma AllRowsAppend(results: seq<Result>, r: Result)
    requires AllResultsWritable(results) && AllWritable(r.1)
    ensures AllResultsWritable(results + [r])
    ensures AllRows(results + [r]) == AllRows(results) + Rows(r.1, r.0.timestamp)
  {
    assert (results + [r])[..|results|] == results;
  }

  /** Draining the result after a prefix of a run appends its rows. */
  lemma AllRowsStep(all: seq<Result>, n: nat)
    requires AllResultsWritable(all) && n < |all|
    ensures AllResultsWritable(all[..n]) && AllWritable(all[n].1)
    ensures AllResultsWritable(all[..n + 1])
    ensures AllRows(all[..n + 1]) == AllRows(all[..n]) + Rows(all[n].1, all[n].0.timestamp)
  {
    assert all[..n + 1] == all[..n] + [all[n]];
    AllRowsAppend(all[..n], all[n]);
  }

  lemma PrefixNext(all: seq<Result>, n: nat)
    requires n < |all|
    ensures all[..n + 1] == all[..n] + [all[n]]
    ensures all[n..][0] == all[n] && all[n..][1..] == all[n + 1..]
  {
  }

  lemma AppendAssoc(a: seq<Row>, b: seq<Row>, c: seq<Row>)
    ensures a + (b + c) == (a + b) + c
  {
  }

  /** Every result contributes at least one row, so draining n results
      writes at least n rows. */
  lemma {:induction false} AllRowsLength(results: seq<Result>)
    requires AllResultsWritable(results)
    ensures |AllRows(results)| >= |results|
    ensures (forall k :: 0 <= k < |results| ==> |results[k].1| == 0) ==> |AllRows(results)| == |results|
  {
    if results != [] {
      var n := |results| - 1;
      var last := results[n];
      assert results == results[..n] + [last];
      AllRowsLength(results[..n]);
      AllRowsAppend(results[..n], last);
      RowsCount(last.1, last.0.timestamp);
    }
  }

  /** The loop of outputToFile: the rows for one frame, face by face in the
      map's order. */
  method WriteRows(faces: Faces, timestamp: real) returns (rows: seq<Row>)
    requires AllWritable(faces)
    ensures rows == Rows(faces, timestamp)
  {
    rows := [];
    if |faces| == 0 {
      rows := [EmptyRow(timestamp)];
    }
    var ids := SortedKeys(faces.Keys);
    var k := 0;
    while k < |ids|
      invariant 0 <= k <= |ids|
      invariant |faces| == 0 ==> rows == [EmptyRow(timestamp)]
      invariant |faces| > 0 ==> rows == FaceRows(faces, ids[..k], timestamp)
    {
      FaceRowsAppend(faces, ids, k, timestamp);
      rows := rows + [FaceRow(timestamp, faces[ids[k]])];
      k := k + 1;
    }
    assert |ids| == |faces|;
    assert ids[..k] == ids;
  }

  class PlottingImageListener {
    const drawDisplay: bool
    /** The queue of results, oldest first. */
    var results: seq<Result>
    var captureLastTs: real
    var captureFps: Option<real>
    var processLastTs: real
    var processFps: Option<real>
    /** The rows written to the CSV stream so far. */
    var outStream: seq<Row>

    /** The capture and processing rates and the timestamps they were
        taken at. */
    function Rates(): (Option<real>, real, Option<real>, real)
      reads this
    {
      (captureFps, captureLastTs, processFps, processLastTs)
    }

    /** Writes the header and starts every timestamp and rate at -1. */
    constructor (drawDisplay: bool)
      ensures this.drawDisplay == drawDisplay
      ensures results == [] && outStream == [Header()]
      ensures captureLastTs == -1.0 && processLastTs == -1.0
      ensures captureFps == Some(-1.0) && processFps == Some(-1.0)
    {
      this.drawDisplay := drawDisplay;
      results := [];
      outStream := [Header()];
      captureLastTs, processLastTs := -1.0, -1.0;
      captureFps, processFps := Some(-1.0), Some(-1.0);
    }

    method GetDataSize() returns (n: int)
      ensures n == |results|
    {
      n := |results|;
    }

    /** Takes the oldest result off the queue; the queue may not be empty. */
    method GetData() returns (d: Result)
      requires |results| > 0
      modifies this
      ensures d == old(results[0]) && results == old(results[1..])
      ensures outStream == old(outStream)
      ensures Rates() == old(Rates())
    {
      d := results[0];
      results := results[1..];
    }

    /** onImageResults: queues the result and rates processing against the
        previous result; nowMillis is the time since the listener was made. */
    method OnImageResults(faces: Faces, image: Frame, nowMillis: int)
      modifies this
      ensures results == old(results) + [(image, faces)]
      ensures processFps == FrameRate(nowMillis as real / 1000.0, old(processLastTs))
      ensures processLastTs == nowMillis as real / 1000.0
      ensures outStream == old(outStream) && captureFps == old(captureFps) && captureLastTs == old(captureLastTs)
    {
      results := results + [(image, faces)];
      var seconds := nowMillis as real / 1000.0;
      processFps := FrameRate(seconds, processLastTs);
      processLastTs := seconds;
    }

    /** onImageCapture: rates capture against the previous frame's timestamp. */
    method OnImageCapture(image: Frame)
      modifies this
      ensures captureFps == FrameRate(image.timestamp, old(captureLastTs))
      ensures captureLastTs == image.timestamp
      ensures results == old(results) && outStream == old(outStream)
      ensures processFps == old(processFps) && processLastTs == old(processLastTs)
    {
      captureFps := FrameRate(image.timestamp, captureLastTs);
      captureLastTs := image.timestamp;
    }

    /** outputToFile: the placeholder row for a frame without faces, else a
        row per face in the map's order. */
    method OutputToFile(faces: Faces, timestamp: real)
      requires AllWritable(faces)
      modifies this
      ensures outStream == old(outStream) + Rows(faces, timestamp)
      ensures results == old(results)
      ensures Rates() == old(Rates())
    {
      var rows := WriteRows(faces, timestamp);
      outStream := outStream + rows;
    }

    /** processResults: drains the queue oldest first, hands each result to
        the drawing code when the display is on, and writes its rows. */
    method ProcessResults() returns (drawn: seq<Result>)
      requires AllResultsWritable(results)
      modifies this
      ensures results == []
      ensures outStream == old(outStream) + AllRows(old(results))
      ensures drawn == if drawDisplay then old(results) else []
      ensures Rates() == old(Rates())
    {
      drawn := [];
      ghost var all, n := results, 0;
      assert AllResultsWritable(all[..0]);
      var size := GetDataSize();
      while size > 0
        invariant n <= |all| && size == |results| == |all| - n
        invariant results == all[n..]
        invariant outStream == old(outStream) + AllRows(all[..n])
        invariant drawn == if drawDisplay then all[..n] else []
        invariant Rates() == old(Rates())
        decreases |results|
      {
        PrefixNext(all, n);
        var dataPoint := GetData();
        AllRowsStep(all, n);
        if drawDisplay {
          drawn := drawn + [dataPoint];
        }
        OutputToFile(dataPoint.1, dataPoint.0.timestamp);
        AppendAssoc(old(outStream), AllRows(all[..n]), Rows(dataPoint.1, dataPoint.0.timestamp));
        n := n + 1;
        size := GetDataSize();
      }
      assert all[..n] == all;
    }
  }
}
