/** The plotting image listener of the older samples
    (common/PlottingImageListener.hpp): it queues every result the detector
    hands back, tracks capture and processing frame rates, writes one CSV row
    per face (or one placeholder row for a frame without faces) and lays out
    the classifier values it draws next to a face. */
module CommonListener {
  import opened Wrappers
  import opened ListenerSupport

  /** The names written in the header, in the order the Face structure holds the values. */
  const Expressions: seq<string> := [
    "smile", "innerBrowRaise", "browRaise", "browFurrow", "noseWrinkle",
    "upperLipRaise", "lipCornerDepressor", "chinRaise", "lipPucker", "lipPress",
    "lipSuck", "mouthOpen", "smirk", "eyeClosure", "attention"]
  const Emotions: seq<string> := [
    "joy", "fear", "disgust", "sadness", "anger",
    "surprise", "contempt", "valence", "engagement"]
  const HeadAngles: seq<string> := ["pitch", "yaw", "roll"]
  const FixedColumns: seq<string> := ["TimeStamp", "faceId", "interocularDistance", "glasses", "gender"]
  /** How many values each structure holds: one per name above. */
  const HeadAngleCount := 3
  const EmotionCount := 9
  const ExpressionCount := 15

  datatype Glasses = GlassesYes | GlassesNo
  datatype Gender = Male | Female | GenderUnknown

  function GlassesText(g: Glasses): string {
    match g
    case GlassesYes => "glasses"
    case GlassesNo => "no glasses"
  }

  function GenderText(g: Gender): string {
    match g
    case Male => "male"
    case Female => "female"
    case GenderUnknown => "unknown"
  }

  /** A face as the detector reports it; the three lists hold the values of
      the Orientation, Emotions and Expressions structures in field order. */
  datatype Face = Face(id: int, interocularDistance: real, glasses: Glasses, gender: Gender,
                       orientation: seq<real>, emotions: seq<real>, expressions: seq<real>)

  /** The structures have exactly one value per listed name. */
  predicate WellFormed(f: Face) {
    |f.orientation| == HeadAngleCount && |f.emotions| == EmotionCount && |f.expressions| == ExpressionCount
  }

  /** Every face of a frame is well formed. */
  predicate AllWellFormed(faces: map<int, Face>) {
    forall f :: f in faces.Values ==> WellFormed(f)
  }

  /** The header row written by the constructor. */
  function Header(): (r: Row)
    ensures |r| == 32
    ensures r[..5] == Names(FixedColumns)
    ensures forall k :: 0 <= k < |Emotions| ==> r[8 + k] == Txt(Emotions[k])
  {
    Names(FixedColumns) + Names(HeadAngles) + Names(Emotions) + Names(Expressions)
  }

  /** The row written for a frame without faces. The timestamp is followed
      directly by "nan", with no comma between them. */
  function EmptyRow(timestamp: real): (r: Row)
  {
    [Glued(timestamp, "nan"), Txt("nan"), Txt("no glasses"), Txt("unknown")]
    + Nans(HeadAngleCount) + Nans(EmotionCount) + Nans(ExpressionCount)
  }

  /** The row written for one face. */
  function FaceRow(timestamp: real, f: Face): Row
    requires WellFormed(f)
  {
    [Num(timestamp), Whole(f.id), Num(f.interocularDistance), Txt(GlassesText(f.glasses)), Txt(GenderText(f.gender))]
    + Nums(f.orientation) + Nums(f.emotions) + Nums(f.expressions)
  }

  /** The rows outputToFile writes for one frame. */
  function Rows(faces: map<int, Face>, timestamp: real): seq<Row>
    requires AllWellFormed(faces)
  {
    if |faces| == 0 then [EmptyRow(timestamp)]
    else
      FaceRows(faces, SortedKeys(faces.Keys), timestamp)
  }

  /** The rows of the faces filed under ids, in the order of ids. */
  function FaceRows(faces: map<int, Face>, ids: seq<int>, timestamp: real): (rows: seq<Row>)
    requires forall i :: 0 <= i < |ids| ==> ids[i] in faces
    requires AllWellFormed(faces)
    ensures |rows| == |ids|
    ensures forall i :: 0 <= i < |ids| ==> rows[i] == FaceRow(timestamp, faces[ids[i]])
  {
    seq(|ids|, i requires 0 <= i < |ids| => FaceRow(timestamp, faces[ids[i]]))
  }

  /** Writing one more face appends its row. */
  lemma FaceRowsAppend(faces: map<int, Face>, ids: seq<int>, k: nat, timestamp: real)
    requires k < |ids|
    requires forall i :: 0 <= i < |ids| ==> ids[i] in faces
    requires AllWellFormed(faces)
    ensures FaceRows(faces, ids[..k + 1], timestamp)
         == FaceRows(faces, ids[..k], timestamp) + [FaceRow(timestamp, faces[ids[k]])]
  {
    var a := FaceRows(faces, ids[..k + 1], timestamp);
    var b := FaceRows(faces, ids[..k], timestamp) + [FaceRow(timestamp, faces[ids[k]])];
    assert |a| == |b|;
    forall i | 0 <= i < |a|
      ensures a[i] == b[i]
    {
      if i < k {
        assert ids[..k + 1][i] == ids[..k][i];
      }
    }
  }

  /** The loop of outputToFile: the rows for one frame, face by face in the
      map's order. */
  method WriteRows(faces: map<int, Face>, timestamp: real) returns (rows: seq<Row>)
    requires AllWellFormed(faces)
    ensures rows == Rows(faces, timestamp)
  {
    if |faces| == 0 {
      return [EmptyRow(timestamp)];
    }
    rows := [];
    var ids := SortedKeys(faces.Keys);
    var k := 0;
    while k < |ids|
      invariant 0 <= k <= |ids|
      invariant rows == FaceRows(faces, ids[..k], timestamp)
    {
      FaceRowsAppend(faces, ids, k, timestamp);
      rows := rows + [FaceRow(timestamp, faces[ids[k]])];
      k := k + 1;
    }
    assert ids[..k] == ids;
  }

  /** A face row has a field under every header column, each value under
      its own name; the placeholder row has one field fewer than the header,
      because the timestamp and the face id column share its first field. */
  lemma RowColumns(timestamp: real, f: Face)
    requires WellFormed(f)
    ensures |FaceRow(timestamp, f)| == |Header()|
    ensures forall k :: 0 <= k < |Emotions| ==>
      Header()[8 + k] == Txt(Emotions[k]) && FaceRow(timestamp, f)[8 + k] == Num(f.emotions[k])
    ensures forall k :: 0 <= k < |Expressions| ==>
      Header()[17 + k] == Txt(Expressions[k]) && FaceRow(timestamp, f)[17 + k] == Num(f.expressions[k])
    ensures |EmptyRow(timestamp)| == |Header()| - 1
    ensures EmptyRow(timestamp)[0] == Glued(timestamp, "nan")
  {
    var h := Header();
    var r := FaceRow(timestamp, f);
    assert h[17..] == Names(Expressions);
    assert r[17..] == Nums(f.expressions);
  }

  /** The detector files every face under its own id. */
  predicate KeyedById(faces: map<int, Face>) {
    forall id :: id in faces ==> faces[id].id == id
  }

  /** One row per face; a frame without faces gets the placeholder row alone. */
  lemma RowsCount(faces: map<int, Face>, timestamp: real)
    requires AllWellFormed(faces)
    ensures |faces| == 0 ==> Rows(faces, timestamp) == [EmptyRow(timestamp)]
    ensures |faces| > 0 ==> |Rows(faces, timestamp)| == |faces|
  {
    assert |SortedKeys(faces.Keys)| == |faces.Keys| == |faces|;
  }

  /** Each row is the row of the face it names, the rows go in strictly
      increasing face id, and every face has a row. */
  predicate InFaceOrder(rows: seq<Row>, faces: map<int, Face>, timestamp: real) {
    && (forall i :: 0 <= i < |rows| ==> RowId(rows[i]).Some? && RowOf(rows[i], faces, timestamp, RowId(rows[i]).value))
    && (forall i, j :: 0 <= i < j < |rows| ==> RowId(rows[i]).value < RowId(rows[j]).value)
    && (forall id :: id in faces ==> exists i :: 0 <= i < |rows| && RowId(rows[i]) == Some(id))
  }

  /** With every face filed under its own id, the rows go in increasing face
      id, each row is the row of the face it names, and every face has one. */
  lemma RowsOrder(faces: map<int, Face>, timestamp: real)
    requires AllWellFormed(faces)
    ensures |faces| > 0 && KeyedById(faces) ==> InFaceOrder(Rows(faces, timestamp), faces, timestamp)
  {
    if |faces| > 0 && KeyedById(faces) {
      var ids := SortedKeys(faces.Keys);
      SortedKeysIncreasing(faces.Keys);
      assert forall i :: 0 <= i < |ids| ==> ids[i] in ids;
      FaceRowsOrder(faces, ids, timestamp);
    }
  }

  /** The same for the rows of any increasing list of ids that covers the faces. */
  lemma FaceRowsOrder(faces: map<int, Face>, ids: seq<int>, timestamp: real)
    requires forall i :: 0 <= i < |ids| ==> ids[i] in faces
    requires AllWellFormed(faces)
    requires KeyedById(faces)
    requires Increasing(ids)
    requires forall id :: id in faces ==> id in ids
    ensures InFaceOrder(FaceRows(faces, ids, timestamp), faces, timestamp)
  {
    var rows := FaceRows(faces, ids, timestamp);
    forall i | 0 <= i < |ids|
      ensures RowId(rows[i]) == Some(ids[i])
    {
      assert faces[ids[i]] in faces.Values;
      FaceRowId(timestamp, faces[ids[i]]);
      assert faces[ids[i]].id == ids[i];
    }
    forall id | id in faces
      ensures exists i :: 0 <= i < |rows| && RowId(rows[i]) == Some(id)
    {
      var i :| 0 <= i < |ids| && ids[i] == id;
      assert RowId(rows[i]) == Some(id);
    }
  }

  lemma FaceRowId(timestamp: real, f: Face)
    requires WellFormed(f)
    ensures RowId(FaceRow(timestamp, f)) == Some(f.id)
  {
  }

  /** The face id a row carries in its second field, if any. */
  function RowId(row: Row): Option<int> {
    if |row| >= 2 && row[1].Whole? then Some(row[1].n) else None
  }

  /** row is the row of the face filed under id. */
  predicate RowOf(row: Row, faces: map<int, Face>, timestamp: real, id: int) {
    id in faces && WellFormed(faces[id]) && row == FaceRow(timestamp, faces[id])
  }

  /** A feature point of a face, in image coordinates. */
  datatype FeaturePoint = FeaturePoint(x: real, y: real)

  /** minPoint: the smallest x and the smallest y over the points (the
      corner of their bounding box). The source dereferences the first
      point, so the list may not be empty. */
  method MinPoint(points: seq<FeaturePoint>) returns (ret: FeaturePoint)
    requires |points| > 0
    ensures forall p :: p in points ==> ret.x <= p.x && ret.y <= p.y
    ensures exists p :: p in points && p.x == ret.x
    ensures exists p :: p in points && p.y == ret.y
  {
    ret := points[0];
    var k := 0;
    while k < |points|
      invariant 0 <= k <= |points|
      invariant forall i :: 0 <= i < k ==> ret.x <= points[i].x && ret.y <= points[i].y
      invariant exists i :: 0 <= i < |points| && points[i].x == ret.x
      invariant exists i :: 0 <= i < |points| && points[i].y == ret.y
    {
      if points[k].x < ret.x {
        ret := ret.(x := points[k].x);
      }
      if points[k].y < ret.y {
        ret := ret.(y := points[k].y);
      }
      k := k + 1;
    }
  }

  /** maxPoint: the largest x and the largest y over the points. */
  method MaxPoint(points: seq<FeaturePoint>) returns (ret: FeaturePoint)
    requires |points| > 0
    ensures forall p :: p in points ==> ret.x >= p.x && ret.y >= p.y
    ensures exists p :: p in points && p.x == ret.x
    ensures exists p :: p in points && p.y == ret.y
  {
    ret := points[0];
    var k := 0;
    while k < |points|
      invariant 0 <= k <= |points|
      invariant forall i :: 0 <= i < k ==> ret.x >= points[i].x && ret.y >= points[i].y
      invariant exists i :: 0 <= i < |points| && points[i].x == ret.x
      invariant exists i :: 0 <= i < |points| && points[i].y == ret.y
    {
      if points[k].x > ret.x {
        ret := ret.(x := points[k].x);
      }
      if points[k].y > ret.y {
        ret := ret.(y := points[k].y);
      }
      k := k + 1;
    }
  }

  /** Line spacing of the drawn text, and the value a classifier must exceed to be drawn. */
  const Spacing := 10
  const DrawThreshold := 5.0

  /** A line of text drawn for a classifier: its name, value and baseline. */
  datatype Label = Label(name: string, value: real, y: int)

  /** The labels drawValues draws for the first k names, starting below padding. */
  function Shown(names: seq<string>, values: seq<real>, padding: int, k: nat): seq<Label>
    requires k <= |names| <= |values|
  {
    if k == 0 then []
    else
      var prev := Shown(names, values, padding, k - 1);
      if values[k - 1] > DrawThreshold
      then prev + [Label(names[k - 1], values[k - 1], padding + Spacing * (|prev| + 1))]
      else prev
  }

  /** The positions among the first k values that exceed the threshold, in order. */
  function Picked(values: seq<real>, k: nat): (ps: seq<nat>)
    requires k <= |values|
    ensures |ps| <= k
    ensures forall i :: 0 <= i < |ps| ==> ps[i] < k
  {
    if k == 0 then []
    else Picked(values, k - 1) + (if values[k - 1] > DrawThreshold then [k - 1] else [])
  }

  /** Strictly increasing positions: each appears once, in list order. */
  predicate Ascending(ps: seq<nat>) {
    forall i, j :: 0 <= i < j < |ps| ==> ps[i] < ps[j]
  }

  /** The picked positions are strictly increasing. */
  lemma {:induction false} PickedIncreasing(values: seq<real>, k: nat)
    requires k <= |values|
    ensures Ascending(Picked(values, k))
  {
    if k > 0 {
      PickedIncreasing(values, k - 1);
      var prev := Picked(values, k - 1);
      var ps := Picked(values, k);
      if values[k - 1] > DrawThreshold {
        assert ps == prev + [k - 1];
        forall i, j | 0 <= i < j < |ps|
          ensures ps[i] < ps[j]
        {
          assert ps[i] == prev[i] < k - 1;
          if j < |prev| {
            assert ps[j] == prev[j];
          }
        }
      } else {
        assert ps == prev;
      }
    }
  }

  /** A position is picked exactly when its value exceeds the threshold. */
  lemma {:induction false} PickedMembers(values: seq<real>, k: nat)
    requires k <= |values|
    ensures forall j :: 0 <= j < k ==> (values[j] > DrawThreshold <==> j in Picked(values, k))
  {
    if k > 0 {
      PickedMembers(values, k - 1);
      var prev := Picked(values, k - 1);
      var ps := Picked(values, k);
      if values[k - 1] > DrawThreshold {
        assert ps == prev + [k - 1];
        assert k - 1 !in prev;
        forall j | 0 <= j < k
          ensures values[j] > DrawThreshold <==> j in ps
        {
          assert j in ps <==> j in prev || j == k - 1;
        }
      } else {
        assert ps == prev;
        assert k - 1 !in prev;
      }
    }
  }

  /** labels[i] names position ps[i], with its value, on line i + 1 below padding. */
  predicate LabelsAt(labels: seq<Label>, ps: seq<nat>, names: seq<string>, values: seq<real>, padding: int) {
    && |labels| == |ps|
    && forall i :: 0 <= i < |labels| ==>
         ps[i] < |names| && ps[i] < |values|
         && labels[i] == Label(names[ps[i]], values[ps[i]], padding + Spacing * (i + 1))
  }

  /** Exactly the classifiers above the threshold are drawn, each once, in
      list order (`Picked`), the i-th with its own name and value on line
      i + 1 below padding. */
  lemma {:induction false} ShownLines(names: seq<string>, values: seq<real>, padding: int, k: nat)
    requires k <= |names| <= |values|
    ensures LabelsAt(Shown(names, values, padding, k), Picked(values, k), names, values, padding)
  {
    if k > 0 {
      ShownLines(names, values, padding, k - 1);
      ShownStep(names, values, padding, k);
      LabelsAtStep(Shown(names, values, padding, k - 1), Picked(values, k - 1),
                   Shown(names, values, padding, k), Picked(values, k),
                   names, values, padding, k - 1, values[k - 1] > DrawThreshold);
    }
  }

  /** Adding the label of position j, or nothing, keeps the labels in step
      with their positions. */
  lemma LabelsAtStep(prev: seq<Label>, pprev: seq<nat>, labels: seq<Label>, ps: seq<nat>,
                     names: seq<string>, values: seq<real>, padding: int, j: nat, drawn: bool)
    requires LabelsAt(prev, pprev, names, values, padding)
    requires j < |names| <= |values|
    requires drawn ==> labels == prev + [Label(names[j], values[j], padding + Spacing * (|prev| + 1))]
                       && ps == pprev + [j]
    requires !drawn ==> labels == prev && ps == pprev
    ensures LabelsAt(labels, ps, names, values, padding)
  {
    if drawn {
      forall i | 0 <= i < |labels|
        ensures ps[i] < |names| && ps[i] < |values|
        ensures labels[i] == Label(names[ps[i]], values[ps[i]], padding + Spacing * (i + 1))
      {
        if i < |prev| {
          assert labels[i] == prev[i] && ps[i] == pprev[i];
        }
      }
    }
  }

  /** The labels and positions for k values extend those for k - 1 in step. */
  lemma ShownStep(names: seq<string>, values: seq<real>, padding: int, k: nat)
    requires 0 < k <= |names| <= |values|
    ensures values[k - 1] > DrawThreshold ==>
              Shown(names, values, padding, k)
                == Shown(names, values, padding, k - 1)
                   + [Label(names[k - 1], values[k - 1], padding + Spacing * (|Shown(names, values, padding, k - 1)| + 1))]
              && Picked(values, k) == Picked(values, k - 1) + [k - 1]
    ensures values[k - 1] <= DrawThreshold ==>
              Shown(names, values, padding, k) == Shown(names, values, padding, k - 1)
              && Picked(values, k) == Picked(values, k - 1)
  {
  }

  /** drawValues: draws each name whose value exceeds the threshold one line
      further down, and leaves padding at the last line drawn. */
  method DrawValues(values: seq<real>, names: seq<string>, padding: int) returns (labels: seq<Label>, newPadding: int)
    requires |names| <= |values|
    ensures labels == Shown(names, values, padding, |names|)
    ensures newPadding == padding + Spacing * |labels|
  {
    labels := [];
    newPadding := padding;
    var k := 0;
    while k < |names|
      invariant 0 <= k <= |names|
      invariant labels == Shown(names, values, padding, k)
      invariant newPadding == padding + Spacing * |labels|
    {
      if values[k] > DrawThreshold {
        newPadding := newPadding + Spacing;
        labels := labels + [Label(names[k], values[k], newPadding)];
      }
      k := k + 1;
    }
  }

  class PlottingImageListener {
    /** The queue of results, oldest first. */
    var dataArray: seq<(Frame, map<int, Face>)>
    var captureLastTs: real
    var captureFps: Option<real>
    var processLastTs: real
    var processFps: Option<real>
    /** The rows written to the CSV stream so far. */
    var stream: seq<Row>
    const drawDisplay: bool

    /** Writes the header and starts every timestamp and rate at -1. */
    constructor (drawDisplay: bool)
      ensures this.drawDisplay == drawDisplay
      ensures dataArray == [] && stream == [Header()]
      ensures captureLastTs == -1.0 && processLastTs == -1.0
      ensures captureFps == Some(-1.0) && processFps == Some(-1.0)
    {
      this.drawDisplay := drawDisplay;
      dataArray := [];
      stream := [Header()];
      captureLastTs, processLastTs := -1.0, -1.0;
      captureFps, processFps := Some(-1.0), Some(-1.0);
    }

    method GetDataSize() returns (n: int)
      ensures n == |dataArray|
    {
      n := |dataArray|;
    }

    /** Takes the oldest result off the queue; the queue may not be empty. */
    method GetData() returns (d: (Frame, map<int, Face>))
      requires |dataArray| > 0
      modifies this
      ensures d == old(dataArray[0]) && dataArray == old(dataArray[1..])
      ensures stream == old(stream) && captureFps == old(captureFps) && processFps == old(processFps)
      ensures captureLastTs == old(captureLastTs) && processLastTs == old(processLastTs)
    {
      d := dataArray[0];
      dataArray := dataArray[1..];
    }

    /** onImageResults: queues the result and rates processing against the
        previous result; nowMillis is the time since the listener was made. */
    method OnImageResults(faces: map<int, Face>, image: Frame, nowMillis: int)
      modifies this
      ensures dataArray == old(dataArray) + [(image, faces)]
      ensures processFps == FrameRate(nowMillis as real / 1000.0, old(processLastTs))
      ensures processLastTs == nowMillis as real / 1000.0
      ensures stream == old(stream) && captureFps == old(captureFps) && captureLastTs == old(captureLastTs)
    {
      dataArray := dataArray + [(image, faces)];
      var seconds := nowMillis as real / 1000.0;
      processFps := FrameRate(seconds, processLastTs);
      processLastTs := seconds;
    }

    /** onImageCapture: rates capture against the previous frame's timestamp. */
    method OnImageCapture(image: Frame)
      modifies this
      ensures captureFps == FrameRate(image.timestamp, old(captureLastTs))
      ensures captureLastTs == image.timestamp
      ensures dataArray == old(dataArray) && stream == old(stream)
      ensures processFps == old(processFps) && processLastTs == old(processLastTs)
    {
      captureFps := FrameRate(image.timestamp, captureLastTs);
      captureLastTs := image.timestamp;
    }

    /** outputToFile: the placeholder row for a frame without faces, else a
        row per face in the map's order. */
    method OutputToFile(faces: map<int, Face>, timestamp: real)
      requires AllWellFormed(faces)
      modifies this
      ensures stream == old(stream) + Rows(faces, timestamp)
      ensures dataArray == old(dataArray)
      ensures captureFps == old(captureFps) && captureLastTs == old(captureLastTs)
      ensures processFps == old(processFps) && processLastTs == old(processLastTs)
    {
      var rows := WriteRows(faces, timestamp);
      stream := stream + rows;
    }
  }
}
