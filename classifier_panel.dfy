/** The classifier display cache of the AffdexMe window (MainWindow.xaml.cs):
    six cached classifier percentages, a count of captures without a face
    that decides when the cached values are zeroed and when the panel is
    hidden, the feature-point skip counter and the show-points toggle. */
module ClassifierPanel {
  import opened Wrappers
  import Numeric
  import Decimal

  // Indices into the cache (enum AffdexFaceClassifiers).
  const Smile := 0
  const BrowFurrow := 1
  const BrowRaise := 2
  const LipCornerDepressor := 3
  const Engagement := 4
  const Valence := 5
  const ClassifierCount := 6

  /** Width in pixels of a bar at 100 percent (ClassiferValueDisplayLength). */
  const ClassifierValueDisplayLength := 90
  /** Captures without a face after which the cached values are zeroed (count > 10). */
  const ZeroAfterSkips := 10
  /** Captures without a face from which the classifier panel is hidden. */
  const HideAfterSkips := 30
  /** Captures without a redraw after which the feature-point canvas is cleared (count > 4). */
  const FeaturePointsMaxSkips := 4

  /** The order in which UpdateClassifierPanel refreshes the six bars. */
  const DisplayOrder: seq<nat> := [Smile, LipCornerDepressor, BrowRaise, Valence, BrowFurrow, Engagement]

  /** The six scores the detector reports for a face, as percentages. */
  datatype FaceScores = FaceScores(
    smile: real, browFurrow: real, browRaise: real,
    lipCornerDepressor: real, engagement: real, valence: real)

  function ScoreAt(f: FaceScores, k: nat): real
    requires k < ClassifierCount
  {
    match k
    case 0 => f.smile
    case 1 => f.browFurrow
    case 2 => f.browRaise
    case 3 => f.lipCornerDepressor
    case 4 => f.engagement
    case _ => f.valence
  }

  /** The cache entries a face produces: each score rounded half away from zero. */
  function RoundedScores(f: FaceScores): (v: seq<int>)
    ensures |v| == ClassifierCount
    ensures forall k :: 0 <= k < ClassifierCount ==> v[k] == Numeric.RoundHalfAway(ScoreAt(f, k))
  {
    seq(ClassifierCount, k requires 0 <= k < ClassifierCount => Numeric.RoundHalfAway(ScoreAt(f, k)))
  }

  function Zeros(): (v: seq<int>)
    ensures |v| == ClassifierCount && forall k :: 0 <= k < |v| ==> v[k] == 0
  {
    [0, 0, 0, 0, 0, 0]
  }

  /** The cached state UpdateClassifierPanel works on. */
  datatype Cache = Cache(values: seq<int>, skipCount: int, firstFaceRecognized: bool)
  {
    ghost predicate Valid() {
      |values| == ClassifierCount && skipCount >= 0
    }
  }

  /** The outcome of one UpdateClassifierPanel call: the new cache and, when
      the detector is running, whether the classifiers are displayed. */
  datatype PanelUpdate = PanelUpdate(cache: Cache, display: Option<bool>)

  /** UpdateClassifierPanel on the cache. imageHidden is whether the face
      image control is hidden, which is the initial "do not display" choice. */
  function Update(c: Cache, running: bool, imageHidden: bool, face: Option<FaceScores>): (u: PanelUpdate)
    requires c.Valid()
    ensures u.cache.Valid()
    // A stopped detector changes nothing and decides nothing.
    ensures !running ==> u.cache == c && u.display.None?
    ensures running ==> u.display.Some?
    // A face stores all six values, resets the count and is always displayed.
    ensures running && face.Some? ==>
      u.cache == Cache(RoundedScores(face.value), 0, true) && u.display == Some(true)
    // Before the first face, a faceless update hides and leaves the cache alone.
    ensures running && face.None? && !c.firstFaceRecognized ==>
      u.cache == c && u.display == Some(false)
    // After the first face, the count goes up; the values survive at most ten
    // faceless updates; from the thirtieth on the classifiers are not shown.
    ensures running && face.None? && c.firstFaceRecognized ==>
      && u.cache.skipCount == c.skipCount + 1
      && u.cache.firstFaceRecognized
      && (u.cache.skipCount <= ZeroAfterSkips ==> u.cache.values == c.values)
      && (u.cache.skipCount > ZeroAfterSkips ==> u.cache.values == Zeros())
      && (u.display == Some(true) <==> !imageHidden && u.cache.skipCount < HideAfterSkips)
  {
    if !running then PanelUpdate(c, None)
    else if face.Some? then PanelUpdate(Cache(RoundedScores(face.value), 0, true), Some(true))
    else if !c.firstFaceRecognized then PanelUpdate(c, Some(false))
    else
      var count := c.skipCount + 1;
      if count > ZeroAfterSkips then
        PanelUpdate(Cache(Zeros(), count, true), Some(!imageHidden && count < HideAfterSkips))
      else
        PanelUpdate(c.(skipCount := count), Some(!imageHidden))
  }

  /** n successive faceless updates with the detector running; the display
      decision is the last one's (None when n is 0). */
  function FacelessUpdates(c: Cache, imageHidden: bool, n: nat): (u: PanelUpdate)
    requires c.Valid()
    ensures u.cache.Valid()
    decreases n
  {
    if n == 0 then PanelUpdate(c, None)
    else Update(FacelessUpdates(c, imageHidden, n - 1).cache, true, imageHidden, None)
  }

  /** After a face has been seen (count reset to 0), n faceless captures in a
      row leave the count at n, keep the face's values for the first ten,
      zero them from the eleventh, and hide the classifiers from the thirtieth. */
  lemma {:induction false} FacelessRunAfterFace(c: Cache, imageHidden: bool, n: nat)
    requires c.Valid() && c.firstFaceRecognized && c.skipCount == 0
    requires n >= 1
    ensures FacelessUpdates(c, imageHidden, n).cache.skipCount == n
    ensures FacelessUpdates(c, imageHidden, n).cache.firstFaceRecognized
    ensures FacelessUpdates(c, imageHidden, n).cache.values == if n > ZeroAfterSkips then Zeros() else c.values
    ensures FacelessUpdates(c, imageHidden, n).display == Some(!imageHidden && n < HideAfterSkips)
    decreases n
  {
    if n > 1 {
      FacelessRunAfterFace(c, imageHidden, n - 1);
    }
  }

  /** Until the first face is recognized, faceless captures never display the
      classifiers and never touch the cache. */
  lemma {:induction false} NoDisplayBeforeFirstFace(c: Cache, imageHidden: bool, n: nat)
    requires c.Valid() && !c.firstFaceRecognized
    requires n >= 1
    ensures FacelessUpdates(c, imageHidden, n) == PanelUpdate(c, Some(false))
    decreases n
  {
    if n > 1 {
      NoDisplayBeforeFirstFace(c, imageHidden, n - 1);
    }
  }

  datatype Color = Transparent | LimeGreen | Red

  /** What UpdateClassifier puts on screen for one cached value. */
  datatype Bar = Bar(width: int, color: Color, text: string)

  /** UpdateClassifier: bar width, background colour and label of a value. */
  function BarFor(v: int): (b: Bar)
    // the width is 90 percent of |v| pixels, rounded down
    ensures 0 <= b.width && b.width * 100 <= ClassifierValueDisplayLength * Numeric.Abs(v) < (b.width + 1) * 100
    ensures b.color == LimeGreen <==> v > 0
    ensures b.color == Red <==> v < 0
    ensures |b.text| >= 2 && b.text[|b.text| - 1] == '%'
  {
    var width := ClassifierValueDisplayLength * Numeric.Abs(v) / 100;
    var color := if v > 0 then LimeGreen else if v < 0 then Red else Transparent;
    Bar(width, color, Decimal.IntToString(v) + "%")
  }

  /** A percentage in -100..100 gives a bar no wider than the full length,
      bars never shrink as the magnitude grows, and the label reads back as the value. */
  lemma BarProperties(v: int, w: int)
    requires -100 <= v <= 100
    requires Numeric.Abs(v) <= Numeric.Abs(w)
    ensures 0 <= BarFor(v).width <= ClassifierValueDisplayLength
    ensures BarFor(v).width <= BarFor(w).width
    ensures Numeric.Abs(v) == 100 ==> BarFor(v).width == ClassifierValueDisplayLength
    ensures Decimal.ParseInt(BarFor(v).text[..|BarFor(v).text| - 1]) == Some(v)
  {
    var text := BarFor(v).text;
    assert text[..|text| - 1] == Decimal.IntToString(v);
    Decimal.IntToStringRoundTrip(v);
  }

  /** The bars drawn for a cache, in DisplayOrder. */
  function BarsOf(values: seq<int>): (bars: seq<Bar>)
    requires |values| == ClassifierCount
    ensures |bars| == |DisplayOrder|
    ensures forall k :: 0 <= k < |bars| ==> bars[k] == BarFor(values[DisplayOrder[k]])
  {
    seq(|DisplayOrder|, k requires 0 <= k < |DisplayOrder| => BarFor(values[DisplayOrder[k]]))
  }

  /** One capture of DisplayImageToOffscreenCanvas on the feature-point skip
      counter: the new count and whether the canvas is cleared. */
  function FeatureSkipStep(count: int): (r: (int, bool))
    ensures r.1 <==> count + 1 > FeaturePointsMaxSkips
    ensures r.0 == if r.1 then 0 else count + 1
  {
    if count + 1 > FeaturePointsMaxSkips then (0, true) else (count + 1, false)
  }

  /** The counter after n captures without a redraw. */
  function FeatureSkipAfter(count: int, n: nat): int
    decreases n
  {
    if n == 0 then count else FeatureSkipStep(FeatureSkipAfter(count, n - 1)).0
  }

  /** Starting from 0, the counter after n captures is n mod 5: it stays in
      0..4, and the canvas is cleared on every fifth capture. */
  lemma {:induction false} FeatureSkipCycles(n: nat)
    ensures FeatureSkipAfter(0, n) == n % (FeaturePointsMaxSkips + 1)
    ensures 0 <= FeatureSkipAfter(0, n) <= FeaturePointsMaxSkips
    ensures n >= 1 ==> (FeatureSkipStep(FeatureSkipAfter(0, n - 1)).1 <==> n % (FeaturePointsMaxSkips + 1) == 0)
    decreases n
  {
    if n >= 1 {
      FeatureSkipCycles(n - 1);
    }
  }

  /** The window's state that the classifier panel and the face-point canvas use. */
  class MainWindow {
    var classifierValues: array<int>
    var cachedSkipFaceResultsCount: int
    var featurePointsSkipCount: int
    var firstFaceRecognized: bool
    var showFacePoints: bool
    /** Whether the classifier panel (stackPanelClassifiers) is visible. */
    var classifiersVisible: bool
    /** Whether the face-point canvas holds drawn points. */
    var facePointsOnCanvas: bool

    ghost predicate Valid()
      reads this
    {
      && classifierValues.Length == ClassifierCount
      && cachedSkipFaceResultsCount >= 0
      && 0 <= featurePointsSkipCount <= FeaturePointsMaxSkips
    }

    ghost function CacheOf(): Cache
      reads this, classifierValues
    {
      Cache(classifierValues[..], cachedSkipFaceResultsCount, firstFaceRecognized)
    }

    /** InitializeCameraApp: counters at 0, face points off, panel hidden. */
    constructor ()
      ensures Valid() && fresh(classifierValues)
      ensures CacheOf() == Cache(Zeros(), 0, false)
      ensures featurePointsSkipCount == 0 && !showFacePoints
      ensures !classifiersVisible && !facePointsOnCanvas
    {
      classifierValues := new int[ClassifierCount](_ => 0);
      featurePointsSkipCount := 0;
      cachedSkipFaceResultsCount := 0;
      firstFaceRecognized := false;
      showFacePoints := false;
      classifiersVisible := false;
      facePointsOnCanvas := false;
    }

    /** StartCameraProcessing: clears the cache and the count; the first-face
        flag is reset only once the detector has started without an exception. */
    method StartCameraProcessing(detectorStarted: bool)
      requires Valid()
      modifies this, classifierValues
      ensures Valid() && classifierValues == old(classifierValues)
      ensures CacheOf() == Cache(Zeros(), 0, if detectorStarted then false else old(firstFaceRecognized))
      ensures featurePointsSkipCount == old(featurePointsSkipCount)
      ensures showFacePoints == old(showFacePoints)
      ensures classifiersVisible == old(classifiersVisible)
      ensures facePointsOnCanvas == old(facePointsOnCanvas)
    {
      var index := 0;
      while index < classifierValues.Length
        invariant 0 <= index <= classifierValues.Length
        modifies classifierValues
        invariant forall k :: 0 <= k < index ==> classifierValues[k] == 0
      {
        classifierValues[index] := 0;
        index := index + 1;
      }
      cachedSkipFaceResultsCount := 0;
      if detectorStarted {
        firstFaceRecognized := false;
      }
    }

    /** UpdateClassifierPanel: returns the bars refreshed by UpdateClassifier
        (none when the classifiers are not displayed). */
    method UpdateClassifierPanel(running: bool, imageHidden: bool, face: Option<FaceScores>)
      returns (bars: seq<Bar>)
      requires Valid()
      modifies this, classifierValues
      ensures Valid() && classifierValues == old(classifierValues)
      ensures CacheOf() == Update(old(CacheOf()), running, imageHidden, face).cache
      ensures classifiersVisible == match Update(old(CacheOf()), running, imageHidden, face).display
        case Some(d) => d
        case None => old(classifiersVisible)
      ensures bars == if Update(old(CacheOf()), running, imageHidden, face).display == Some(true)
        then BarsOf(CacheOf().values) else []
      ensures featurePointsSkipCount == old(featurePointsSkipCount)
      ensures showFacePoints == old(showFacePoints)
      ensures facePointsOnCanvas == old(facePointsOnCanvas)
    {
      bars := [];
      var displayClassifiers := !imageHidden;
      if running {
        if face.Some? {
          var scores := RoundedScores(face.value);
          classifierValues[Smile] := scores[Smile];
          classifierValues[BrowFurrow] := scores[BrowFurrow];
          classifierValues[BrowRaise] := scores[BrowRaise];
          classifierValues[LipCornerDepressor] := scores[LipCornerDepressor];
          classifierValues[Engagement] := scores[Engagement];
          classifierValues[Valence] := scores[Valence];
          assert classifierValues[..] == scores;
          cachedSkipFaceResultsCount := 0;
          firstFaceRecognized := true;
          displayClassifiers := true;
        } else if !firstFaceRecognized {
          displayClassifiers := false;
        } else {
          cachedSkipFaceResultsCount := cachedSkipFaceResultsCount + 1;
          if cachedSkipFaceResultsCount > ZeroAfterSkips {
            classifierValues[Smile] := 0;
            classifierValues[BrowFurrow] := 0;
            classifierValues[BrowRaise] := 0;
            classifierValues[LipCornerDepressor] := 0;
            classifierValues[Engagement] := 0;
            classifierValues[Valence] := 0;
            assert classifierValues[..] == Zeros();
            if cachedSkipFaceResultsCount >= HideAfterSkips {
              displayClassifiers := false;
            }
          }
        }
        if displayClassifiers {
          bars := BarsOf(classifierValues[..]);
        }
        classifiersVisible := displayClassifiers;
      }
    }

    /** The feature-point part of DisplayImageToOffscreenCanvas: after more
        than four captures without a redraw the canvas is cleared. */
    method DisplayImageToOffscreenCanvas() returns (cleared: bool)
      requires Valid()
      modifies this`featurePointsSkipCount, this`facePointsOnCanvas
      ensures Valid()
      ensures (featurePointsSkipCount, cleared) == FeatureSkipStep(old(featurePointsSkipCount))
      ensures facePointsOnCanvas == (old(facePointsOnCanvas) && !cleared)
    {
      featurePointsSkipCount := featurePointsSkipCount + 1;
      cleared := false;
      if featurePointsSkipCount > FeaturePointsMaxSkips {
        facePointsOnCanvas := false;
        featurePointsSkipCount := 0;
        cleared := true;
      }
    }

    /** DisplayFeaturePoints: with points switched on and a face present, the
        points are drawn and the skip counter restarts at 0. */
    method DisplayFeaturePoints(running: bool, hasFace: bool)
      requires Valid()
      modifies this`featurePointsSkipCount, this`facePointsOnCanvas
      ensures Valid()
      ensures showFacePoints && hasFace && running ==> featurePointsSkipCount == 0 && facePointsOnCanvas
      ensures !(showFacePoints && hasFace && running) ==>
        featurePointsSkipCount == old(featurePointsSkipCount) && facePointsOnCanvas == old(facePointsOnCanvas)
    {
      if showFacePoints && hasFace && running {
        facePointsOnCanvas := true;
        featurePointsSkipCount := 0;
      }
    }

    /** The results callback: a face result updates the panel, then the points. */
    method OnImageResults(running: bool, imageHidden: bool, face: FaceScores) returns (bars: seq<Bar>)
      requires Valid()
      modifies this, classifierValues
      ensures Valid() && classifierValues == old(classifierValues)
      ensures running ==> CacheOf() == Cache(RoundedScores(face), 0, true)
      ensures !running ==> CacheOf() == old(CacheOf())
      ensures classifiersVisible == (running || old(classifiersVisible))
      ensures bars == if running then BarsOf(RoundedScores(face)) else []
      ensures showFacePoints == old(showFacePoints)
      ensures running && showFacePoints ==> featurePointsSkipCount == 0 && facePointsOnCanvas
      ensures !(running && showFacePoints) ==>
        featurePointsSkipCount == old(featurePointsSkipCount) && facePointsOnCanvas == old(facePointsOnCanvas)
    {
      bars := UpdateClassifierPanel(running, imageHidden, Some(face));
      DisplayFeaturePoints(running, true);
    }

    /** The capture callback: a faceless panel update, then the canvas counter. */
    method OnImageCapture(running: bool, imageHidden: bool) returns (bars: seq<Bar>, cleared: bool)
      requires Valid()
      modifies this, classifierValues
      ensures Valid() && classifierValues == old(classifierValues)
      ensures CacheOf() == Update(old(CacheOf()), running, imageHidden, None).cache
      ensures classifiersVisible == match Update(old(CacheOf()), running, imageHidden, None).display
        case Some(d) => d
        case None => old(classifiersVisible)
      ensures bars == if Update(old(CacheOf()), running, imageHidden, None).display == Some(true)
        then BarsOf(CacheOf().values) else []
      ensures (featurePointsSkipCount, cleared) == FeatureSkipStep(old(featurePointsSkipCount))
      ensures facePointsOnCanvas == (old(facePointsOnCanvas) && !cleared)
      ensures showFacePoints == old(showFacePoints)
    {
      bars := UpdateClassifierPanel(running, imageHidden, None);
      cleared := DisplayImageToOffscreenCanvas();
    }

    /** btnShowPoints_Click: flips the flag and returns the new button text. */
    method ShowPointsClick() returns (buttonText: string)
      modifies this`showFacePoints
      ensures showFacePoints == !old(showFacePoints)
      ensures buttonText == (if showFacePoints then "Hide Points" else "Show Points")
    {
      showFacePoints := !showFacePoints;
      if showFacePoints {
        buttonText := "Hide Points";
      } else {
        buttonText := "Show Points";
      }
    }
  }

  /** Two clicks on the show-points button restore the flag and the text. */
  method ShowPointsClickTwice(w: MainWindow) returns (first: string, second: string)
    modifies w
    ensures w.showFacePoints == old(w.showFacePoints)
    ensures first != second
    ensures second == (if w.showFacePoints then "Hide Points" else "Show Points")
  {
    first := w.ShowPointsClick();
    second := w.ShowPointsClick();
  }
}
