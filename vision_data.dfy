/** The face results of the frame-detector samples, and the classifier
    lists the Visualizer constructor fills (vision/shared/Visualizer.cpp).
    A std::map keyed by an enumeration iterates in the enumeration's order.
    The SDK's enumerations are not part of this model, so the lists below
    assume that order is the one in which the constructor lists them. */
module VisionData {

  datatype Measurement = Pitch | Yaw | Roll | InterocularDistance
  datatype Emotion = Joy | Anger | Surprise | Valence
  datatype Expression = Smile | BrowRaise | BrowFurrow | NoseWrinkle | UpperLipRaise
                      | MouthOpen | EyeClosure | CheekRaise
  datatype Quality = Brightness

  /** HEAD_ANGLES, EMOTIONS and EXPRESSIONS: each value with its column name. */
  const HeadAngles: seq<(Measurement, string)> := [(Pitch, "pitch"), (Yaw, "yaw"), (Roll, "roll")]
  const Emotions: seq<(Emotion, string)> :=
    [(Joy, "joy"), (Anger, "anger"), (Surprise, "surprise"), (Valence, "valence")]
  const Expressions: seq<(Expression, string)> := [
    (Smile, "smile"), (BrowRaise, "browRaise"), (BrowFurrow, "browFurrow"),
    (NoseWrinkle, "noseWrinkle"), (UpperLipRaise, "upperLipRaise"), (MouthOpen, "mouthOpen"),
    (EyeClosure, "eyeClosure"), (CheekRaise, "cheekRaise")]

  /** The appearance of a face as the demo's lookup tables name it. */
  datatype Appearance = Appearance(glasses: string, age: string, ethnicity: string, gender: string)

  /** A face as vision::Face reports it. */
  datatype Face = Face(id: int, confidence: real,
                       measurements: map<Measurement, real>,
                       emotions: map<Emotion, real>,
                       expressions: map<Expression, real>,
                       appearance: Appearance, dominantEmoji: string,
                       qualities: map<Quality, real>)

  /** Every head angle, emotion and expression is present, so the map
      lookups with at() succeed. */
  predicate Complete(f: Face) {
    && Pitch in f.measurements && Yaw in f.measurements && Roll in f.measurements
    && Joy in f.emotions && Anger in f.emotions && Surprise in f.emotions && Valence in f.emotions
    && Smile in f.expressions && BrowRaise in f.expressions && BrowFurrow in f.expressions
    && NoseWrinkle in f.expressions && UpperLipRaise in f.expressions && MouthOpen in f.expressions
    && EyeClosure in f.expressions && CheekRaise in f.expressions
  }

  /** The lengths of the lists above. */
  const HeadAngleCount := 3
  const EmotionCount := 4
  const ExpressionCount := 8

  /** The column names of a list. */
  function ColumnNames<K>(list: seq<(K, string)>): (names: seq<string>)
    ensures |names| == |list|
    ensures forall k :: 0 <= k < |list| ==> names[k] == list[k].1
  {
    seq(|list|, k requires 0 <= k < |list| => list[k].1)
  }

  /** The values of a face for a list, in list order. */
  function ValuesOf<K>(list: seq<(K, string)>, values: map<K, real>): (r: seq<real>)
    requires forall k :: 0 <= k < |list| ==> list[k].0 in values
    ensures |r| == |list|
    ensures forall k :: 0 <= k < |list| ==> r[k] == values[list[k].0]
  {
    seq(|list|, k requires 0 <= k < |list| => values[list[k].0])
  }
}
