/** The logger of the speech samples (speech/headers/Logger.h): logResult
    reports the parts a processing result carries, in a fixed order, and
    each analysis is printed with four fixed decimals, after which the
    stream's precision and flags are put back. */
module SpeechLogging {
  import opened Wrappers
  import Decimal

  datatype Gender = Male | Female | Unknown

  datatype SpeakerAnalysis = SpeakerAnalysis(singleSpeaker: real, multiSpeaker: real, noise: real)

  datatype SpeechAnalysis = SpeechAnalysis(startMs: int, stopMs: int, gender: Gender,
                                           genderMale: real, genderFemale: real,
                                           laughter: real, arousal: real, anger: real)

  /** A processing result; a part is present where its has* test holds. */
  datatype ProcessingResult = ProcessingResult(speechStartMs: Option<int>,
                                               speakerAnalysis: Option<SpeakerAnalysis>,
                                               speechAnalysis: Option<SpeechAnalysis>,
                                               speechStopMs: Option<int>)

  /** The listener callbacks logResult calls. */
  datatype Callback = SpeechStarted(ms: int) | SpeakerAnalyzed(a: SpeakerAnalysis)
                    | SpeechAnalyzed(s: SpeechAnalysis) | SpeechStopped(ms: int)

  /** Which of the four callbacks a value is, in the order logResult tries them. */
  function Rank(c: Callback): nat {
    match c
    case SpeechStarted(_) => 0
    case SpeakerAnalyzed(_) => 1
    case SpeechAnalyzed(_) => 2
    case SpeechStopped(_) => 3
  }

  /** The callback for a part, if the result carries it. */
  function Opt<T>(o: Option<T>, make: T -> Callback): (cs: seq<Callback>)
    ensures |cs| <= 1
  {
    if o.Some? then [make(o.value)] else []
  }

  /** The kinds of callback among cs. */
  function RanksOf(cs: seq<Callback>): set<nat> {
    set i | 0 <= i < |cs| :: Rank(cs[i])
  }

  lemma RanksAppend(a: seq<Callback>, b: seq<Callback>)
    ensures RanksOf(a + b) == RanksOf(a) + RanksOf(b)
  {
    forall k | k in RanksOf(a + b)
      ensures k in RanksOf(a) + RanksOf(b)
    {
      var i :| 0 <= i < |a + b| && Rank((a + b)[i]) == k;
      if i >= |a| {
        assert b[i - |a|] == (a + b)[i];
      }
    }
    forall k | k in RanksOf(a)
      ensures k in RanksOf(a + b)
    {
      var i :| 0 <= i < |a| && Rank(a[i]) == k;
      assert (a + b)[i] == a[i];
    }
    forall k | k in RanksOf(b)
      ensures k in RanksOf(a + b)
    {
      var i :| 0 <= i < |b| && Rank(b[i]) == k;
      assert (a + b)[|a| + i] == b[i];
    }
  }

  lemma RanksOne(cs: seq<Callback>)
    requires |cs| <= 1
    ensures cs == [] ==> RanksOf(cs) == {}
    ensures |cs| == 1 ==> RanksOf(cs) == {Rank(cs[0])}
  {
    if |cs| == 1 {
      assert Rank(cs[0]) in RanksOf(cs);
    }
  }

  /** logResult: the callbacks for start, speaker analysis, speech analysis
      and stop, in that order. */
  function LogResult(r: ProcessingResult): (cs: seq<Callback>)
    ensures |cs| <= 4
  {
    Opt(r.speechStartMs, ms => SpeechStarted(ms)) + Opt(r.speakerAnalysis, a => SpeakerAnalyzed(a))
    + Opt(r.speechAnalysis, s => SpeechAnalyzed(s)) + Opt(r.speechStopMs, ms => SpeechStopped(ms))
  }

  /** logResult reports a part exactly when the result carries it. */
  lemma LogResultReportsParts(r: ProcessingResult)
    ensures RanksOf(LogResult(r)) == PartsOf(r)
  {
    var first := Opt(r.speechStartMs, ms => SpeechStarted(ms));
    var second := Opt(r.speakerAnalysis, a => SpeakerAnalyzed(a));
    var third := Opt(r.speechAnalysis, s => SpeechAnalyzed(s));
    var fourth := Opt(r.speechStopMs, ms => SpeechStopped(ms));
    RanksOne(first);
    RanksOne(second);
    RanksOne(third);
    RanksOne(fourth);
    assert RanksOf(first) == (if r.speechStartMs.Some? then {0} else {});
    assert RanksOf(second) == (if r.speakerAnalysis.Some? then {1} else {});
    assert RanksOf(third) == (if r.speechAnalysis.Some? then {2} else {});
    assert RanksOf(fourth) == (if r.speechStopMs.Some? then {3} else {});
    RanksAppend(first, second);
    RanksAppend(first + second, third);
    RanksAppend(first + second + third, fourth);
    assert LogResult(r) == first + second + third + fourth;
  }

  /** Each callback carries the value of the part it reports. */
  lemma LogResultCarries(r: ProcessingResult)
    ensures forall c :: c in LogResult(r) ==> Carries(r, c)
  {
  }

  /** The callbacks come in the fixed order, each at most once. */
  lemma LogResultOrdered(r: ProcessingResult)
    ensures forall i :: 0 <= i < |LogResult(r)| - 1 ==> Rank(LogResult(r)[i]) < Rank(LogResult(r)[i + 1])
  {
  }

  /** The ranks of the parts a result carries. */
  function PartsOf(r: ProcessingResult): set<nat> {
    (if r.speechStartMs.Some? then {0} else {}) + (if r.speakerAnalysis.Some? then {1} else {})
    + (if r.speechAnalysis.Some? then {2} else {}) + (if r.speechStopMs.Some? then {3} else {})
  }

  /** The callback reports a part the result carries. */
  predicate Carries(r: ProcessingResult, c: Callback) {
    match c
    case SpeechStarted(ms) => r.speechStartMs == Some(ms)
    case SpeakerAnalyzed(a) => r.speakerAnalysis == Some(a)
    case SpeechAnalyzed(s) => r.speechAnalysis == Some(s)
    case SpeechStopped(ms) => r.speechStopMs == Some(ms)
  }

  /** The stream's float field: std::fixed selects Fixed. */
  datatype FloatField = General | Fixed | Scientific

  /** The formatting state of std::cout that the logger touches. */
  datatype Format = Format(precision: int, floatField: FloatField)

  /** What the logger writes to std::cout: Put is text as it is; PutNumber
      is a caption, a number and a line break; Begin(p) is
      BEGIN_STREAM_PRECISION_CHANGE(p), which saves the precision and flags
      and selects fixed notation with p decimals; End is
      END_STREAM_PRECISION_CHANGE, which puts the saved ones back. */
  datatype Op = Put(s: string) | PutNumber(caption: string, x: real) | Begin(p: nat) | End

  /** A printed piece: text, or a number in the format it was printed in. */
  datatype Line = Text(s: string) | Number(caption: string, x: real, fmt: Format)

  /** The output so far, the current format and the one the last Begin saved. */
  datatype Stream = Stream(out: seq<Line>, fmt: Format, saved: Option<Format>)

  function Step(op: Op, st: Stream): Stream {
    match op
    case Put(s) => st.(out := st.out + [Text(s)])
    case PutNumber(caption, x) => st.(out := st.out + [Number(caption, x, st.fmt)])
    case Begin(p) => st.(fmt := Format(p, Fixed), saved := Some(st.fmt))
    case End => if st.saved.Some? then st.(fmt := st.saved.value, saved := None) else st
  }

  function Run(ops: seq<Op>, st: Stream): Stream
    decreases |ops|
  {
    if ops == [] then st else Run(ops[1..], Step(ops[0], st))
  }

  const Rule := "---------------------------------------------\n"

  /** The gender sentence of onSpeechAnalyzed. */
  function GenderString(g: Gender): (s: string)
    ensures g == Male ==> s == "I believe you are MALE!\n"
    ensures g == Female ==> s == "I believe you are FEMALE!\n"
    ensures g == Unknown ==> s == "I'm not sure of your gender based on your voice.\n"
  {
    match g
    case Male => "I believe you are MALE!\n"
    case Female => "I believe you are FEMALE!\n"
    case Unknown => "I'm not sure of your gender based on your voice.\n"
  }

  /** The format inside BEGIN_STREAM_PRECISION_CHANGE(4). */
  const Four := Format(4, Fixed)

  /** The analysis period, written as the half-open interval [start, stop). */
  function Period(startMs: int, stopMs: int): string {
    "results for time period [" + Decimal.IntToString(startMs) + ", " + Decimal.IntToString(stopMs) + ") ms\n"
  }

  /** What each callback writes. */
  function Program(c: Callback): seq<Op> {
    match c
    case SpeechStarted(ms) => [Put("speech started: " + Decimal.IntToString(ms) + " ms\n")]
    case SpeechStopped(ms) => [Put("speech stopped: " + Decimal.IntToString(ms) + " ms\n")]
    case SpeakerAnalyzed(a) =>
      [Put(Rule), Begin(4)]
      + [PutNumber("Single Speaker: ", a.singleSpeaker), PutNumber("Multi Speaker: ", a.multiSpeaker),
         PutNumber("Noise: ", a.noise)]
      + [End, Put(Rule)]
    case SpeechAnalyzed(s) =>
      [Put(Rule), Put(Period(s.startMs, s.stopMs)), Put(Rule), Put("Gender prediction: " + GenderString(s.gender)),
       Begin(4)]
      + [PutNumber("Gender (male): ", s.genderMale), PutNumber("Gender (female): ", s.genderFemale),
         PutNumber("Laughter: ", s.laughter), PutNumber("Arousal: ", s.arousal), PutNumber("Anger: ", s.anger)]
      + [End]
  }

  /** What a sequence of callbacks writes. */
  function Programs(cs: seq<Callback>): seq<Op> {
    if cs == [] then [] else Program(cs[0]) + Programs(cs[1..])
  }

  /** What logging the results in turn writes. */
  function LogAll(results: seq<ProcessingResult>): seq<Op> {
    if results == [] then [] else Programs(LogResult(results[0])) + LogAll(results[1..])
  }

  /** Every number among the lines was printed in format f. */
  predicate NumbersIn(lines: seq<Line>, f: Format) {
    forall i :: 0 <= i < |lines| && lines[i].Number? ==> lines[i].fmt == f
  }

  /** Running st forward keeps what was already printed, ends in the format
      and saved state given, and prints every new number in format f. */
  predicate Extends(st: Stream, r: Stream, fmt: Format, saved: Option<Format>, f: Format) {
    && |st.out| <= |r.out| && r.out[..|st.out|] == st.out
    && r.fmt == fmt && r.saved == saved
    && NumbersIn(r.out[|st.out|..], f)
  }

  lemma {:induction false} RunAppend(a: seq<Op>, b: seq<Op>, st: Stream)
    ensures Run(a + b, st) == Run(b, Run(a, st))
    decreases |a|
  {
    if a == [] {
      assert a + b == b;
    } else {
      assert (a + b)[0] == a[0];
      assert (a + b)[1..] == a[1..] + b;
      RunAppend(a[1..], b, Step(a[0], st));
    }
  }

  /** Extends composes: two stretches, the second starting where the first
      ended, make one. */
  lemma ExtendsTrans(st: Stream, mid: Stream, r: Stream, f: Format)
    requires Extends(st, mid, mid.fmt, mid.saved, f)
    requires Extends(mid, r, r.fmt, r.saved, f)
    ensures Extends(st, r, r.fmt, r.saved, f)
  {
    assert r.out[..|st.out|] == mid.out[..|mid.out|][..|st.out|];
    var tail := r.out[|st.out|..];
    forall i | 0 <= i < |tail| && tail[i].Number?
      ensures tail[i].fmt == f
    {
      if i < |mid.out| - |st.out| {
        assert tail[i] == mid.out[|st.out|..][i];
      } else {
        assert tail[i] == r.out[|mid.out|..][i - (|mid.out| - |st.out|)];
      }
    }
  }

  /** Text and numbers without a precision change leave the format as it is
      and print the numbers in it (f is that format where there are
      numbers, and any format where there is only text). */
  lemma {:induction false} RunPlain(ops: seq<Op>, st: Stream, f: Format)
    requires forall i :: 0 <= i < |ops| ==> ops[i].Put? || (ops[i].PutNumber? && st.fmt == f)
    ensures Extends(st, Run(ops, st), st.fmt, st.saved, f)
    decreases |ops|
  {
    if ops == [] {
      assert st.out[|st.out|..] == [];
    } else {
      var next := Step(ops[0], st);
      RunPlain(ops[1..], next, f);
      assert Extends(st, next, st.fmt, st.saved, f) by {
        assert next.out[|st.out|..] == [next.out[|st.out|]];
      }
      ExtendsTrans(st, next, Run(ops, st), f);
    }
  }

  /** A precision change around numbers prints them in fixed notation with
      p decimals and then restores the format the stream had. */
  lemma PrecisionBlock(p: nat, ns: seq<Op>, st: Stream)
    requires st.saved.None?
    requires forall i :: 0 <= i < |ns| ==> ns[i].PutNumber?
    ensures Extends(st, Run([Begin(p)] + ns + [End], st), st.fmt, None, Format(p, Fixed))
  {
    var inside := Step(Begin(p), st);
    RunAppend([Begin(p)], ns, st);
    RunAppend([Begin(p)] + ns, [End], st);
    RunPlain(ns, inside, Format(p, Fixed));
    var r := Run([Begin(p)] + ns + [End], st);
    assert r.out == Run(ns, inside).out;
  }

  /** Text, then a precision change around numbers, then text: the numbers
      are printed in fixed notation with p decimals and the stream ends in
      the format it started in. */
  lemma Bracketed(pre: seq<Op>, p: nat, ns: seq<Op>, post: seq<Op>, st: Stream)
    requires st.saved.None?
    requires forall i :: 0 <= i < |pre| ==> pre[i].Put?
    requires forall i :: 0 <= i < |ns| ==> ns[i].PutNumber?
    requires forall i :: 0 <= i < |post| ==> post[i].Put?
    ensures Extends(st, Run(pre + ([Begin(p)] + ns + [End]) + post, st), st.fmt, None, Format(p, Fixed))
  {
    var block := [Begin(p)] + ns + [End];
    var f := Format(p, Fixed);
    var s1 := Run(pre, st);
    var s2 := Run(block, s1);
    var s3 := Run(post, s2);
    RunPlain(pre, st, f);
    PrecisionBlock(p, ns, s1);
    ExtendsTrans(st, s1, s2, f);
    RunPlain(post, s2, f);
    ExtendsTrans(st, s2, s3, f);
    RunAppend(pre, block, st);
    RunAppend(pre + block, post, st);
  }

  /** Each callback leaves the stream's precision and flags as it found
      them, and prints each of its numbers with four fixed decimals. */
  lemma CallbackKeepsFormat(c: Callback, st: Stream)
    requires st.saved.None?
    ensures Extends(st, Run(Program(c), st), st.fmt, None, Four)
  {
    match c
    case SpeechStarted(ms) =>
      RunPlain(Program(c), st, Four);
    case SpeechStopped(ms) =>
      RunPlain(Program(c), st, Four);
    case SpeakerAnalyzed(a) =>
      SpeakerKeepsFormat(a, st);
    case SpeechAnalyzed(s) =>
      SpeechKeepsFormat(s, st);
  }

  /** onSpeakerAnalyzed: a rule, the three likelihoods at four decimals, a rule. */
  lemma SpeakerKeepsFormat(a: SpeakerAnalysis, st: Stream)
    requires st.saved.None?
    ensures Extends(st, Run(Program(SpeakerAnalyzed(a)), st), st.fmt, None, Four)
  {
    var ns := [PutNumber("Single Speaker: ", a.singleSpeaker), PutNumber("Multi Speaker: ", a.multiSpeaker),
               PutNumber("Noise: ", a.noise)];
    assert Program(SpeakerAnalyzed(a)) == [Put(Rule)] + ([Begin(4)] + ns + [End]) + [Put(Rule)];
    Bracketed([Put(Rule)], 4, ns, [Put(Rule)], st);
  }

  /** onSpeechAnalyzed: the period and gender sentence, then the five
      values at four decimals. */
  lemma SpeechKeepsFormat(s: SpeechAnalysis, st: Stream)
    requires st.saved.None?
    ensures Extends(st, Run(Program(SpeechAnalyzed(s)), st), st.fmt, None, Four)
  {
    var pre := [Put(Rule), Put(Period(s.startMs, s.stopMs)), Put(Rule),
                Put("Gender prediction: " + GenderString(s.gender))];
    var ns := [PutNumber("Gender (male): ", s.genderMale), PutNumber("Gender (female): ", s.genderFemale),
               PutNumber("Laughter: ", s.laughter), PutNumber("Arousal: ", s.arousal), PutNumber("Anger: ", s.anger)];
    assert Program(SpeechAnalyzed(s)) == pre + ([Begin(4)] + ns + [End]) + [];
    Bracketed(pre, 4, ns, [], st);
  }

  /** So does any sequence of callbacks. */
  lemma {:induction false} CallbacksKeepFormat(cs: seq<Callback>, st: Stream)
    requires st.saved.None?
    ensures Extends(st, Run(Programs(cs), st), st.fmt, None, Four)
  {
    if cs == [] {
      assert st.out[|st.out|..] == [];
    } else {
      RunAppend(Program(cs[0]), Programs(cs[1..]), st);
      var mid := Run(Program(cs[0]), st);
      CallbackKeepsFormat(cs[0], st);
      CallbacksKeepFormat(cs[1..], mid);
      ExtendsTrans(st, mid, Run(Programs(cs), st), Four);
    }
  }

  /** Logging any number of results one after the other leaves the stream's
      format as the caller set it, and every analysis number is printed with
      four fixed decimals. */
  lemma {:induction false} LoggingKeepsFormat(results: seq<ProcessingResult>, st: Stream)
    requires st.saved.None?
    ensures Extends(st, Run(LogAll(results), st), st.fmt, None, Four)
  {
    if results == [] {
      assert st.out[|st.out|..] == [];
    } else {
      var head := Programs(LogResult(results[0]));
      RunAppend(head, LogAll(results[1..]), st);
      var mid := Run(head, st);
      CallbacksKeepFormat(LogResult(results[0]), st);
      LoggingKeepsFormat(results[1..], mid);
      ExtendsTrans(st, mid, Run(LogAll(results), st), Four);
    }
  }
}
