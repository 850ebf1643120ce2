/** The frame sampling of the frame-detector video demo
    (vision/frame-detector-video-demo/VideoDemo.cpp): VideoReader reads
    frames from a decoder, retries a failed decode twice, rejects a retried
    frame whose position went backwards, and holds back frames that come
    sooner than the sampling period after the last frame handed out; main
    reconciles the sampling and processing rates and accepts six file
    extensions. */
module VideoReading {
  import opened Wrappers

  /** An unsigned int of the source. */
  const UintRange: int := 0x1_0000_0000
  type Uint32 = x: int | 0 <= x < 0x1_0000_0000

  /** One grab and retrieve of the decoder: whether each succeeded and the
      position, in milliseconds, the decoder reports afterwards. */
  datatype Grab = Grab(found: bool, retrieved: bool, posMs: int)

  predicate Decoded(g: Grab) {
    g.found && g.retrieved
  }

  /** The i-th grab of a video: past the end of the file the decoder fails
      and reports position 0, as a failed decode does. */
  function AttemptAt(video: seq<Grab>, i: nat): (g: Grab)
    ensures i >= |video| ==> !Decoded(g) && g.posMs == 0
    ensures i < |video| ==> g == video[i]
  {
    if i < |video| then video[i] else Grab(false, false, 0)
  }

  /** Retries after a failed decode (MAX_ATTEMPTS). */
  const MaxAttempts := 2

  /** The number of grabs GetFrameData makes from grab number start on: it
      stops at the first decoded frame, and after the first grab and
      MaxAttempts retries at the latest. */
  function Tries(video: seq<Grab>, start: nat): (n: nat)
    ensures 1 <= n <= 1 + MaxAttempts
    ensures forall j :: start <= j < start + n - 1 ==> !Decoded(AttemptAt(video, j))
    ensures n < 1 + MaxAttempts ==> Decoded(AttemptAt(video, start + n - 1))
  {
    if Decoded(AttemptAt(video, start)) then 1
    else if Decoded(AttemptAt(video, start + 1)) then 2
    else 3
  }

  /** The loop condition of GetFrame: a frame is held back while sampling is
      on, its position is positive and it comes less than one sampling
      period (1000 / rate milliseconds, in integer division) after the last
      frame handed out. */
  predicate HeldBack(rate: Uint32, ts: int, last: int) {
    rate > 0 && ts > 0 && ts - last < 1000 / rate
  }

  /** The starting value of last_timestamp_ms as written: 0 - 1 / rate is
      computed in unsigned int, so for rate 1 it wraps to 4294967295 before it
      is stored in the signed timestamp. */
  function WrappedInitialLast(rate: Uint32): (last: int)
    requires rate != 0
    ensures rate == 1 ==> last == UintRange - 1
    ensures rate > 1 ==> last == 0
  {
    var q := 1 / rate;
    assert q == if rate == 1 then 1 else 0;
    (UintRange - q) % UintRange
  }

  /** As written, for rate 1 a first frame one full second into the video is
      held back, and so is every later one short of about 50 days. */
  lemma WrappedInitialLastHoldsBack()
    ensures HeldBack(1, 1000, WrappedInitialLast(1))
    ensures HeldBack(1, 1000 * 3600 * 24, WrappedInitialLast(1))
  {
  }

  /** The starting value of last_timestamp_ms the comment asks for: the
      subtraction done in signed arithmetic, at most zero. */
  function InitialLast(rate: Uint32): (last: int)
    requires rate != 0
    ensures rate == 1 ==> last == -1
    ensures rate > 1 ==> last == 0
  {
    0 - 1 / rate
  }

  /** With the signed start, the first frame is never held back once it is
      one sampling period into the video. */
  lemma InitialLastLetsFirstPeriodThrough(rate: Uint32, ts: int)
    requires rate != 0
    requires ts >= 1000 / rate
    ensures !HeldBack(rate, ts, InitialLast(rate))
  {
  }

  /** What one GetFrameData call leaves: the grabs made so far, whether it
      reports a frame, and the position it reports. */
  datatype FrameRead = FrameRead(next: nat, ok: bool, ts: int)

  /** GetFrameData from grab number start with the decoder at position
      pos: Tries grabs; the last one's position is reported, and its frame
      counts when it decoded and, after a retry, did not go backwards. */
  function FrameData(video: seq<Grab>, start: nat, pos: int): (r: FrameRead)
    ensures r.next == start + Tries(video, start)
    ensures r.ts == AttemptAt(video, r.next - 1).posMs
    ensures r.ok ==> Decoded(AttemptAt(video, r.next - 1))
  {
    var n := Tries(video, start);
    var g := AttemptAt(video, start + n - 1);
    FrameRead(start + n, Decoded(g) && (n == 1 || g.posMs >= pos), g.posMs)
  }

  /** The do/while of GetFrame from grab number start: read, and read again
      while the frame read is held back. */
  function Sample(video: seq<Grab>, start: nat, pos: int, rate: Uint32, last: int): (r: FrameRead)
    ensures r.next > start
    ensures !HeldBack(rate, r.ts, last)
    ensures r.ts == AttemptAt(video, r.next - 1).posMs
    ensures r.ok ==> Decoded(AttemptAt(video, r.next - 1))
    decreases |video| + 1 - start
  {
    var first := FrameData(video, start, pos);
    if HeldBack(rate, first.ts, last) then
      assert first.next <= |video|;
      Sample(video, first.next, first.ts, rate, last)
    else first
  }

  /** Without sampling GetFrame reads exactly once. */
  lemma SampleOff(video: seq<Grab>, start: nat, pos: int, last: int)
    ensures Sample(video, start, pos, 0, last) == FrameData(video, start, pos)
  {
  }

  /** Past the end of the video GetFrame returns at once: three failed
      grabs, no frame, position 0. */
  lemma SamplePastEnd(video: seq<Grab>, start: nat, pos: int, rate: Uint32, last: int)
    requires start >= |video|
    ensures Sample(video, start, pos, rate, last) == FrameRead(start + 1 + MaxAttempts, false, 0)
  {
    assert !Decoded(AttemptAt(video, start)) && !Decoded(AttemptAt(video, start + 1));
  }

  /** A frame that is held back is never handed out: GetFrame goes on to the
      next read, and what it returns is what the do/while returns from there. */
  lemma {:induction false} SampleSkips(video: seq<Grab>, start: nat, pos: int, rate: Uint32, last: int)
    requires HeldBack(rate, FrameData(video, start, pos).ts, last)
    ensures var first := FrameData(video, start, pos);
      Sample(video, start, pos, rate, last).next > first.next
  {
    var first := FrameData(video, start, pos);
    assert Sample(video, start, pos, rate, last) == Sample(video, first.next, first.ts, rate, last);
  }

  class VideoReader {
    /** The grabs the decoder will deliver, in order. */
    const video: seq<Grab>
    const samplingFrameRate: Uint32
    /** Grabs made so far. */
    var next: nat
    /** The decoder's current position, CV_CAP_PROP_POS_MSEC. */
    var pos: int
    var lastTimestampMs: int

    /** The part of the constructor after the rate check. */
    constructor (video: seq<Grab>, samplingFrameRate: Uint32)
      requires samplingFrameRate != 0
      ensures this.video == video && this.samplingFrameRate == samplingFrameRate
      ensures next == 0 && pos == 0
      ensures lastTimestampMs == InitialLast(samplingFrameRate)
    {
      this.video := video;
      this.samplingFrameRate := samplingFrameRate;
      next := 0;
      pos := 0;
      lastTimestampMs := InitialLast(samplingFrameRate);
    }

    /** One grab and retrieve, then the position read back. */
    method GrabRetrieve() returns (found: bool, retrieved: bool, ts: int)
      modifies this
      ensures next == old(next) + 1
      ensures found == AttemptAt(video, old(next)).found
      ensures retrieved == AttemptAt(video, old(next)).retrieved
      ensures ts == pos == AttemptAt(video, old(next)).posMs
      ensures lastTimestampMs == old(lastTimestampMs)
    {
      var g := AttemptAt(video, next);
      found, retrieved := g.found, g.retrieved;
      next := next + 1;
      pos := g.posMs;
      ts := pos;
    }

    /** GetFrameData: grabs once and retries at most MaxAttempts times while
        the decode fails; a frame decoded only after a retry is refused when
        its position is below the one read before the first grab. */
    method GetFrameData() returns (ok: bool, ts: int)
      modifies this
      ensures next == old(next) + Tries(video, old(next))
      ensures ts == pos == AttemptAt(video, next - 1).posMs
      ensures ok <==> Decoded(AttemptAt(video, next - 1))
                      && (Tries(video, old(next)) == 1 || ts >= old(pos))
      ensures lastTimestampMs == old(lastTimestampMs)
      ensures FrameRead(next, ok, ts) == FrameData(video, old(next), old(pos))
    {
      var prev := pos;
      var found, retrieved;
      found, retrieved, ts := GrabRetrieve();
      var attempts := 0;
      while !(found && retrieved) && attempts < MaxAttempts
        invariant 0 <= attempts <= MaxAttempts
        invariant next == old(next) + attempts + 1
        invariant forall j :: old(next) <= j < old(next) + attempts ==> !Decoded(AttemptAt(video, j))
        invariant found == AttemptAt(video, next - 1).found
        invariant retrieved == AttemptAt(video, next - 1).retrieved
        invariant ts == pos == AttemptAt(video, next - 1).posMs
        invariant lastTimestampMs == old(lastTimestampMs)
      {
        attempts := attempts + 1;
        found, retrieved, ts := GrabRetrieve();
      }
      if !(found && retrieved) {
        // n_attempts++ < MAX_ATTEMPTS increments even when the comparison fails
        attempts := attempts + 1;
      }
      if found && retrieved && attempts > 0 {
        if ts < prev {
          found := false;
        }
      }
      ok := found && retrieved;
    }

    /** GetFrame: reads frames until one is not held back by the sampling
        rate, then records its position as the last one handed out. */
    method GetFrame() returns (ok: bool, ts: int)
      modifies this
      ensures FrameRead(next, ok, ts) == Sample(video, old(next), old(pos), samplingFrameRate, old(lastTimestampMs))
      ensures lastTimestampMs == ts == pos
    {
      ghost var start, startPos := next, pos;
      ok, ts := GetFrameData();
      while HeldBack(samplingFrameRate, ts, lastTimestampMs)
        invariant pos == ts && lastTimestampMs == old(lastTimestampMs)
        invariant ts == AttemptAt(video, next - 1).posMs && next >= 1
        invariant ok ==> Decoded(AttemptAt(video, next - 1))
        invariant Sample(video, start, startPos, samplingFrameRate, lastTimestampMs)
               == if HeldBack(samplingFrameRate, ts, lastTimestampMs)
                  then Sample(video, next, ts, samplingFrameRate, lastTimestampMs)
                  else FrameRead(next, ok, ts)
        decreases |video| + 1 - next
      {
        assert next <= |video|;
        ok, ts := GetFrameData();
      }
      lastTimestampMs := ts;
    }
  }

  /** The VideoReader constructor: a sampling rate of 0 and a file the
      decoder cannot open are refused; the unsigned rate compares equal to
      -1 only at its maximum, which is accepted like any positive rate. */
  method OpenVideo(video: seq<Grab>, isOpened: bool, samplingFrameRate: Uint32)
    returns (reader: Option<VideoReader>)
    ensures reader.None? <==> samplingFrameRate == 0 || !isOpened
    ensures reader.Some? ==>
              && fresh(reader.value) && reader.value.video == video && reader.value.next == 0
              && reader.value.lastTimestampMs == InitialLast(samplingFrameRate)
  {
    if !(samplingFrameRate == UintRange - 1 || samplingFrameRate > 0) {
      return None;
    }
    if !isOpened {
      return None;
    }
    var r := new VideoReader(video, samplingFrameRate);
    reader := Some(r);
  }

  /** The file extensions main accepts; any other one exits with status 1.
      The comparison is exact, so upper-case extensions are refused. */
  const SupportedVideoExts: set<string> := {".avi", ".mov", ".flv", ".webm", ".wmv", ".mp4"}

  function ExtensionExit(ext: string): (status: Option<int>)
    ensures status.None? <==> ext in SupportedVideoExts
    ensures status.Some? ==> status.value == 1
  {
    if ext in SupportedVideoExts then None else Some(1)
  }

  lemma ExtensionsExact()
    ensures ExtensionExit(".mp4").None? && ExtensionExit(".avi").None?
    ensures ExtensionExit(".MP4") == Some(1) && ExtensionExit(".mkv") == Some(1) && ExtensionExit("") == Some(1)
  {
    assert ".MP4" != ".mp4" && ".MP4" != ".mov";
    assert ".mkv" != ".mov" && ".mkv" != ".mp4";
  }

  /** main's rate settings: a processing rate of 0 takes the sampling rate;
      a processing rate below the sampling rate is warned about; a
      processing rate equal to the sampling rate is raised by one (an
      unsigned increment); and main waits for each result when the sampling
      rate is at most the processing rate. */
  method ReconcileRates(sampling: Uint32, processingArg: Uint32)
    returns (processing: Uint32, warn: bool, waitEach: bool)
    ensures warn <==> sampling > (if processingArg == 0 then sampling else processingArg)
    ensures processingArg == 0 || processingArg == sampling ==> processing == (sampling + 1) % UintRange
    ensures processingArg != 0 && processingArg != sampling ==> processing == processingArg
    ensures waitEach <==> sampling <= processing
  {
    processing := processingArg;
    if processing == 0 {
      processing := sampling;
    }
    warn := sampling > processing;
    if sampling == processing {
      processing := (processing + 1) % UintRange;
    }
    waitEach := sampling <= processing;
  }

  /** Below the largest unsigned value, main waits for each result exactly
      when no processing rate below the sampling rate was asked for, and
      the processing rate it settles on is then above the sampling rate. */
  lemma {:induction false} WaitsUnlessSlower(sampling: Uint32, processingArg: Uint32, processing: Uint32)
    requires sampling < UintRange - 1
    requires processingArg == 0 || processingArg == sampling ==> processing == (sampling + 1) % UintRange
    requires processingArg != 0 && processingArg != sampling ==> processing == processingArg
    ensures sampling <= processing <==> processingArg == 0 || sampling <= processingArg
    ensures sampling <= processing ==> sampling < processing
  {
  }
}
