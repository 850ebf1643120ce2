/** processFile of the speech file sample (speech/wav/main.cpp): reads a
    WAV file, starts the speech detector, hands it the samples one segment
    at a time with timestamps one segment length apart, drops the tail that
    does not fill a segment, stops the detector and logs each result it
    returns when no listener is registered. */
module WavSegmenting {
  import opened Wrappers
  import opened WavReading

  /** What processFile asks of the detector and the logger, in order:
      Audio is one processAudio call with its timestamp, the offset of the
      segment in the buffer and the samples handed over; LogResult is
      logResult on the value the preceding call returned. */
  datatype Event = Start | Audio(timestampMs: int, offset: int, samples: seq<Short>) | LogResult | Stop

  /** samples_per_segment: the samples per millisecond, in integer
      division, times the segment length in milliseconds. */
  function SamplesPerSegment(sampleRate: int, segmentMs: int): (s: int)
    requires sampleRate >= 1000 && segmentMs > 0
    ensures s > 0
    ensures s * 1000 <= sampleRate * segmentMs
  {
    sampleRate / 1000 * segmentMs
  }

  /** The events of segment k: its audio, then the log of the result
      unless a listener receives the results. */
  function SegmentEvents(data: seq<Short>, s: nat, segmentMs: int, k: nat, listener: bool): seq<Event>
    requires k * s + s <= |data|
  {
    [Audio(k * segmentMs, k * s, data[k * s .. k * s + s])] + (if listener then [] else [LogResult])
  }

  lemma {:induction false} MulMono(a: nat, b: nat, c: nat)
    requires a <= b
    ensures a * c <= b * c
  {
    if a < b {
      MulMono(a, b - 1, c);
      assert (b - 1) * c + c == b * c;
    }
  }

  /** The events of the first n segments. */
  function SegmentTrace(data: seq<Short>, s: nat, segmentMs: int, n: nat, listener: bool): seq<Event>
    requires n * s <= |data|
  {
    if n == 0 then []
    else
      MulMono(n - 1, n, s);
      SegmentTrace(data, s, segmentMs, n - 1, listener) + SegmentEvents(data, s, segmentMs, n - 1, listener)
  }

  /** The number of events per segment. */
  function Width(listener: bool): nat {
    if listener then 1 else 2
  }

  /** Each segment adds Width events. */
  lemma {:induction false} SegmentTraceLength(data: seq<Short>, s: nat, segmentMs: int, n: nat, listener: bool)
    requires n * s <= |data|
    ensures |SegmentTrace(data, s, segmentMs, n, listener)| == n * Width(listener)
    ensures Start !in SegmentTrace(data, s, segmentMs, n, listener)
    ensures Stop !in SegmentTrace(data, s, segmentMs, n, listener)
  {
    if n > 0 {
      MulMono(n - 1, n, s);
      SegmentTraceLength(data, s, segmentMs, n - 1, listener);
      NextSegment(n - 1, Width(listener), 0);
    }
  }

  /** Segment k starts k segment lengths into the buffer, covers exactly s
      samples of it, carries the timestamp k * segmentMs and is followed by
      its log when there is no listener: segments are contiguous and do not
      overlap. */
  lemma {:induction false} SegmentAt(data: seq<Short>, s: nat, segmentMs: int, n: nat, listener: bool, k: nat)
    requires n * s <= |data|
    requires k < n
    ensures k * s + s <= |data|
    ensures k * Width(listener) < |SegmentTrace(data, s, segmentMs, n, listener)|
    ensures SegmentTrace(data, s, segmentMs, n, listener)[k * Width(listener)]
            == Audio(k * segmentMs, k * s, data[k * s .. k * s + s])
    ensures !listener ==> SegmentTrace(data, s, segmentMs, n, listener)[2 * k + 1] == LogResult
  {
    MulMono(n - 1, n, s);
    var w := Width(listener);
    var prev := SegmentTrace(data, s, segmentMs, n - 1, listener);
    SegmentTraceLength(data, s, segmentMs, n - 1, listener);
    NextSegment(n - 1, w, 0);
    if k < n - 1 {
      SegmentAt(data, s, segmentMs, n - 1, listener, k);
    }
  }

  /** Segment k + 1 starts one segment length after segment k. */
  lemma NextSegment(k: nat, s: nat, segmentMs: int)
    ensures (k + 1) * s == k * s + s
    ensures (k + 1) * segmentMs == k * segmentMs + segmentMs
  {
  }

  /** Segments stop short of the buffer's end by less than one segment. */
  lemma SegmentsCover(num: nat, s: nat)
    requires s > 0
    ensures (num / s) * s <= num < (num / s) * s + s
  {
  }

  /** The quotient is the number of whole segments that fit. */
  lemma Quotient(num: nat, s: nat, k: nat)
    requires s > 0
    requires k * s <= num < k * s + s
    ensures num / s == k
  {
    SegmentsCover(num, s);
    MulCompare(num / s, k, s);
    MulCompare(k, num / s, s);
  }

  lemma MulCompare(a: nat, b: nat, s: nat)
    ensures a < b ==> a * s + s <= b * s
  {
    if a < b {
      MulMono(a + 1, b, s);
      NextSegment(a, s, 0);
    }
  }

  /** The events of processFile: nothing when the file is not read (the
      process has ended when readWav exits); else start, the segments that
      fit the buffer, stop, and the log of stop's result without a listener. */
  function ProcessTrace(file: Option<SoundFile>, sampleRateDefault: int, segmentMs: int, listener: bool): (t: seq<Event>)
    requires sampleRateDefault >= 1000 && segmentMs > 0
    ensures ReadWavOutcome(file, sampleRateDefault) != Returned(true) ==> t == []
  {
    if ReadWavOutcome(file, sampleRateDefault) == Returned(true) then
      var data := file.value.frames;
      var s := SamplesPerSegment(sampleRateDefault, segmentMs);
      SegmentsCover(|data|, s);
      [Start] + SegmentTrace(data, s, segmentMs, |data| / s, listener) + [Stop]
      + (if listener then [] else [LogResult])
    else []
  }

  /** Without a listener, logResult runs once per segment and once for
      stop; stop comes once, after every segment. */
  lemma ProcessTraceCounts(file: Option<SoundFile>, sampleRateDefault: int, segmentMs: int)
    requires sampleRateDefault >= 1000 && segmentMs > 0
    requires ReadWavOutcome(file, sampleRateDefault) == Returned(true)
    ensures var t := ProcessTrace(file, sampleRateDefault, segmentMs, false);
            var n := |file.value.frames| / SamplesPerSegment(sampleRateDefault, segmentMs);
            |t| == 2 * n + 3 && t[0] == Start && t[2 * n + 1] == Stop && t[2 * n + 2] == LogResult
            && Stop !in t[..2 * n + 1]
  {
    var data := file.value.frames;
    var s := SamplesPerSegment(sampleRateDefault, segmentMs);
    var n := |data| / s;
    SegmentsCover(|data|, s);
    SegmentTraceLength(data, s, segmentMs, n, false);
    var seg := SegmentTrace(data, s, segmentMs, n, false);
    var t := ProcessTrace(file, sampleRateDefault, segmentMs, false);
    assert t == [Start] + seg + [Stop] + [LogResult];
    assert t[..2 * n + 1] == [Start] + seg;
  }

  /** The loop guard as written: offset <= num_samples - samples_per_segment,
      the difference taken in 64-bit signed arithmetic and then compared as an
      unsigned long, so a negative difference wraps to a huge bound. */
  function GuardAsWritten(offset: nat, num: nat, s: nat): bool {
    offset <= (num - s) % 0x1_0000_0000_0000_0000
  }

  /** A file shorter than one segment passes the guard at offset 0, and the
      first segment reads past the end of the buffer. */
  lemma GuardAsWrittenOverruns(num: nat, s: nat)
    requires num < s < 0x8000_0000
    ensures GuardAsWritten(0, num, s) && 0 + s > num
  {
  }

  /** The guard the loop needs: the whole segment fits the buffer. Where the
      file holds at least one segment it agrees with the guard as written. */
  lemma GuardAgrees(offset: nat, num: nat, s: nat)
    requires s <= num < 0x8000_0000_0000_0000
    ensures GuardAsWritten(offset, num, s) <==> offset + s <= num
  {
  }

  /** The loop of processFile over the buffer, guarded so that every
      segment lies in the buffer: the events of every whole segment. */
  method FeedSegments(buffer: array<Short>, numSamples: int, s: nat, segmentMs: int, listener: bool)
    returns (events: seq<Event>)
    requires numSamples == buffer.Length && s > 0
    ensures events == SegmentTrace(buffer[..], s, segmentMs, buffer.Length / s, listener)
  {
    ghost var data := buffer[..];
    ghost var k := 0;
    events := [];
    var timestampMs := 0;
    var offset := 0;
    while offset + s <= numSamples
      invariant offset == k * s && timestampMs == k * segmentMs
      invariant offset <= numSamples
      invariant events == SegmentTrace(data, s, segmentMs, k, listener)
      decreases numSamples - offset
    {
      var segment := buffer[offset .. offset + s];
      events := events + [Audio(timestampMs, offset, segment)];
      if !listener {
        events := events + [LogResult];
      }
      NextSegment(k, s, segmentMs);
      timestampMs := timestampMs + segmentMs;
      offset := offset + s;
      k := k + 1;
    }
    Quotient(|data|, s, k);
  }

  class AudioHelper {
    /** Whether USE_LISTENER is defined: the logger then receives the
        results from the detector and processFile does not log them. */
    const useListener: bool
    /** What was asked of the detector and the logger so far. */
    var calls: seq<Event>

    constructor (useListener: bool)
      ensures this.useListener == useListener && calls == []
    {
      this.useListener := useListener;
      calls := [];
    }

    /** processFile, with the loop guarded so that every segment lies in the
        buffer; exit is the status the process ends with when readWav exits.
        sampleRateDefault and segmentMs are the detector's constants. */
    method ProcessFile(file: Option<SoundFile>, sampleRateDefault: int, segmentMs: int)
      returns (exit: Option<int>)
      requires sampleRateDefault >= 1000 && segmentMs > 0
      modifies this
      ensures calls == old(calls) + ProcessTrace(file, sampleRateDefault, segmentMs, useListener)
      ensures exit.Some? <==> ReadWavOutcome(file, sampleRateDefault).Exited?
    {
      var au := new WavReader();
      var outcome := au.ReadWav(file, sampleRateDefault);
      if outcome.Exited? {
        return Some(outcome.status);
      }
      exit := None;
      if outcome.ok {
        var s := SamplesPerSegment(au.sampleRate, segmentMs);
        var segments := FeedSegments(au.soundData, au.numSamples, s, segmentMs, useListener);
        var events := [Start] + segments + [Stop];
        if !useListener {
          events := events + [LogResult];
        }
        calls := calls + events;
      }
    }
  }
}
