/** The microphone recorder of the speech sample (speech/mic/MicRecorder.h,
    speech/mic/MicRecorder.cpp): the audio callback copies each buffer into a
    chunk stamped with the recording timestamp and queues it, every push
    advances the timestamp by one segment, and the consumer hands the
    chunks to the registered callback in the order they were queued. */
module MicRecording {
  import opened Wrappers

  /** Recording is mono. */
  const NumChannels := 1

  /** A chunk of audio and the recording time it starts at. */
  datatype AudioChunk = AudioChunk(samples: seq<Short>, timestampMs: int)

  /** The AudioChunk constructor: copies the first sampleCount samples of
      the buffer, in order, so that later writes to the buffer leave the
      chunk as it is. */
  method NewAudioChunk(buffer: array<Short>, sampleCount: nat, timestampMs: int) returns (chunk: AudioChunk)
    requires sampleCount <= buffer.Length
    ensures |chunk.samples| == sampleCount
    ensures forall i :: 0 <= i < sampleCount ==> chunk.samples[i] == buffer[i]
    ensures chunk.timestampMs == timestampMs
  {
    chunk := AudioChunk(buffer[..sampleCount], timestampMs);
  }

  lemma NextStamp(n: nat, segmentMs: int)
    ensures (n + 1) * segmentMs == n * segmentMs + segmentMs
  {
  }

  class MicRecorder {
    /** SEGMENT_SIZE_MS_DEFAULT, the detector's segment length. */
    const segmentMs: int
    var isRunning: bool
    /** Whether a PortAudio stream is held; the constructor leaves it null. */
    var hasStream: bool
    var audioQueue: seq<AudioChunk>
    var recordingTimestampMs: int
    /** The chunks handed to the callback so far. */
    var delivered: seq<AudioChunk>

    /** Every chunk was stamped by recordCallback: the n-th chunk queued
        (from 0) carries n segment lengths, and the recording timestamp is
        one segment past the last of them. */
    predicate Stamped()
      reads this
    {
      && recordingTimestampMs == (|delivered| + |audioQueue|) * segmentMs
      && (forall i :: 0 <= i < |delivered| ==> delivered[i].timestampMs == i * segmentMs)
      && (forall j :: 0 <= j < |audioQueue| ==> audioQueue[j].timestampMs == (|delivered| + j) * segmentMs)
    }

    constructor (segmentMs: int)
      ensures this.segmentMs == segmentMs
      ensures recordingTimestampMs == 0 && !isRunning && !hasStream
      ensures audioQueue == [] && delivered == []
      ensures Stamped()
    {
      this.segmentMs := segmentMs;
      isRunning := false;
      hasStream := false;
      audioQueue := [];
      recordingTimestampMs := 0;
      delivered := [];
    }

    method GetTimestamp() returns (ts: int)
      ensures ts == recordingTimestampMs
    {
      ts := recordingTimestampMs;
    }

    /** push: queues the chunk at the back and advances the recording
        timestamp by one segment. */
    method Push(chunk: AudioChunk)
      modifies this
      ensures audioQueue == old(audioQueue) + [chunk]
      ensures recordingTimestampMs == old(recordingTimestampMs) + segmentMs
      ensures delivered == old(delivered) && isRunning == old(isRunning) && hasStream == old(hasStream)
    {
      audioQueue := audioQueue + [chunk];
      recordingTimestampMs := recordingTimestampMs + segmentMs;
    }

    /** recordCallback: copies framesPerBuffer samples into a chunk stamped
        with the current recording timestamp, queues it and returns 0. */
    method RecordCallback(input: array<Short>, framesPerBuffer: nat) returns (status: int)
      requires framesPerBuffer <= input.Length
      requires Stamped()
      modifies this
      ensures status == 0
      ensures audioQueue == old(audioQueue) + [AudioChunk(input[..framesPerBuffer], old(recordingTimestampMs))]
      ensures recordingTimestampMs == old(recordingTimestampMs) + segmentMs
      ensures delivered == old(delivered)
      ensures isRunning == old(isRunning) && hasStream == old(hasStream)
      ensures Stamped()
    {
      var ts := GetTimestamp();
      var chunk := NewAudioChunk(input, framesPerBuffer, ts);
      assert chunk.samples == input[..framesPerBuffer];
      Push(chunk);
      NextStamp(|delivered| + |old(audioQueue)|, segmentMs);
      status := 0;
    }

    /** One pass of the consumer thread's loop: the front chunk, if any, is
        handed to the callback and then taken off the queue. */
    method ConsumerStep()
      modifies this
      ensures old(audioQueue) == [] ==> audioQueue == [] && delivered == old(delivered)
      ensures old(audioQueue) != [] ==>
                delivered == old(delivered) + [old(audioQueue[0])] && audioQueue == old(audioQueue[1..])
      ensures delivered + audioQueue == old(delivered) + old(audioQueue)
      ensures recordingTimestampMs == old(recordingTimestampMs)
      ensures isRunning == old(isRunning) && hasStream == old(hasStream)
      ensures old(Stamped()) ==> Stamped()
    {
      if audioQueue != [] {
        var nextChunk := audioQueue[0];
        delivered := delivered + [nextChunk];
        audioQueue := audioQueue[1..];
        assert old(delivered) + old(audioQueue) == old(delivered) + [nextChunk] + audioQueue;
      }
    }
  }
}
