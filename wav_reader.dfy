/** readWav of the speech file sample (speech/wav/WAVReader.cpp): opens a
    sound file, refuses anything but mono 16-bit PCM WAV at the detector's
    sample rate by ending the process, and reads the whole file into one
    contiguous buffer of samples. */
module WavReading {
  import opened Wrappers

  /** SF_FORMAT_WAV | SF_FORMAT_PCM_16 in libsndfile's numbering. */
  const WavPcm16: int := 0x010000 + 0x0002

  /** What libsndfile reports about an opened file, and its frames. */
  datatype SoundFile = SoundFile(sampleRate: int, format: int, channels: int, frames: seq<Short>)

  /** How readWav ends: it returns true or false, or it ends the process
      with exit(-1). */
  datatype ReadOutcome = Returned(ok: bool) | Exited(status: int)

  /** The outcome for a file, None where sf_open fails: the sample rate is
      checked first, then the format, then the channel count. */
  function ReadWavOutcome(file: Option<SoundFile>, sampleRateDefault: int): (r: ReadOutcome)
    ensures r == Returned(true) <==>
              file.Some? && file.value.sampleRate == sampleRateDefault
              && file.value.format == WavPcm16 && file.value.channels == 1
    ensures r == Returned(false) <==> file.None?
    ensures r.Exited? ==> r.status == -1
    ensures file.Some? && file.value.sampleRate != sampleRateDefault ==> r == Exited(-1)
  {
    match file
    case None => Returned(false)
    case Some(f) =>
      if f.sampleRate != sampleRateDefault then Exited(-1)
      else if f.format != WavPcm16 then Exited(-1)
      else if f.channels != 1 then Exited(-1)
      else Returned(true)
  }

  class WavReader {
    var soundData: array<Short>
    var sampleRate: int
    var numSamples: int
    /** The byte count handed to sf_read_raw. */
    var bytesRequested: int

    /** A value-initialised reader (`WAVReader()`): every field is zero
        until readWav assigns it. */
    constructor ()
      ensures soundData.Length == 0 && sampleRate == 0 && numSamples == 0 && bytesRequested == 0
    {
      soundData := new Short[0];
      sampleRate, numSamples, bytesRequested := 0, 0, 0;
    }

    /** readWav: on success the buffer holds every frame of the file, in
        order, and twice as many bytes as samples were asked for; a file
        that does not open leaves every field as it was. */
    method ReadWav(file: Option<SoundFile>, sampleRateDefault: int) returns (outcome: ReadOutcome)
      modifies this
      ensures outcome == ReadWavOutcome(file, sampleRateDefault)
      ensures file.None? ==> unchanged(this)
      ensures file.Some? ==> sampleRate == file.value.sampleRate
      ensures outcome == Returned(true) ==>
                && fresh(soundData) && soundData[..] == file.value.frames
                && numSamples == soundData.Length == |file.value.frames|
                && bytesRequested == 2 * numSamples
    {
      if file.Some? {
        var f := file.value;
        sampleRate := f.sampleRate;
        if sampleRate != sampleRateDefault {
          return Exited(-1);
        }
        if f.format != WavPcm16 {
          return Exited(-1);
        }
        if f.channels != 1 {
          return Exited(-1);
        }
        var sampleWidth := 2;
        var n := |f.frames|;
        numSamples := n;
        bytesRequested := numSamples * sampleWidth;
        soundData := new Short[n](i requires 0 <= i < n => f.frames[i]);
        outcome := Returned(true);
      } else {
        outcome := Returned(false);
      }
    }
  }
}
