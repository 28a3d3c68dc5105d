// Saving: the two buffers are written to one output under the audio mutex, both starting at the
// first key frame of the live video packets.

module Recorder {
  import opened CLib
  import opened Samples
  import opened FrameCutting
  import opened AudioRing
  import opened DrainPlan
  import opened Codec
  import opened PacketWindow
  import opened AudioBuffer
  import opened PacketBuffer

  class RSRecorder {
    const audio: RSAudioBuffer
    const video: RSBuffer
    // whether the output file can be opened, set up and closed
    const reliable: bool
    var audioLocked: bool

    constructor (audio: RSAudioBuffer, video: RSBuffer, reliable: bool)
      ensures this.audio == audio && this.video == video && this.reliable == reliable && !audioLocked
    {
      this.reliable := reliable;
      this.audio := audio;
      this.video := video;
      audioLocked := false;
    }

    ghost predicate Ready()
      reads audio, audio.data, audio.encoder, video, video.live
    {
      && audio.Valid()
      && video.Readable()
    }

    /** The first key frame among the live packets, if any. */
    ghost predicate HasStart()
      reads video
    {
      FirstKey(video.packets) < |video.packets|
    }

    ghost function StartTime(): Int64
      requires HasStart()
      reads video
    {
      video.packets[FirstKey(video.packets)].pts
    }

    /** The same in audio samples. */
    ghost function AudioStart(): int
      requires HasStart() && audio.Shaped()
      reads video
    {
      audio.AudioTime(StartTime())
    }

    /** The encoder got everything a save from the first key frame on sends, and the output all its
        packets as stream 1 followed by the video as stream 0. */
    ghost predicate Saved(used: Encoder?, output: Output, before: seq<Packet>)
      requires audio.Stored() && HasStart()
      reads audio, audio.data, video, used, output
    {
      && used != null
      && used.inputs == audio.PlannedInputs(AudioStart())
      && output.written == before + Tagged(used.produced, 1) + SavedVideo(video.packets, 0)
    }

    /** The outcome of a save: with no key frame it fails and writes nothing; with a start before
        time zero it writes nothing and returns that time cut to an int; otherwise success means
        that everything was saved. It is undefined only when the drain of the audio is. */
    ghost predicate SaveResult(ret: int, undefined: bool, used: Encoder?, output: Output, before: seq<Packet>)
      requires audio.Stored()
      reads audio, audio.data, video, used, output
    {
      if !HasStart() then !undefined && ret < 0 && output.written == before
      else if StartTime() < 0 then
        !undefined && used == null && output.written == before && (ret < 0 || ret == ToInt32(StartTime()))
      else if undefined then !audio.SafeFrom(AudioStart())
      else ret >= 0 ==> audio.SafeFrom(AudioStart()) && Saved(used, output, before)
    }

    /** Nothing that a save into `output` asks for is refused. */
    predicate Reliable(output: Output) {
      reliable && audio.reliable && video.reliable && output.reliable
    }

    /** When nothing is refused, a save with a start at or behind time zero and a safe drain saves
        everything, one whose drain is not safe is undefined, and without a key frame the error
        tells so. */
    ghost predicate Succeeds(ret: int, undefined: bool, used: Encoder?, output: Output, before: seq<Packet>)
      requires audio.Stored()
      reads audio, audio.data, video, used, output
    {
      && (!HasStart() ==> ret == ERROR_AGAIN && !undefined)
      && (HasStart() && StartTime() < 0 ==> ret == ToInt32(StartTime()) && !undefined)
      && (HasStart() && StartTime() >= 0 ==>
            (undefined <==> !audio.SafeFrom(AudioStart()))
            && (!undefined ==> ret == 0 && Saved(used, output, before)))
    }

    // Opening, setting up and closing the output file: succeeds or fails.
    method OutputCall() returns (ret: int)
      ensures ret <= 0 && (reliable ==> ret == 0)
    {
      var failure: int := *;
      ret := if !reliable && failure < 0 then failure else 0;
    }

    /** The two writes of mainOutput: audio from the video start time on, then the video. */
    method WriteStreams(output: Output, startTime: int) returns (ret: int, undefined: bool, ghost used: Encoder?)
      requires Ready() && HasStart() && startTime == StartTime()
      modifies audio`encoder, output
      modifies if audio.encoder == null then {} else {audio.encoder}
      ensures audio.Stored() && video.Readable() && ret <= 0
      ensures !undefined ==> audio.Valid()
      ensures undefined ==> !audio.SafeFrom(AudioStart())
      ensures Reliable(output) ==> ret == 0
      ensures ret == 0 && !undefined ==>
                audio.SafeFrom(AudioStart()) && Saved(used, output, old(output.written))
      ensures ret == 0 && !undefined ==>
                && used != null
                && output.written == old(output.written) + Tagged(used.produced, 1) + SavedVideo(video.packets, 0)
    {
      ret, undefined, used := audio.Write(output, 1, startTime);
      if undefined || ret < 0 {
        return;
      }
      ret := video.Write(output, 0);
    }

    /** What mainOutput does once the output is open: find the start, write both streams, close.
        A return value that is not negative means that everything was saved, except exactly when
        the start lies before time zero and is not negative as an int. */
    method SaveStreams(output: Output) returns (ret: int, undefined: bool, ghost used: Encoder?)
      requires Ready()
      modifies audio`encoder, output
      modifies if audio.encoder == null then {} else {audio.encoder}
      ensures audio.Stored() && (!undefined ==> audio.Valid())
      ensures SaveResult(ret, undefined, used, output, old(output.written))
      ensures HasStart() && StartTime() < 0 ==> ret == ToInt32(StartTime())
      ensures HasStart() && StartTime() < 0 && ToInt32(StartTime()) >= 0
              <==> !undefined && ret >= 0 && !(HasStart() && Saved(used, output, old(output.written)))
      ensures Reliable(output) ==> Succeeds(ret, undefined, used, output, old(output.written))
    {
      used, undefined := null, false;
      var startTime := video.GetStartTime();
      if startTime < 0 {
        ret := ToInt32(startTime);
        return;
      }
      ret, undefined, used := WriteStreams(output, startTime);
      if undefined || ret < 0 {
        return;
      }
      ret := OutputCall();
    }

    /** mainOutput without the locking. */
    method SaveBoth(output: Output) returns (ret: int, undefined: bool, ghost used: Encoder?)
      requires Ready()
      modifies audio`encoder, output
      modifies if audio.encoder == null then {} else {audio.encoder}
      ensures audio.Stored() && (!undefined ==> audio.Valid())
      ensures SaveResult(ret, undefined, used, output, old(output.written))
      ensures Reliable(output) ==> Succeeds(ret, undefined, used, output, old(output.written))
    {
      used, undefined := null, false;
      ret := OutputCall();
      if ret < 0 {
        return;
      }
      ret := audio.GetEncoder();
      if ret < 0 {
        return;
      }
      ret := OutputCall();
      if ret < 0 {
        return;
      }
      ret, undefined, used := SaveStreams(output);
    }

    /** mainOutput: a save under the audio mutex. */
    method MainOutput(output: Output) returns (ret: int, undefined: bool, ghost used: Encoder?)
      requires Ready() && !audioLocked
      modifies `audioLocked, audio`encoder, output
      modifies if audio.encoder == null then {} else {audio.encoder}
      ensures audio.Stored() && (!undefined ==> audio.Valid() && !audioLocked)
      ensures SaveResult(ret, undefined, used, output, old(output.written))
      ensures Reliable(output) ==> Succeeds(ret, undefined, used, output, old(output.written))
    {
      audioLocked := true;
      ret, undefined, used := SaveBoth(output);
      if undefined {
        return;
      }
      audioLocked := false;
    }

    /** mainOutputVideo: a save without audio. */
    method MainOutputVideo(output: Output) returns (ret: int)
      requires video.Readable()
      modifies output
      ensures ret == 0 ==> HasStart() && output.written == old(output.written) + SavedVideo(video.packets, 0)
      ensures ret <= 0 && old(output.written) <= output.written
      ensures Reliable(output) ==> ret == if HasStart() then 0 else ERROR_AGAIN
    {
      ret := OutputCall();
      if ret < 0 {
        return;
      }
      ret := OutputCall();
      if ret < 0 {
        return;
      }
      ret := video.Write(output, 0);
      if ret < 0 {
        return;
      }
      ret := OutputCall();
    }

    /** A first key frame some 71 minutes before time zero: the save writes nothing and reports 0. */
    method SaveFromBeforeZero(output: Output) returns (ret: int)
      requires Ready() && HasStart() && StartTime() == -4294967296
      modifies audio`encoder, output
      modifies if audio.encoder == null then {} else {audio.encoder}
      ensures ret == 0 && output.written == old(output.written)
    {
      var undefined;
      ghost var used;
      ret, undefined, used := SaveStreams(output);
      assert ToInt32(-4294967296) == 0;
    }

    /** A save sends the audio it owes exactly when its start index fits an int, or when cut to one
        it still lies behind the window. */
    lemma SavedIsOwed(used: Encoder)
      requires audio.Stored() && HasStart()
      ensures var s := audio.StartOf(AudioStart());
              audio.SafeFrom(AudioStart()) && used.inputs == audio.PlannedInputs(AudioStart()) ==>
                (used.inputs == audio.SaveInputs(AudioStart()) <==> FitsInt32(s) || ToInt32(s) >= audio.size)
    {
      audio.PlannedIsOwed(AudioStart());
    }

    /** Sample `p` of what the audio encoder is owed was captured `p` after the later of the video
        start and the beginning of the audio window, less the gaps between the frames behind it. */
    ghost predicate AudioOnTime()
      requires audio.Stored() && audio.Logged() && HasStart()
      reads audio, audio.data, video
    {
      SentOnTime(audio.frames, Sent(audio.SaveInputs(AudioStart())), audio.size, AudioStart())
    }

    /** The video packet written at `q` was at `q` after the video start. */
    ghost predicate VideoOnTime()
      requires HasStart()
      reads video
    {
      AllMoved(SavedVideo(video.packets, 0), video.packets, FirstKey(video.packets), 0, StartTime())
    }

    /** Audio and video zero of a save. The sample owed at pts `p` was captured `p` after the video
        start in samples (or after the window's beginning, when that is later), less the gaps
        between the frames captured behind it; the packet written at `q` was at `q` after the same
        start; and the start in samples is off by at most half a sample. */
    lemma SaveIsAligned()
      requires audio.Stored() && audio.Logged() && HasStart()
      ensures AudioOnTime() && VideoOnTime()
      ensures -TIME_BASE <= 2 * (AudioStart() * TIME_BASE - StartTime() * audio.params.sampleRate) <= TIME_BASE
    {
      RescaleNearest(StartTime(), audio.params.sampleRate, TIME_BASE);
      AudioIsOnTime();
      VideoIsOnTime();
    }

    lemma AudioIsOnTime()
      requires audio.Stored() && audio.Logged() && HasStart()
      ensures AudioOnTime()
    {
      audio.SaveInputsAre(AudioStart());
      NewestOnTime(audio.frames, Sent(audio.SaveInputs(AudioStart())), audio.size, AudioStart());
    }

    /** With contiguous frames there are no gaps, and the two zeros agree to half a sample period
        whenever the audio window reaches back to the video start. */
    lemma SaveIsAlignedExactly()
      requires audio.Stored() && audio.Logged() && HasStart() && Contiguous(audio.frames)
      ensures ExactlyOnTime(audio.frames, Sent(audio.SaveInputs(AudioStart())), audio.size, AudioStart())
    {
      AudioIsOnTime();
      NoGapsOnTime(audio.frames, Sent(audio.SaveInputs(AudioStart())), audio.size, AudioStart());
    }

    lemma VideoIsOnTime()
      requires HasStart()
      ensures VideoOnTime()
    {
      SavedVideoIsMoved(video.packets, 0);
    }
  }

  /** The sample sent at `p` is the one that many behind the first of the newest `|sent|`, and was
      captured `p` after the later of `start` and the beginning of the newest `size`, less the gaps
      behind its frame. */
  ghost predicate SampleOnTime(frames: seq<AudioFrame>, sent: seq<Sample>, size: nat, start: int, p: nat)
    requires p < |sent| <= |SamplesOf(frames)|
  {
    var t := |SamplesOf(frames)| - |sent| + p;
    && sent[p] == SamplesOf(frames)[t]
    && CaptureTimes(frames)[t] == Max(start, EndTime(frames) - size) + p - GapsAfter(frames, t)
  }

  /** The same without gaps. */
  ghost predicate SampleExactly(frames: seq<AudioFrame>, sent: seq<Sample>, size: nat, start: int, p: nat)
    requires p < |sent| <= |SamplesOf(frames)|
  {
    var t := |SamplesOf(frames)| - |sent| + p;
    && sent[p] == SamplesOf(frames)[t]
    && CaptureTimes(frames)[t] == Max(start, EndTime(frames) - size) + p
  }

  /** As many samples as of the newest `size` lie behind `start` when counted back from the end,
      each at its time. */
  ghost predicate SentOnTime(frames: seq<AudioFrame>, sent: seq<Sample>, size: nat, start: int) {
    && |sent| == Min(size, Max(EndTime(frames) - start, 0)) <= |SamplesOf(frames)|
    && forall p :: 0 <= p < |sent| ==> SampleOnTime(frames, sent, size, start, p)
  }

  ghost predicate ExactlyOnTime(frames: seq<AudioFrame>, sent: seq<Sample>, size: nat, start: int) {
    && |sent| == Min(size, Max(EndTime(frames) - start, 0)) <= |SamplesOf(frames)|
    && forall p :: 0 <= p < |sent| ==> SampleExactly(frames, sent, size, start, p)
  }

  lemma NoGapsOnTime(frames: seq<AudioFrame>, sent: seq<Sample>, size: nat, start: int)
    requires SentOnTime(frames, sent, size, start) && Contiguous(frames)
    ensures ExactlyOnTime(frames, sent, size, start)
  {
    forall p | 0 <= p < |sent|
      ensures SampleExactly(frames, sent, size, start, p)
    {
      assert SampleOnTime(frames, sent, size, start, p);
      NoDrift(frames, |SamplesOf(frames)| - |sent| + p);
    }
  }

  lemma NewestSampleOnTime(frames: seq<AudioFrame>, sent: seq<Sample>, size: nat, start: int, p: nat)
    requires p < |sent| <= size <= |SamplesOf(frames)| && |sent| == Min(size, EndTime(frames) - start)
    requires sent == Last(SamplesOf(frames), |sent|)
    ensures SampleOnTime(frames, sent, size, start, p)
  {
    var h, times := SamplesOf(frames), CaptureTimes(frames);
    var t := |h| - |sent| + p;
    CapturedAt(frames, t);
    assert times[t] == EndTime(frames) - |sent| + p - GapsAfter(frames, t);
  }

  lemma NewestOnTime(frames: seq<AudioFrame>, sent: seq<Sample>, size: nat, start: int)
    requires size <= |SamplesOf(frames)|
    requires sent == Last(SamplesOf(frames), Min(size, Max(EndTime(frames) - start, 0)))
    ensures SentOnTime(frames, sent, size, start)
  {
    forall p | 0 <= p < |sent|
      ensures SampleOnTime(frames, sent, size, start, p)
    {
      NewestSampleOnTime(frames, sent, size, start, p);
    }
  }
}
