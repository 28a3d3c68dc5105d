// The circular audio buffer: an in-place byte ring that keeps the newest `capacity` samples,
// and the loop that drains a window of it through an encoder into an output.

module AudioBuffer {
  import opened CLib
  import opened Samples
  import opened FrameCutting
  import opened AudioRing
  import opened DrainPlan
  import opened Codec

  class RSAudioBuffer {
    // whether everything it asks the libraries for is granted
    const reliable: bool
    const params: AudioParams
    const sampleSize: nat
    const capacity: nat
    // the frame size of the encoder this configuration selects
    const frameSize: nat
    const data: array<Byte>
    var index: nat
    var size: nat
    var endTime: int
    var encoder: Encoder?
    // every frame added so far, and all their samples
    ghost var frames: seq<AudioFrame>
    ghost var history: seq<Sample>

    ghost predicate Shaped()
    {
      && params.sampleRate > 0 && sampleSize > 0 && frameSize > 0
      && data.Length == capacity * sampleSize
    }

    /** The stored bytes as a ring of samples. */
    ghost function Abs(): Ring
      requires Shaped()
      reads `index, `size, `endTime, data
    {
      Ring(Chunk(data[..], capacity, sampleSize), index, size, endTime)
    }

    /** The ring stands for the history. */
    ghost predicate Stored()
      reads `index, `size, `endTime, `history, data
    {
      && Shaped()
      && Represents(Abs(), history)
    }

    /** The history is that of all frames added: what capture times rest on. */
    ghost predicate Logged()
      reads `endTime, `history, `frames
    {
      && history == SamplesOf(frames)
      && endTime == EndTime(frames)
    }

    /** The ring can be used; an encoder that exists has not been used yet. */
    ghost predicate Valid()
      reads this, data, encoder
    {
      && Stored()
      && (encoder != null ==>
            encoder.Unused() && encoder.frameSize == frameSize && encoder.width == sampleSize
            && encoder.reliable == reliable)
    }

    /** The ring can be read and is `r`. */
    ghost predicate Ready(r: Ring)
      reads `index, `size, `endTime, data
    {
      && Shaped()
      && WellFormed(r) && r == Abs()
    }

    constructor (params: AudioParams, bytesPerSample: nat, recordSeconds: nat, frameSize: nat, reliable: bool)
      requires params.channels > 0 && bytesPerSample > 0 && params.sampleRate > 0
      requires recordSeconds > 0 && frameSize > 0 && recordSeconds * params.sampleRate <= INT_MAX / 2
      requires recordSeconds * params.sampleRate * (params.channels * bytesPerSample) <= INT_MAX
      ensures Valid() && fresh(data)
      ensures Logged() && frames == [] && encoder == null
      ensures this.params == params && this.frameSize == frameSize && this.reliable == reliable
      ensures capacity == recordSeconds * params.sampleRate
      ensures sampleSize == params.channels * bytesPerSample
    {
      var width, count := params.channels * bytesPerSample, recordSeconds * params.sampleRate;
      MulLe(1, params.channels, bytesPerSample);
      MulLe(1, recordSeconds, params.sampleRate);
      this.reliable := reliable;
      this.params := params;
      this.frameSize := frameSize;
      sampleSize, capacity := width, count;
      data := new Byte[count * width];
      index, size, endTime := 0, 0, 0;
      encoder := null;
      frames, history := [], [];
    }

    /** The two copies of rsAudioBufferAddFrame. */
    method Store(frame: Frame, ghost f: AudioFrame)
      requires Shaped() && WellFormed(Abs())
      requires frame.Holds(sampleSize) && frame.data != data
      requires f == AudioFrame(frame.Contents(sampleSize), frame.pts) && Accepts(Abs(), f)
      modifies data
      ensures Abs() == CopyToStart(CopyToEnd(old(Abs()), f), f)
    {
      var prefix := Min(frame.nbSamples, capacity - index);
      Copy(data, index, frame.data, 0, prefix, sampleSize, capacity, frame.nbSamples);
      Copy(data, 0, frame.data, prefix, frame.nbSamples - prefix, sampleSize, capacity, frame.nbSamples);
    }

    /** rsAudioBufferAddFrame on the ring alone. */
    method AddToRing(frame: Frame, ghost f: AudioFrame)
      requires Stored() && frame.Holds(sampleSize) && frame.data != data
      requires f == AudioFrame(frame.Contents(sampleSize), frame.pts)
      requires frame.nbSamples <= 2 * capacity - index
      modifies this`index, this`size, this`endTime, this`history, data
      ensures Stored()
      ensures history == old(history) + f.samples && endTime == f.pts + |f.samples|
      ensures Abs() == Add(old(Abs()), f)
    {
      AddAppends(Abs(), f, history);
      Store(frame, f);
      index := (index + frame.nbSamples) % capacity;
      size := Min(size + frame.nbSamples, capacity);
      endTime := frame.pts + frame.nbSamples;
      history := history + f.samples;
    }

    /** rsAudioBufferAddFrame: appends the frame's samples, forgetting the oldest beyond capacity.
        A frame whose second copy would pass the end of the ring makes it undefined. */
    method AddFrame(frame: Frame) returns (ret: int, undefined: bool)
      requires Valid() && frame.Holds(sampleSize) && frame.data != data
      modifies this`index, this`size, this`endTime, this`frames, this`history, data, frame
      ensures ret == 0 && (!undefined ==> frame.nbSamples == 0 && frame.data.Length == 0)
      ensures undefined <==> !Accepts(old(Abs()), old(AudioFrame(frame.Contents(sampleSize), frame.pts)))
      ensures !undefined ==> Valid()
      ensures !undefined && old(Logged()) ==> Logged()
      ensures !undefined ==> frames == old(frames + [AudioFrame(frame.Contents(sampleSize), frame.pts)])
      ensures !undefined ==> Abs() == Add(old(Abs()), old(AudioFrame(frame.Contents(sampleSize), frame.pts)))
      ensures !undefined ==> history == old(history + frame.Contents(sampleSize))
    {
      ghost var f := AudioFrame(frame.Contents(sampleSize), frame.pts);
      if frame.nbSamples - Min(frame.nbSamples, capacity - index) > capacity {
        return 0, true;
      }
      SamplesOfAppend(frames, f);
      AddToRing(frame, f);
      frames := frames + [f];
      frame.Unref();
      ret, undefined := 0, false;
    }

    /** audioBufferGetEncoder: makes the encoder on first use. */
    method GetEncoder() returns (ret: int)
      requires Valid()
      modifies this`encoder
      ensures Valid() && ret <= 0
      ensures reliable || old(encoder) != null ==> ret == 0
      ensures ret == 0 <==> encoder != null
      ensures encoder == old(encoder) || fresh(encoder)
    {
      if encoder == null {
        var failure: int := *;
        if !reliable && failure < 0 {
          return failure;
        }
        encoder := new Encoder(frameSize, sampleSize, reliable);
      }
      ret := 0;
    }

    /** A video time in audio samples. */
    function AudioTime(videoTime: int): int
      requires params.sampleRate > 0
    {
      Rescale(videoTime, params.sampleRate, TIME_BASE)
    }

    /** Where in the window a save from audio time `start` on begins. */
    function StartOf(start: int): nat
      reads `endTime, `size
    {
      StartIndex(endTime, size, start)
    }

    /** Everything a save from audio time `start` on owes the encoder: the kept samples that are no
        older than `start`. */
    ghost function SaveInputs(start: int): seq<EncoderInput>
      requires Stored()
      reads `index, `size, `endTime, `history, data
    {
      Owed(history, size, endTime, start, frameSize, params)
    }

    /** Everything it sends, with its start index cut to an int. */
    ghost function PlannedInputs(start: int): seq<EncoderInput>
      requires Stored()
      reads `index, `size, `endTime, `history, data
    {
      Plan(Abs(), ToInt32(StartOf(start)), frameSize, 0, params)
    }

    /** It comes to its end without an undefined access. */
    ghost predicate SafeFrom(start: int)
      requires Stored()
      reads `index, `size, `endTime, `history, data
    {
      Runs(Abs(), ToInt32(StartOf(start)), frameSize)
    }

    /** The samples owed are the newest of the history: all that are kept and not older than `start`. */
    lemma SaveInputsAre(start: int)
      requires Stored()
      ensures Sent(SaveInputs(start)) == Last(history, Min(size, Max(endTime - start, 0)))
    {
      OwedSamples(history, size, endTime, start, frameSize, params);
    }

    /** A save is safe and sends exactly what it owes just when its start index fits an int, or
        when cut to one it still lies behind the window; and it is safe for every index that the
        cut does not make negative. */
    lemma PlannedIsOwed(start: int)
      requires Stored()
      ensures SafeFrom(start) && PlannedInputs(start) == SaveInputs(start)
              <==> FitsInt32(StartOf(start)) || ToInt32(StartOf(start)) >= size
      ensures ToInt32(StartOf(start)) >= 0 ==> SafeFrom(start)
      ensures SafeFrom(start) <==> MayStartAt(Abs(), ToInt32(StartOf(start)), frameSize)
    {
      PlanIsOwed(Abs(), history, start, frameSize, params);
      RunsExactly(Abs(), history, ToInt32(StartOf(start)), frameSize, params);
    }

    /** audioBufferSendFrame: sends the frame at position `index`, or the flush behind the window.
        What it does at an index where C does not define it ends there as `undefined`. */
    method SendFrame(index: int, pts: int, frame: Frame, enc: Encoder, ghost r: Ring)
      returns (ret: int, undefined: bool)
      requires Ready(r)
      requires enc.frameSize == frameSize && enc.width == sampleSize && !enc.flushed
      requires frame.data != data
      modifies enc, frame
      ensures enc.produced == old(enc.produced) && (frame.data == old(frame.data) || fresh(frame.data))
      ensures undefined || ret < 0 ==> enc.inputs == old(enc.inputs) && !enc.flushed
      ensures undefined ==> index < size && !Defined(r, index, frameSize)
      ensures !undefined && enc.reliable && frame.reliable ==> ret >= 0
      ensures !undefined && ret >= 0 && index >= size ==>
                ret == 0 && enc.flushed && enc.inputs == old(enc.inputs) + [Flush]
      ensures !undefined && ret >= 0 && index < size ==>
                && Defined(r, index, frameSize) && ret == FrameLength(r, index, frameSize)
                && !enc.flushed
                && enc.inputs == old(enc.inputs) + [Data(ReadFrame(r, index, ret), pts, params)]
    {
      undefined := false;
      if index >= size {
        ret := enc.SendFrame(null);
        return;
      }

      if size - index > INT_MAX {
        return 0, true;
      }
      var n := Min(enc.frameSize, size - index);
      frame.params := params;
      frame.nbSamples := n;
      frame.pts := pts;
      ret := frame.GetBuffer(sampleSize);
      if ret < 0 {
        return;
      }

      if size == 0 {
        return 0, true;
      }
      var bufIndex := Remainder(this.index + index, size);
      if bufIndex < 0 || n - Min(n, size - bufIndex) > capacity {
        return 0, true;
      }
      CopyWrapped(frame.data, data, bufIndex, frame.nbSamples, size, sampleSize, capacity);
      ret := enc.SendFrame(frame);
      if ret < 0 {
        return;
      }
      ret := n;
    }

    /** Answering a request for input moves one entry from what is left to what was sent. */
    method Feed(enc: Encoder, ghost r: Ring, index: int, pts: int, frame: Frame,
                ghost plan: (int, int) -> seq<EncoderInput>, ghost runs: int -> bool)
      returns (ret: int, undefined: bool)
      requires Ready(r) && Steps(r, plan, runs, frameSize, params)
      requires enc.frameSize == frameSize && enc.width == sampleSize && !enc.flushed
      requires frame.data != data
      modifies enc, frame
      ensures enc.produced == old(enc.produced) && (frame.data == old(frame.data) || fresh(frame.data))
      ensures undefined || ret < 0 ==> enc.inputs == old(enc.inputs)
      ensures undefined ==> !runs(index)
      ensures !undefined && enc.reliable && frame.reliable ==> ret >= 0
      ensures !undefined && ret >= 0 && enc.flushed ==> runs(index) && enc.inputs == old(enc.inputs) + plan(index, pts)
      ensures !undefined && ret >= 0 && !enc.flushed ==>
                && index < size && ret > 0 && runs(index) == runs(index + ret)
                && enc.inputs + plan(index + ret, pts + ret) == old(enc.inputs) + plan(index, pts)
    {
      assert StepsAt(r, plan, runs, index, frameSize, pts, params);
      ret, undefined := SendFrame(index, pts, frame, enc, r);
    }

    /** The loop of rsAudioBufferWrite: feeds the encoder on demand, passes on what it produces. */
    method Drain(enc: Encoder, output: Output, stream: int, start: int, ghost r: Ring,
                 ghost plan: (int, int) -> seq<EncoderInput>, ghost runs: int -> bool)
      returns (ret: int, undefined: bool)
      requires Ready(r) && Steps(r, plan, runs, frameSize, params)
      requires enc.frameSize == frameSize && enc.width == sampleSize && enc.Unused()
      modifies enc, output
      ensures enc.inputs <= plan(start, 0)
      ensures old(output.written) <= output.written <= old(output.written) + Tagged(enc.produced, stream)
      ensures undefined ==> !runs(start)
      ensures ret <= 0 && (reliable && enc.reliable && output.reliable ==> ret == 0)
      ensures ret == 0 && !undefined ==>
                && runs(start) && enc.inputs == plan(start, 0)
                && output.written == old(output.written) + Tagged(enc.produced, stream)
    {
      undefined := false;
      var frame := new Frame(reliable);
      var index := start;
      var pts := 0;
      while true
        invariant fresh(frame) && frame.reliable == reliable && frame.data != data
        invariant if enc.flushed then runs(start) && enc.inputs == plan(start, 0)
                  else runs(index) == runs(start) && enc.inputs + plan(index, pts) == plan(start, 0)
        invariant output.written == old(output.written) + Tagged(enc.produced, stream)
        decreases if enc.flushed then 0 else 1 + Max(size - index, 0), enc.pending
      {
        var packet;
        ret, packet := enc.NextPacket();
        if ret == ERROR_EOF {
          return 0, false;
        }
        if ret >= 0 {
          packet := packet.(stream := stream);
          TaggedPrefix(enc.produced, stream);
          ret := output.Write(packet);
          if ret < 0 {
            return;
          }
        } else if ret == ERROR_AGAIN {
          ret, undefined := Feed(enc, r, index, pts, frame, plan, runs);
          if undefined {
            return 0, true;
          }
          if ret < 0 {
            return;
          }
          index := index + ret;
          pts := pts + ret;
        } else {
          return;
        }
      }
    }

    /** rsAudioBufferWrite from an audio time on. The encoder is gone afterwards, on success and
        on every error. */
    method WriteFrom(output: Output, stream: int, start: int)
      returns (ret: int, undefined: bool, ghost used: Encoder?)
      requires Valid()
      modifies `encoder, output
      modifies if encoder == null then {} else {encoder}
      ensures ret <= 0 && (reliable && output.reliable ==> ret == 0)
      ensures !undefined ==> Valid() && encoder == null
      ensures undefined ==> !old(SafeFrom(start))
      ensures used != null ==> used.inputs <= old(PlannedInputs(start))
      ensures used == null ==> !undefined && ret < 0 && output.written == old(output.written)
      ensures used != null ==>
                old(output.written) <= output.written <= old(output.written) + Tagged(used.produced, stream)
      ensures ret == 0 && !undefined ==>
                && used != null && old(SafeFrom(start))
                && used.inputs == old(PlannedInputs(start))
                && output.written == old(output.written) + Tagged(used.produced, stream)
    {
      used, undefined := null, false;
      ret := GetEncoder();
      if ret >= 0 {
        used := encoder;
        var bufStartTime := endTime - size;
        var index := ToInt32(Max(start - bufStartTime, 0));
        ghost var r := Abs();
        PlanSteps(r, frameSize, params);
        ret, undefined := Drain(encoder, output, stream, index, r,
                                (i, p) => Plan(r, i, frameSize, p, params), i => Runs(r, i, frameSize));
        if undefined {
          return;
        }
      }
      encoder := null;
    }

    /** rsAudioBufferWrite: drains the ring from video time `startTime` on through the encoder.
        The ring and what a further save would send stay as they were. */
    method Write(output: Output, stream: int, startTime: int)
      returns (ret: int, undefined: bool, ghost used: Encoder?)
      requires Valid()
      modifies `encoder, output
      modifies if encoder == null then {} else {encoder}
      ensures ret <= 0 && (reliable && output.reliable ==> ret == 0)
      ensures !undefined ==> Valid() && encoder == null
      ensures Stored() && forall start :: PlannedInputs(start) == old(PlannedInputs(start))
      ensures undefined ==> !SafeFrom(AudioTime(startTime))
      ensures used != null ==> used.inputs <= PlannedInputs(AudioTime(startTime))
      ensures used == null ==> !undefined && ret < 0 && output.written == old(output.written)
      ensures used != null ==>
                old(output.written) <= output.written <= old(output.written) + Tagged(used.produced, stream)
      ensures ret == 0 && !undefined ==>
                && used != null && SafeFrom(AudioTime(startTime))
                && used.inputs == PlannedInputs(AudioTime(startTime))
                && output.written == old(output.written) + Tagged(used.produced, stream)
    {
      ret, undefined, used := WriteFrom(output, stream, AudioTime(startTime));
    }
  }

  /** rsAudioBufferCreate: a buffer, or the error when there is no memory for it. */
  method RSAudioBufferCreate(params: AudioParams, bytesPerSample: nat, recordSeconds: nat, frameSize: nat, reliable: bool)
    returns (ret: int, buffer: RSAudioBuffer?)
    requires params.channels > 0 && bytesPerSample > 0 && params.sampleRate > 0
    requires recordSeconds > 0 && frameSize > 0 && recordSeconds * params.sampleRate <= INT_MAX / 2
    requires recordSeconds * params.sampleRate * (params.channels * bytesPerSample) <= INT_MAX
    ensures ret == 0 || (ret == ERROR_NO_MEMORY && !reliable)
    ensures ret < 0 <==> buffer == null
    ensures ret == 0 ==>
              && fresh(buffer) && buffer.Valid() && fresh(buffer.data) && buffer.Logged() && buffer.frames == []
              && buffer.capacity == recordSeconds * params.sampleRate
              && buffer.sampleSize == params.channels * bytesPerSample
              && buffer.params == params && buffer.frameSize == frameSize && buffer.reliable == reliable
  {
    var outOfMemory: bool := *;
    if !reliable && outOfMemory {
      return ERROR_NO_MEMORY, null;
    }
    buffer := new RSAudioBuffer(params, bytesPerSample, recordSeconds, frameSize, reliable);
    ret := 0;
  }
}
