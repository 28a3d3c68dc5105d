// The libraries around the two buffers, kept abstract: frames and packets, an encoder that may
// do anything its call protocol allows, and an append-only output. Each may refuse a call at any
// time unless it is `reliable`.

module Codec {
  import opened CLib
  import opened Samples
  import opened FrameCutting
  import opened AudioRing

  // AV_NOPTS_VALUE
  const NO_PTS: Int64 := -INT64_MAX - 1

  /** An encoded packet; `key` is AV_PKT_FLAG_KEY, `payload` names its encoded bytes. */
  datatype Packet = Packet(pts: Int64, dts: Int64, key: bool, stream: int, payload: int)

  // What av_packet_unref leaves in a packet.
  const BLANK_PACKET := Packet(NO_PTS, NO_PTS, false, 0, 0)

  function Tagged(packets: seq<Packet>, stream: int): (tagged: seq<Packet>)
    ensures |tagged| == |packets|
    ensures forall k :: 0 <= k < |packets| ==>
              && tagged[k].stream == stream
              && tagged[k].pts == packets[k].pts && tagged[k].dts == packets[k].dts
              && tagged[k].key == packets[k].key && tagged[k].payload == packets[k].payload
  {
    seq(|packets|, k requires 0 <= k < |packets| => packets[k].(stream := stream))
  }

  lemma TaggedPrefix(packets: seq<Packet>, stream: int)
    requires packets != []
    ensures var n := |packets| - 1;
            Tagged(packets, stream) == Tagged(packets[..n], stream) + [packets[n].(stream := stream)]
  {
  }

  /** The saved file: packets in the order they were written. */
  class Output {
    const reliable: bool
    var written: seq<Packet>

    constructor (reliable: bool)
      ensures written == [] && this.reliable == reliable
    {
      this.reliable := reliable;
      written := [];
    }

    method Write(packet: Packet) returns (ret: int)
      modifies this
      ensures ret <= 0 && (reliable ==> ret == 0)
      ensures written == if ret < 0 then old(written) else old(written) + [packet]
    {
      var failure: int := *;
      if !reliable && failure < 0 {
        return failure;
      }
      written := written + [packet];
      ret := 0;
    }
  }

  /** A reusable frame with an interleaved sample buffer. */
  class Frame {
    const reliable: bool
    var params: AudioParams
    var nbSamples: nat
    var pts: int
    var data: array<Byte>

    constructor (reliable: bool)
      ensures fresh(data) && nbSamples == 0 && data.Length == 0 && this.reliable == reliable
    {
      this.reliable := reliable;
      params := AudioParams(-1, 0, 0, 0);
      nbSamples := 0;
      pts := NO_PTS;
      data := new Byte[0];
    }

    ghost predicate Holds(width: nat)
      reads this
    {
      data.Length == nbSamples * width
    }

    function Contents(width: nat): (c: seq<Sample>)
      requires Holds(width)
      reads this, data
      ensures |c| == nbSamples
    {
      Chunk(data[..], nbSamples, width)
    }

    // av_frame_get_buffer
    method GetBuffer(width: nat) returns (ret: int)
      modifies this`data
      ensures ret <= 0 && (reliable ==> ret == 0)
      ensures ret == 0 ==> fresh(data) && Holds(width)
      ensures ret < 0 ==> data == old(data)
    {
      var failure: int := *;
      if !reliable && failure < 0 {
        return failure;
      }
      data := new Byte[nbSamples * width];
      ret := 0;
    }

    method Unref()
      modifies this
      ensures fresh(data) && nbSamples == 0 && data.Length == 0
    {
      params := AudioParams(-1, 0, 0, 0);
      nbSamples := 0;
      pts := NO_PTS;
      data := new Byte[0];
    }
  }

  /** An audio encoder. `pending` bounds the packets it can still hand out before it needs more
      input; a frame may add any finite number to it. It asks for input only while no flush has
      been sent and reports the end of its stream only after one. */
  class Encoder {
    const reliable: bool
    const frameSize: nat
    const width: nat
    var pending: nat
    var flushed: bool
    ghost var inputs: seq<EncoderInput>
    ghost var produced: seq<Packet>

    constructor (frameSize: nat, width: nat, reliable: bool)
      ensures this.frameSize == frameSize && this.width == width && this.reliable == reliable
      ensures Unused()
    {
      this.reliable := reliable;
      this.frameSize := frameSize;
      this.width := width;
      pending := 0;
      flushed := false;
      inputs := [];
      produced := [];
    }

    ghost predicate Unused()
      reads this
    {
      !flushed && pending == 0 && inputs == [] && produced == []
    }

    method NextPacket() returns (ret: int, packet: Packet)
      modifies this
      ensures flushed == old(flushed) && inputs == old(inputs)
      ensures ret >= 0 ==> pending < old(pending) && produced == old(produced) + [packet]
      ensures ret < 0 ==> pending == old(pending) && produced == old(produced)
      ensures ret == ERROR_AGAIN ==> !flushed
      ensures ret == ERROR_EOF ==> flushed
      ensures reliable ==> ret >= 0 || ret == ERROR_AGAIN || ret == ERROR_EOF
    {
      packet := BLANK_PACKET;
      ret := *;
      if ret >= 0 && pending > 0 {
        packet := *;
        pending := pending - 1;
        produced := produced + [packet];
      } else if reliable || ret >= 0 || ret == ERROR_AGAIN || ret == ERROR_EOF {
        ret := if flushed then ERROR_EOF else ERROR_AGAIN;
      }
    }

    /** Takes the frame, or the flush when there is none; the frame is emptied for reuse. */
    method SendFrame(frame: Frame?) returns (ret: int)
      requires !flushed
      requires frame != null ==> frame.Holds(width)
      modifies this
      modifies if frame == null then {} else {frame}
      ensures ret <= 0 && produced == old(produced) && (reliable ==> ret == 0)
      ensures frame != null ==> fresh(frame.data)
      ensures ret < 0 ==> !flushed && inputs == old(inputs)
      ensures ret == 0 ==> flushed == (frame == null)
      ensures ret == 0 ==>
                inputs == old(inputs) + [if frame == null then Flush
                                         else Data(old(frame.Contents(width)), old(frame.pts), old(frame.params))]
    {
      var failure, more: nat := *, *;
      ret := if !reliable && failure < 0 then failure else 0;
      if ret == 0 {
        pending := pending + more;
        flushed := frame == null;
        inputs := inputs + [if frame == null then Flush
                            else Data(frame.Contents(width), frame.pts, frame.params)];
      }
      if frame != null {
        frame.Unref();
      }
    }
  }
}
