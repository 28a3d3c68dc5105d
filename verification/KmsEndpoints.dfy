// One frame over the KMS service as the two programs handle it: the body of the server's loop
// and the client's next-frame call, each on its end of a channel of whole messages.

module KmsEndpoints {
  import opened CLib
  import opened Codec
  import opened KmsProtocol
  import opened KmsLockstep

  class Channel {
    var queue: seq<Message>

    constructor ()
      ensures queue == []
    {
      queue := [];
    }

    method Send(m: Message)
      modifies this
      ensures queue == old(queue) + [m]
    {
      queue := queue + [m];
    }

    method Receive() returns (m: Message)
      requires queue != []
      modifies this
      ensures m == old(queue[0]) && queue == old(queue[1..])
    {
      m := queue[0];
      queue := queue[1..];
    }
  }

  /** The recorder's frame: a timestamp, and a descriptor once one is attached. */
  class GrabbedFrame {
    var pts: int
    var attached: bool
    var desc: Descriptor

    constructor ()
      ensures !attached
    {
      pts := NO_PTS;
      attached := false;
      desc := Descriptor([], 0);
    }

    method Unref()
      modifies this
      ensures !attached
    {
      pts := NO_PTS;
      attached := false;
      desc := Descriptor([], 0);
    }
  }

  /** What a caller of next-frame sees: the frame if one is attached, else the return value. */
  function SeenIn(ret: int, frame: GrabbedFrame): SeenResult
    reads frame
  {
    if frame.attached then Seen(frame.pts, Bare(frame.desc)) else NoFrame(ret)
  }

  /** The body of the loop in kmsConnection for one result of the local device. */
  method ServeFrame(sock: Channel, r: DeviceResult)
    requires Proper(r)
    modifies sock
    ensures sock.queue == old(sock.queue) + Encode(r)
  {
    var pts := match r
      case DeviceError(code) => code
      case DeviceFrame(p, _) => p;
    sock.Send(Pts(pts));
    if pts < 0 {
      return;
    }
    sock.Send(Desc(r.desc));
  }

  /** kmsServiceDeviceNextFrame: takes exactly the messages of one result off the channel, and
      shows the caller the remote view of that result. */
  method NextFrame(sock: Channel, frame: GrabbedFrame, fds: array<int>,
                   ghost r: DeviceResult, ghost rest: seq<Message>) returns (ret: int)
    requires Proper(r) && fds.Length == 4
    requires sock.queue == Encode(r) + rest
    modifies sock, frame
    ensures sock.queue == rest
    ensures SeenIn(ret, frame) == Remote(r)
    ensures frame.attached <==> r.DeviceFrame? && r.pts >= 0
    ensures frame.attached ==> SameFrame(Seen(frame.pts, frame.desc), r)
    ensures r.DeviceError? ==> ret == r.code
    ensures frame.attached ==> ret == 0 && |frame.desc.objects| <= 4
    ensures frame.attached ==> forall i :: 0 <= i < |frame.desc.objects| ==> frame.desc.objects[i].fd == fds[i]
  {
    frame.Unref();
    var first := sock.Receive();
    assert first == Encode(r)[0];
    frame.pts := first.pts;
    if frame.pts < 0 {
      ret := ToInt32(frame.pts);
      frame.Unref();
      return;
    }
    assert sock.queue[0] == Encode(r)[1];
    var second := sock.Receive();
    var desc := second.desc;
    var i := 0;
    while i < |desc.objects|
      invariant i <= |desc.objects| == |r.desc.objects| && desc.layers == r.desc.layers
      invariant forall j :: 0 <= j < i ==> desc.objects[j] == r.desc.objects[j].(fd := fds[j])
      invariant forall j :: i <= j < |desc.objects| ==> desc.objects[j] == r.desc.objects[j]
    {
      desc := desc.(objects := desc.objects[i := desc.objects[i].(fd := fds[i])]);
      i := i + 1;
    }
    assert desc == WithFds(r.desc, fds[..]);
    BareWithFds(r.desc, fds[..]);
    frame.desc := desc;
    frame.attached := true;
    ret := 0;
  }
}
