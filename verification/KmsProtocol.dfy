// The KMS service: a privileged server grabs frames and streams them to the recorder. Client and
// server are two processes over two first-in first-out channels of whole messages. The server
// sends one message for a failure and two for a frame, and the sign of the first tells which.

module KmsProtocol {
  import opened CLib
  import opened Codec

  // One buffer object of a frame; `fd` is only meaningful in its own process.
  datatype DrmObject = DrmObject(fd: int, size: int, modifier: int)

  datatype Descriptor = Descriptor(objects: seq<DrmObject>, layers: int)

  // What the server's local device returns: a negative error code or a frame.
  datatype DeviceResult = DeviceError(code: int) | DeviceFrame(pts: int, desc: Descriptor)

  // What the recorder sees of a next-frame call.
  datatype SeenResult = NoFrame(ret: int) | Seen(pts: int, desc: Descriptor)

  datatype Message =
    | Info(framerate: int, deviceLength: nat)
    | Name(chars: string)
    | Params(params: int)
    | Pts(pts: int)
    | Desc(desc: Descriptor)

  // ---------- descriptors up to file descriptors ----------

  function WithFds(d: Descriptor, fds: seq<int>): Descriptor
    requires |d.objects| <= |fds|
  {
    d.(objects := seq(|d.objects|, i requires 0 <= i < |d.objects| => d.objects[i].(fd := fds[i])))
  }

  function Bare(d: Descriptor): Descriptor {
    d.(objects := seq(|d.objects|, i requires 0 <= i < |d.objects| => d.objects[i].(fd := -1)))
  }

  lemma BareWithFds(d: Descriptor, fds: seq<int>)
    requires |d.objects| <= |fds|
    ensures Bare(WithFds(d, fds)) == Bare(d)
  {
    assert Bare(WithFds(d, fds)).objects == Bare(d).objects;
  }

  // ---------- one frame over the wire ----------

  /** A result as the device interface allows it: a negative `int` code, or at most four objects. */
  predicate Proper(r: DeviceResult) {
    match r
    case DeviceError(code) => code < 0 && FitsInt32(code)
    case DeviceFrame(_, desc) => |desc.objects| <= 4
  }

  function Encode(r: DeviceResult): seq<Message> {
    match r
    case DeviceError(code) => [Pts(code)]
    case DeviceFrame(pts, desc) => if pts < 0 then [Pts(pts)] else [Pts(pts), Desc(desc)]
  }

  /** What a local device shows its user, file descriptors apart. */
  function Local(r: DeviceResult): SeenResult {
    match r
    case DeviceError(code) => NoFrame(code)
    case DeviceFrame(pts, desc) => Seen(pts, Bare(desc))
  }

  /** What the service shows: a frame with a negative timestamp looks like a failure whose code is
      that timestamp cut to an int. */
  function Remote(r: DeviceResult): SeenResult {
    match r
    case DeviceError(code) => NoFrame(code)
    case DeviceFrame(pts, desc) => if pts < 0 then NoFrame(ToInt32(pts)) else Seen(pts, Bare(desc))
  }

  /** The remote device shows what the local one does exactly when the frame, if there is one, has
      a timestamp that is not negative. */
  lemma RemoteIsLocal(r: DeviceResult)
    ensures Remote(r) == Local(r) <==> (r.DeviceFrame? ==> r.pts >= 0)
  {
  }

  /** A frame without a timestamp is reported as a success, but without a frame. */
  lemma NoTimestampLooksLikeSuccess(desc: Descriptor)
    ensures Remote(DeviceFrame(NO_PTS, desc)) == NoFrame(0)
  {
    assert NO_PTS % 0x1_0000_0000 == 0;
  }

  /** The messages of the first `n` results. */
  function Stream(rs: seq<DeviceResult>, n: nat): seq<Message>
    requires n <= |rs|
  {
    if n == 0 then [] else Stream(rs, n - 1) + Encode(rs[n - 1])
  }

  // ---------- the two processes ----------

  datatype ServerPc =
    | SInfo | SName | SSendParams      // the handshake
    | SNextFrame | SSendPts | SSendDesc // the loop
    | SDone
    | SConfused                        // received a message of the wrong kind

  datatype ClientPc =
    | CSendInfo | CSendName | CParams
    | CReady                           // between two next-frame calls
    | CPts | CDesc                     // in a next-frame call
    | CConfused

  datatype Server = Server(pc: ServerPc, framerate: int, length: nat, name: string, results: seq<DeviceResult>)

  datatype Client = Client(pc: ClientPc, params: int, pts: int, results: seq<SeenResult>)

  datatype State = State(server: Server, client: Client, toServer: seq<Message>, toClient: seq<Message>)

  // What both sides are configured with.
  datatype Setup = Setup(framerate: int, device: string, params: int)

  // Who moves; the device's next result; whether the service still runs; the descriptors the
  // kernel hands over with a message.
  datatype Event = ServerMoves(result: DeviceResult, running: bool) | ClientMoves(fds: seq<int>)

  ghost predicate Possible(e: Event) {
    match e
    case ServerMoves(result, _) => Proper(result)
    case ClientMoves(fds) => |fds| == 4
  }

  // (uint8_t)strlen
  function NameLength(device: string): nat {
    |device| % 256
  }

  function ServerStep(u: Setup, s: State, result: DeviceResult, running: bool): State {
    var v := s.server;
    match v.pc
    case SInfo =>
      if s.toServer == [] then s
      else if s.toServer[0].Info? then
        s.(toServer := s.toServer[1..],
           server := v.(pc := SName, framerate := s.toServer[0].framerate, length := s.toServer[0].deviceLength))
      else s.(server := v.(pc := SConfused))
    case SName =>
      if s.toServer == [] then s
      else if s.toServer[0].Name? && |s.toServer[0].chars| == v.length then
        s.(toServer := s.toServer[1..], server := v.(pc := SSendParams, name := s.toServer[0].chars))
      else s.(server := v.(pc := SConfused))
    case SSendParams => s.(toClient := s.toClient + [Params(u.params)], server := v.(pc := SNextFrame))
    case SNextFrame =>
      if !running then s.(server := v.(pc := SDone))
      else s.(server := v.(pc := SSendPts, results := v.results + [result]))
    case SSendPts =>
      if v.results == [] then s
      else
        var r := v.results[|v.results| - 1];
        var pts := if r.DeviceError? then r.code else r.pts;
        s.(toClient := s.toClient + [Pts(pts)], server := v.(pc := if pts < 0 then SNextFrame else SSendDesc))
    case SSendDesc =>
      if v.results == [] || !v.results[|v.results| - 1].DeviceFrame? then s
      else
        s.(toClient := s.toClient + [Desc(v.results[|v.results| - 1].desc)], server := v.(pc := SNextFrame))
    case _ => s
  }

  function ClientStep(u: Setup, s: State, fds: seq<int>): State {
    var v := s.client;
    match v.pc
    case CSendInfo =>
      s.(toServer := s.toServer + [Info(u.framerate, NameLength(u.device))], client := v.(pc := CSendName))
    case CSendName =>
      s.(toServer := s.toServer + [Name(u.device[..NameLength(u.device)])], client := v.(pc := CParams))
    case CReady => s.(client := v.(pc := CPts))
    case CConfused => s
    case _ =>
      if s.toClient == [] then s
      else
        var t := s.(toClient := s.toClient[1..]);
        match (v.pc, s.toClient[0])
        case (CParams, Params(p)) => t.(client := v.(pc := CReady, params := p))
        case (CPts, Pts(pts)) =>
          if pts < 0 then t.(client := v.(pc := CReady, results := v.results + [NoFrame(ToInt32(pts))]))
          else t.(client := v.(pc := CDesc, pts := pts))
        case (CDesc, Desc(d)) =>
          if |d.objects| > |fds| then t.(client := v.(pc := CConfused))
          else t.(client := v.(pc := CReady, results := v.results + [Seen(v.pts, Bare(WithFds(d, fds)))]))
        case _ => t.(client := v.(pc := CConfused))
  }

  function Next(u: Setup, s: State, e: Event): State {
    match e
    case ServerMoves(result, running) => ServerStep(u, s, result, running)
    case ClientMoves(fds) => ClientStep(u, s, fds)
  }

  function Start(): State {
    State(Server(SInfo, 0, 0, "", []), Client(CSendInfo, 0, 0, []), [], [])
  }

  function Run(u: Setup, events: seq<Event>): State {
    if events == [] then Start()
    else Next(u, Run(u, events[..|events| - 1]), events[|events| - 1])
  }
}
