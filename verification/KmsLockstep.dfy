// The client and the server of the KMS service stay in lockstep, whatever the interleaving.

module KmsLockstep {
  import opened CLib
  import opened KmsProtocol

  // ---------- everything sent and everything received, as functions of the state ----------

  function Handshake(u: Setup): seq<Message> {
    [Info(u.framerate, NameLength(u.device)), Name(u.device[..NameLength(u.device)])]
  }

  function ClientSent(v: Client): nat {
    match v.pc
    case CSendInfo => 0
    case CSendName => 1
    case _ => 2
  }

  function ServerGot(v: Server): nat {
    match v.pc
    case SInfo => 0
    case SName => 1
    case _ => 2
  }

  function Newest(rs: seq<DeviceResult>): DeviceResult {
    if rs == [] then DeviceError(-1) else rs[|rs| - 1]
  }

  /** How many results the server has sent completely. */
  function Whole(v: Server): (n: nat)
    ensures n <= |v.results|
  {
    if v.pc.SSendPts? || v.pc.SSendDesc? then (if v.results == [] then 0 else |v.results| - 1) else |v.results|
  }

  predicate Shaking(v: Server) {
    v.pc.SInfo? || v.pc.SName? || v.pc.SSendParams?
  }

  /** All messages the server has sent: the parameters, then the stream of its results, the last
      of which may be on its way. */
  ghost function ServerSent(u: Setup, v: Server): seq<Message> {
    if Shaking(v) then []
    else [Params(u.params)] + Stream(v.results, Whole(v)) + Begun(v)
  }

  function Begun(v: Server): seq<Message> {
    if v.pc.SSendDesc? && Newest(v.results).DeviceFrame? then [Pts(Newest(v.results).pts)] else []
  }

  predicate Joining(v: Client) {
    v.pc.CSendInfo? || v.pc.CSendName? || v.pc.CParams?
  }

  /** All messages the client has received, told by the results it has returned. */
  ghost function ClientGot(u: Setup, v: Client, rs: seq<DeviceResult>): seq<Message>
    requires |v.results| <= |rs|
  {
    if Joining(v) then []
    else [Params(u.params)] + Stream(rs, |v.results|) + (if v.pc.CDesc? then [Pts(v.pts)] else [])
  }

  ghost predicate AllProper(rs: seq<DeviceResult>) {
    forall i :: 0 <= i < |rs| ==> Proper(rs[i])
  }

  /** The channel to the server holds what the client sent and the server has not yet taken. */
  ghost predicate HandshakeInv(u: Setup, s: State) {
    && s.server.pc != SConfused
    && ServerGot(s.server) <= ClientSent(s.client)
    && s.toServer == Handshake(u)[ServerGot(s.server)..ClientSent(s.client)]
    && (ServerGot(s.server) >= 1 ==>
          s.server.framerate == u.framerate && s.server.length == NameLength(u.device))
    && (ServerGot(s.server) >= 2 ==> s.server.name == u.device[..NameLength(u.device)])
  }

  ghost predicate ServerInv(v: Server) {
    && AllProper(v.results)
    && (Shaking(v) ==> v.results == [])
    && (v.pc.SSendPts? || v.pc.SSendDesc? ==> v.results != [])
    && (v.pc.SSendDesc? ==> Newest(v.results).DeviceFrame? && Newest(v.results).pts >= 0)
  }

  ghost predicate Views(seen: seq<SeenResult>, rs: seq<DeviceResult>) {
    && |seen| <= |rs|
    && forall i :: 0 <= i < |seen| ==> seen[i] == Remote(rs[i])
  }

  /** What the server sent is what the client received followed by what is in the channel, and the
      client has returned the remote view of a prefix of the server's results. */
  ghost predicate StreamInv(u: Setup, s: State) {
    var k := |s.client.results|;
    && s.client.pc != CConfused
    && Views(s.client.results, s.server.results)
    && (Joining(s.client) ==> k == 0)
    && (s.client.pc.CDesc? ==>
          k < |s.server.results| && s.server.results[k].DeviceFrame? && s.server.results[k].pts == s.client.pts >= 0)
    && ServerSent(u, s.server) == ClientGot(u, s.client, s.server.results) + s.toClient
    && (!Joining(s.client) ==> s.client.params == u.params)
  }

  ghost predicate Inv(u: Setup, s: State) {
    HandshakeInv(u, s) && ServerInv(s.server) && StreamInv(u, s)
  }

  // ---------- streams ----------

  lemma {:induction false} StreamOfPrefix(rs: seq<DeviceResult>, r: DeviceResult, n: nat)
    requires n <= |rs|
    ensures Stream(rs + [r], n) == Stream(rs, n)
  {
    if n > 0 {
      StreamOfPrefix(rs, r, n - 1);
    }
  }

  lemma ConcatAt(a: seq<Message>, b: seq<Message>, i: nat)
    requires i < |a| + |b|
    ensures (a + b)[i] == if i < |a| then a[i] else b[i - |a|]
  {
  }

  /** Where the messages of result `k` stand in the stream of `n` results. */
  lemma {:induction false} StreamAt(rs: seq<DeviceResult>, k: nat, n: nat)
    requires k < n <= |rs|
    ensures var at := |Stream(rs, k)|;
            && at + |Encode(rs[k])| <= |Stream(rs, n)|
            && Stream(rs, n)[at] == Encode(rs[k])[0]
            && (|Encode(rs[k])| == 2 ==> Stream(rs, n)[at + 1] == Encode(rs[k])[1])
    decreases n
  {
    var at, a, e := |Stream(rs, k)|, Stream(rs, n - 1), Encode(rs[n - 1]);
    if k < n - 1 {
      StreamAt(rs, k, n - 1);
    }
    ConcatAt(a, e, at);
    if |Encode(rs[k])| == 2 {
      ConcatAt(a, e, at + 1);
    }
  }

  // ---------- the server ----------

  lemma ServerKeepsHandshake(u: Setup, s: State, result: DeviceResult, running: bool)
    requires HandshakeInv(u, s)
    ensures HandshakeInv(u, ServerStep(u, s, result, running))
  {
  }

  lemma ServerKeepsResults(u: Setup, s: State, result: DeviceResult, running: bool)
    requires ServerInv(s.server) && Proper(result)
    ensures ServerInv(ServerStep(u, s, result, running).server)
  {
  }

  lemma ServerGrabKeeps(u: Setup, s: State, result: DeviceResult, running: bool)
    requires StreamInv(u, s) && s.server.pc == SNextFrame
    ensures StreamInv(u, ServerStep(u, s, result, running))
  {
    var t, rs := ServerStep(u, s, result, running), s.server.results;
    if running {
      assert ServerSent(u, t.server) == ServerSent(u, s.server) by {
        StreamOfPrefix(rs, result, |rs|);
      }
      assert ClientGot(u, t.client, t.server.results) == ClientGot(u, s.client, rs) by {
        StreamOfPrefix(rs, result, |s.client.results|);
      }
    }
  }

  /** A send puts one message at the end of the channel and of what was sent. */
  lemma SendExtends(u: Setup, s: State, t: State, m: Message)
    requires StreamInv(u, s) && t.client == s.client && t.server.results == s.server.results
    requires t.toClient == s.toClient + [m] && ServerSent(u, t.server) == ServerSent(u, s.server) + [m]
    ensures StreamInv(u, t)
  {
    var got := ClientGot(u, s.client, s.server.results);
    assert got + (s.toClient + [m]) == got + s.toClient + [m];
  }

  lemma ServerSendIs(u: Setup, s: State, result: DeviceResult, running: bool)
    requires ServerInv(s.server)
    requires s.server.pc == SSendParams || s.server.pc == SSendPts || s.server.pc == SSendDesc
    ensures var t := ServerStep(u, s, result, running);
            && t.client == s.client && t.server.results == s.server.results
            && |t.toClient| == |s.toClient| + 1
            && t.toClient == s.toClient + [t.toClient[|s.toClient|]]
            && ServerSent(u, t.server) == ServerSent(u, s.server) + [t.toClient[|s.toClient|]]
  {
  }

  lemma ServerKeepsStream(u: Setup, s: State, result: DeviceResult, running: bool)
    requires ServerInv(s.server) && StreamInv(u, s) && s.server.pc != SConfused
    requires ServerStep(u, s, result, running).server.pc != SConfused
    ensures StreamInv(u, ServerStep(u, s, result, running))
  {
    if s.server.pc == SNextFrame {
      ServerGrabKeeps(u, s, result, running);
    } else if s.server.pc == SSendParams || s.server.pc == SSendPts || s.server.pc == SSendDesc {
      ServerSendIs(u, s, result, running);
      var t := ServerStep(u, s, result, running);
      SendExtends(u, s, t, t.toClient[|s.toClient|]);
    }
  }

  // ---------- the client ----------

  lemma ClientKeepsHandshake(u: Setup, s: State, fds: seq<int>)
    requires HandshakeInv(u, s)
    ensures HandshakeInv(u, ClientStep(u, s, fds))
    ensures ClientStep(u, s, fds).server == s.server
  {
  }

  lemma ClientSendKeeps(u: Setup, s: State, fds: seq<int>)
    requires StreamInv(u, s) && (s.client.pc == CSendInfo || s.client.pc == CSendName || s.client.pc == CReady)
    ensures StreamInv(u, ClientStep(u, s, fds))
  {
  }

  lemma FirstInChannel(sent: seq<Message>, got: seq<Message>, channel: seq<Message>)
    requires sent == got + channel && channel != []
    ensures |got| < |sent| && channel[0] == sent[|got|]
    ensures sent == got + [channel[0]] + channel[1..]
  {
  }

  /** The client has never returned more results than the server has completely sent. */
  lemma WholeCovers(u: Setup, s: State)
    requires ServerInv(s.server) && StreamInv(u, s) && !Joining(s.client)
    ensures !Shaking(s.server) && |s.client.results| <= Whole(s.server)
  {
    var rs, m := s.server.results, Whole(s.server);
    if m < |rs| {
      assert Stream(rs, |rs|) == Stream(rs, m) + Encode(rs[m]);
    }
  }

  /** Where the messages of a result that was sent completely stand among all messages. */
  lemma SentAt(p: Message, rs: seq<DeviceResult>, m: nat, begun: seq<Message>, k: nat)
    requires k < m <= |rs|
    ensures var sent, at := [p] + Stream(rs, m) + begun, 1 + |Stream(rs, k)|;
            && at < |sent| && sent[at] == Encode(rs[k])[0]
            && (|Encode(rs[k])| == 2 ==> at + 1 < |sent| && sent[at + 1] == Encode(rs[k])[1])
  {
    StreamAt(rs, k, m);
    SentSum(p, Stream(rs, m), begun, |Stream(rs, k)|);
    if |Encode(rs[k])| == 2 {
      SentSum(p, Stream(rs, m), begun, |Stream(rs, k)| + 1);
    }
  }

  lemma SentSum(p: Message, a: seq<Message>, b: seq<Message>, i: nat)
    requires i < |a| + |b|
    ensures ([p] + a + b)[1 + i] == if i < |a| then a[i] else b[i - |a|]
  {
  }

  /** The first receive of a next-frame call gets the timestamp or code of the server's next
      result. */
  lemma NextIsPts(u: Setup, s: State)
    requires ServerInv(s.server) && StreamInv(u, s) && s.toClient != [] && s.client.pc == CPts
    ensures |s.client.results| < |s.server.results|
    ensures s.toClient[0] == Encode(s.server.results[|s.client.results|])[0]
  {
    var rs, k, m := s.server.results, |s.client.results|, Whole(s.server);
    assert s.toClient[0] == ServerSent(u, s.server)[1 + |Stream(rs, k)|] && 1 + |Stream(rs, k)| < |ServerSent(u, s.server)| by {
      FirstInChannel(ServerSent(u, s.server), ClientGot(u, s.client, rs), s.toClient);
    }
    WholeCovers(u, s);
    if k < m {
      SentAt(Params(u.params), rs, m, Begun(s.server), k);
    } else {
      SentSum(Params(u.params), Stream(rs, m), Begun(s.server), |Stream(rs, m)|);
    }
  }

  /** The second receive gets the descriptor of the frame whose timestamp the first one got. */
  lemma NextIsDesc(u: Setup, s: State)
    requires ServerInv(s.server) && StreamInv(u, s) && s.toClient != [] && s.client.pc == CDesc
    ensures s.toClient[0] == Desc(s.server.results[|s.client.results|].desc)
  {
    var rs, k, m := s.server.results, |s.client.results|, Whole(s.server);
    assert s.toClient[0] == ServerSent(u, s.server)[2 + |Stream(rs, k)|] && 2 + |Stream(rs, k)| < |ServerSent(u, s.server)| by {
      FirstInChannel(ServerSent(u, s.server), ClientGot(u, s.client, rs), s.toClient);
    }
    WholeCovers(u, s);
    if k < m {
      SentAt(Params(u.params), rs, m, Begun(s.server), k);
    }
  }

  /** A receive moves the first message of the channel to what the client got. */
  lemma TakeKeeps(u: Setup, s: State, t: State)
    requires StreamInv(u, s) && s.toClient != []
    requires t.server == s.server && t.toClient == s.toClient[1..]
    requires t.client.pc != CConfused && !Joining(t.client) && t.client.params == u.params
    requires Views(t.client.results, s.server.results)
    requires var k := |t.client.results|;
             t.client.pc.CDesc? ==> k < |s.server.results| && s.server.results[k].DeviceFrame?
                                    && s.server.results[k].pts == t.client.pts >= 0
    requires ClientGot(u, t.client, s.server.results) == ClientGot(u, s.client, s.server.results) + [s.toClient[0]]
    ensures StreamInv(u, t)
  {
    FirstInChannel(ServerSent(u, s.server), ClientGot(u, s.client, s.server.results), s.toClient);
  }

  lemma ClientParamsKeeps(u: Setup, s: State, fds: seq<int>)
    requires StreamInv(u, s) && s.client.pc == CParams
    ensures StreamInv(u, ClientStep(u, s, fds))
  {
    if s.toClient != [] {
      FirstInChannel(ServerSent(u, s.server), [], s.toClient);
    }
  }

  lemma GotResult(u: Setup, v: Client, w: Client, rs: seq<DeviceResult>)
    requires |v.results| < |rs| && !Joining(v) && (v.pc.CDesc? <==> |Encode(rs[|v.results|])| == 2)
    requires v.pc.CDesc? ==> rs[|v.results|].DeviceFrame? && rs[|v.results|].pts == v.pts
    requires w.pc == CReady && |w.results| == |v.results| + 1
    ensures var e := Encode(rs[|v.results|]);
            ClientGot(u, w, rs) == ClientGot(u, v, rs) + [e[|e| - 1]]
  {
    var e, got := Encode(rs[|v.results|]), [Params(u.params)] + Stream(rs, |v.results|);
    assert ClientGot(u, w, rs) == got + e;
    if |e| == 2 {
      assert e == [e[0]] + [e[1]];
      assert got + e == got + [e[0]] + [e[1]];
    } else {
      assert e == [e[0]];
    }
  }

  /** Taking the last message of a result completes it. */
  lemma ClientResultKeeps(u: Setup, s: State, t: State, r: DeviceResult)
    requires StreamInv(u, s) && s.toClient != [] && |s.client.results| < |s.server.results|
    requires s.client.pc == (if |Encode(r)| == 2 then CDesc else CPts)
    requires r == s.server.results[|s.client.results|] && s.toClient[0] == Encode(r)[|Encode(r)| - 1]
    requires t == s.(toClient := s.toClient[1..],
                     client := s.client.(pc := CReady, results := s.client.results + [Remote(r)]))
    ensures StreamInv(u, t)
  {
    GotResult(u, s.client, t.client, s.server.results);
    TakeKeeps(u, s, t);
  }

  lemma FailureTaken(u: Setup, s: State, fds: seq<int>, r: DeviceResult)
    requires s.client.pc == CPts && s.toClient != [] && Proper(r)
    requires s.toClient[0] == Encode(r)[0] && |Encode(r)| == 1
    ensures ClientStep(u, s, fds) == s.(toClient := s.toClient[1..],
                                        client := s.client.(pc := CReady, results := s.client.results + [Remote(r)]))
  {
  }

  /** One that is not negative is the first half of a frame. */
  lemma ClientFrameKeeps(u: Setup, s: State, fds: seq<int>, r: DeviceResult)
    requires StreamInv(u, s) && s.client.pc == CPts && s.toClient != []
    requires |s.client.results| < |s.server.results| && r == s.server.results[|s.client.results|] && Proper(r)
    requires s.toClient[0] == Encode(r)[0] && |Encode(r)| == 2
    ensures StreamInv(u, ClientStep(u, s, fds))
  {
    TakeKeeps(u, s, ClientStep(u, s, fds));
  }

  lemma ClientPtsKeeps(u: Setup, s: State, fds: seq<int>)
    requires ServerInv(s.server) && StreamInv(u, s) && s.client.pc == CPts
    ensures StreamInv(u, ClientStep(u, s, fds))
  {
    if s.toClient != [] {
      NextIsPts(u, s);
      var r := s.server.results[|s.client.results|];
      assert Proper(r);
      // a negative first message is a whole result
      if |Encode(r)| == 1 {
        FailureTaken(u, s, fds, r);
        ClientResultKeeps(u, s, ClientStep(u, s, fds), r);
      } else {
        ClientFrameKeeps(u, s, fds, r);
      }
    }
  }

  lemma DescTaken(u: Setup, s: State, fds: seq<int>, r: DeviceResult)
    requires s.client.pc == CDesc && s.toClient != [] && r.DeviceFrame? && r.pts == s.client.pts >= 0
    requires s.toClient[0] == Desc(r.desc) && |r.desc.objects| <= |fds|
    ensures ClientStep(u, s, fds) == s.(toClient := s.toClient[1..],
                                        client := s.client.(pc := CReady, results := s.client.results + [Remote(r)]))
  {
    BareWithFds(r.desc, fds);
  }

  lemma ClientDescKeeps(u: Setup, s: State, fds: seq<int>)
    requires ServerInv(s.server) && StreamInv(u, s) && |fds| == 4 && s.client.pc == CDesc
    ensures StreamInv(u, ClientStep(u, s, fds))
  {
    if s.toClient != [] {
      var r := s.server.results[|s.client.results|];
      NextIsDesc(u, s);
      assert Proper(r);
      DescTaken(u, s, fds, r);
      ClientResultKeeps(u, s, ClientStep(u, s, fds), r);
    }
  }

  // ---------- runs ----------

  lemma InvNext(u: Setup, s: State, e: Event)
    requires Inv(u, s) && Possible(e)
    ensures Inv(u, Next(u, s, e))
  {
    match e {
      case ServerMoves(result, running) =>
        ServerKeepsHandshake(u, s, result, running);
        ServerKeepsResults(u, s, result, running);
        ServerKeepsStream(u, s, result, running);
      case ClientMoves(fds) =>
        ClientKeepsHandshake(u, s, fds);
        match s.client.pc {
          case CParams => ClientParamsKeeps(u, s, fds);
          case CPts => ClientPtsKeeps(u, s, fds);
          case CDesc => ClientDescKeeps(u, s, fds);
          case _ => ClientSendKeeps(u, s, fds);
        }
    }
  }

  ghost predicate AllPossible(events: seq<Event>) {
    forall i :: 0 <= i < |events| ==> Possible(events[i])
  }

  lemma {:induction false} InvRun(u: Setup, events: seq<Event>)
    requires AllPossible(events)
    ensures Inv(u, Run(u, events))
    decreases |events|
  {
    if events == [] {
      assert Handshake(u)[0..0] == [];
    } else {
      var n := |events| - 1;
      InvRun(u, events[..n]);
      InvNext(u, Run(u, events[..n]), events[n]);
    }
  }

  /** What the server's local device returns to the call of its loop, if this event is one. */
  function Grab(s: State, e: Event): seq<DeviceResult> {
    if e.ServerMoves? && e.running && s.server.pc == SNextFrame then [e.result] else []
  }

  /** All it returned, told by the events. */
  ghost function Grabbed(u: Setup, events: seq<Event>): seq<DeviceResult>
    decreases |events|
  {
    if events == [] then []
    else
      var n := |events| - 1;
      Grabbed(u, events[..n]) + Grab(Run(u, events[..n]), events[n])
  }

  /** The server's loop begins and finds the service stopped. */
  predicate FindsStopped(s: State, e: Event) {
    e.ServerMoves? && !e.running && s.server.pc == SNextFrame
  }

  ghost predicate FoundStopped(u: Setup, events: seq<Event>)
    decreases |events|
  {
    events != []
    && var n := |events| - 1;
       FoundStopped(u, events[..n]) || FindsStopped(Run(u, events[..n]), events[n])
  }

  lemma ServerStepIs(u: Setup, s: State, result: DeviceResult, running: bool)
    ensures var e, t := ServerMoves(result, running), ServerStep(u, s, result, running);
            && t.server.results == s.server.results + Grab(s, e)
            && (t.server.pc == SDone <==> s.server.pc == SDone || FindsStopped(s, e))
  {
  }

  lemma StepIs(u: Setup, s: State, e: Event)
    ensures var t := Next(u, s, e);
            && t.server.results == s.server.results + Grab(s, e)
            && (t.server.pc == SDone <==> s.server.pc == SDone || FindsStopped(s, e))
  {
    match e
    case ServerMoves(result, running) => ServerStepIs(u, s, result, running);
    case ClientMoves(fds) =>
  }

  /** The server has logged what its device returned and nothing else, and has ended just when its
      loop once found the service stopped. */
  lemma {:induction false} ResultsAreGrabbed(u: Setup, events: seq<Event>)
    ensures Run(u, events).server.results == Grabbed(u, events)
    ensures Run(u, events).server.pc == SDone <==> FoundStopped(u, events)
    decreases |events|
  {
    if events != [] {
      var n := |events| - 1;
      ResultsAreGrabbed(u, events[..n]);
      StepIs(u, Run(u, events[..n]), events[n]);
    }
  }

  /** The same frame up to the file descriptors, which are each process's own. */
  ghost predicate SameFrame(seen: SeenResult, r: DeviceResult) {
    && seen.Seen? && r.DeviceFrame?
    && seen.pts == r.pts && seen.desc.layers == r.desc.layers
    && |seen.desc.objects| == |r.desc.objects|
    && forall j :: 0 <= j < |r.desc.objects| ==>
         && seen.desc.objects[j].size == r.desc.objects[j].size
         && seen.desc.objects[j].modifier == r.desc.objects[j].modifier
  }

  lemma RemoteShows(r: DeviceResult)
    ensures r.DeviceError? ==> Remote(r) == NoFrame(r.code)
    ensures r.DeviceFrame? ==> (SameFrame(Remote(r), r) <==> r.pts >= 0)
    ensures r.DeviceFrame? ==> SameFrame(Local(r), r)
  {
  }

  /** Main theorem. After any interleaving nobody has received a message of the wrong kind, and
      the client's results are, one by one, those of a prefix of the calls of the server's local
      device: its error codes, and its frames exactly where their timestamps are not negative. When
      none is, the client has seen what the local device itself would have shown. */
  lemma RemoteRefinesLocal(u: Setup, events: seq<Event>)
    requires AllPossible(events)
    ensures var s, grabbed := Run(u, events), Grabbed(u, events);
            var k := |s.client.results|;
            && s.server.pc != SConfused && s.client.pc != CConfused
            && k <= |grabbed|
            && (forall i :: 0 <= i < k && grabbed[i].DeviceError? ==> s.client.results[i] == NoFrame(grabbed[i].code))
            && (forall i :: 0 <= i < k && grabbed[i].DeviceFrame? ==>
                  (SameFrame(s.client.results[i], grabbed[i]) <==> grabbed[i].pts >= 0))
            && ((forall i :: 0 <= i < k && grabbed[i].DeviceFrame? ==> grabbed[i].pts >= 0) <==>
                (forall i :: 0 <= i < k ==> s.client.results[i] == Local(grabbed[i])))
  {
    InvRun(u, events);
    ResultsAreGrabbed(u, events);
    var s, grabbed := Run(u, events), Grabbed(u, events);
    forall i | 0 <= i < |s.client.results|
      ensures grabbed[i].DeviceError? ==> s.client.results[i] == NoFrame(grabbed[i].code)
      ensures grabbed[i].DeviceFrame? ==> (SameFrame(s.client.results[i], grabbed[i]) <==> grabbed[i].pts >= 0)
      ensures s.client.results[i] == Local(grabbed[i]) <==> (grabbed[i].DeviceFrame? ==> grabbed[i].pts >= 0)
    {
      assert s.client.results[i] == Remote(grabbed[i]);
      RemoteShows(grabbed[i]);
      RemoteIsLocal(grabbed[i]);
    }
  }

  // ---------- every call comes to its end ----------

  function Twice(u: Setup, s: State, e: Event): State {
    Next(u, Next(u, s, e), e)
  }

  /** From wherever its loop begins, the server grabs a result, puts its messages behind the others
      in the channel and is back at the beginning of its loop: three steps for a frame with a
      timestamp, two for anything else. */
  lemma ServerTurn(u: Setup, s: State, r: DeviceResult)
    requires s.server.pc == SNextFrame && Proper(r)
    ensures var e := ServerMoves(r, true);
            var t := if r.DeviceFrame? && r.pts >= 0 then Next(u, Twice(u, s, e), e) else Twice(u, s, e);
            t == s.(server := s.server.(results := s.server.results + [r]), toClient := s.toClient + Encode(r))
  {
    var e := ServerMoves(r, true);
    assert Twice(u, s, e).toClient == s.toClient + [Encode(r)[0]];
    if r.DeviceFrame? && r.pts >= 0 {
      assert Next(u, Twice(u, s, e), e).toClient == s.toClient + Encode(r);
    }
  }

  /** And a next-frame call that finds the messages of a result in the channel takes exactly these
      and returns the result. */
  lemma ClientTurn(u: Setup, s: State, r: DeviceResult, rest: seq<Message>, fds: seq<int>)
    requires s.client.pc == CReady && Proper(r) && s.toClient == Encode(r) + rest && |fds| == 4
    ensures var e := ClientMoves(fds);
            var t := if r.DeviceFrame? && r.pts >= 0 then Next(u, Twice(u, s, e), e) else Twice(u, s, e);
            && t.server == s.server && t.toServer == s.toServer && t.toClient == rest
            && t.client.pc == CReady && t.client.params == s.client.params
            && t.client.results == s.client.results + [Remote(r)]
  {
    assert s.toClient[1..] == Encode(r)[1..] + rest;
    if r.DeviceFrame? && r.pts >= 0 {
      assert s.toClient[1..][1..] == rest;
      BareWithFds(r.desc, fds);
    } else {
      assert s.toClient[1..] == rest;
    }
  }

  lemma RunNext(u: Setup, events: seq<Event>, e: Event)
    ensures Run(u, events + [e]) == Next(u, Run(u, events), e)
  {
    assert (events + [e])[..|events|] == events;
  }

  /** The client's half of the handshake needs no answer. */
  lemma ClientIntroduces(u: Setup, fds: seq<int>)
    ensures var c := ClientMoves(fds);
            Run(u, [] + [c] + [c]) == Start().(client := Start().client.(pc := CParams), toServer := Handshake(u))
  {
    var c := ClientMoves(fds);
    RunNext(u, [], c);
    RunNext(u, [] + [c], c);
  }

  /** The server takes both messages and answers. */
  lemma ServerIntroduces(u: Setup, s: State, e: Event)
    requires s.server.pc == SInfo && s.toServer == Handshake(u) && s.toClient == [] && e.ServerMoves?
    ensures var t := Next(u, Twice(u, s, e), e);
            && t.server.pc == SNextFrame && t.server.results == s.server.results
            && t.server.framerate == u.framerate && t.server.name == u.device[..NameLength(u.device)]
            && t.toServer == [] && t.toClient == [Params(u.params)] && t.client == s.client
  {
    assert s.toServer[1..] == [Handshake(u)[1]];
    assert s.toServer[1..][1..] == [];
  }

  /** The handshake comes to its end: the client sends two messages, the server takes them and
      answers, and both are ready with nothing on its way. */
  lemma HandshakeCompletes(u: Setup, r: DeviceResult, running: bool, fds: seq<int>)
    ensures var c, v := ClientMoves(fds), ServerMoves(r, running);
            var s := Run(u, [] + [c] + [c] + [v] + [v] + [v] + [c]);
            && s.server.pc == SNextFrame && s.client.pc == CReady && s.toServer == [] && s.toClient == []
            && s.server.framerate == u.framerate && s.client.params == u.params
            && s.server.results == [] && s.client.results == []
  {
    var c, v := ClientMoves(fds), ServerMoves(r, running);
    var events := [] + [c] + [c];
    ClientIntroduces(u, fds);
    ServerIntroduces(u, Run(u, events), v);
    RunNext(u, events, v);
    RunNext(u, events + [v], v);
    RunNext(u, events + [v] + [v], v);
    RunNext(u, events + [v] + [v] + [v], c);
  }

  lemma NameCut(device: string)
    ensures device[..NameLength(device)] == device <==> |device| < 256
  {
  }

  /** Once the server knows the device name, it is the configured one exactly when that is shorter
      than 256 bytes; the frame rate always arrives. */
  lemma DeviceNameArrives(u: Setup, events: seq<Event>)
    requires AllPossible(events) && ServerGot(Run(u, events).server) == 2
    ensures var v := Run(u, events).server;
            && v.framerate == u.framerate
            && (v.name == u.device <==> |u.device| < 256)
  {
    InvRun(u, events);
    NameCut(u.device);
  }
}
