// The accounts of a run: what the devices, the encoders and the user gave, told by the events
// alone, against what the threads made of it. Nothing given is lost, made up or served twice.

module ThreadAccounts {
  import opened CLib
  import opened Samples
  import opened FrameCutting
  import opened AudioRing
  import opened Codec
  import opened PacketWindow
  import opened SilenceLog
  import opened Threads
  import opened ThreadSafety
  import opened ThreadSilence
  import opened ThreadRuns

  // ---------- keeping accounts over a run ----------

  /** The entries of a run, one for each event with the state it met. */
  ghost function Fold<T>(c: Config, s: State, events: seq<Event>, zero: T, entry: (T, State, Event) -> T): T
    requires ValidConfig(c) && Safe(s)
    decreases |events|
  {
    if events == [] then zero
    else
      var n := |events| - 1;
      entry(Fold(c, s, events[..n], zero, entry), Run(c, s, events[..n]), events[n])
  }

  ghost predicate KeepsAt<T>(c: Config, t: State, e: Event, b: T, entry: (T, State, Event) -> T,
                             agrees: (State, T) -> bool)
    requires ValidConfig(c)
  {
    Inv(c, t) && agrees(t, b) ==> agrees(Next(c, t, e), entry(b, t, e))
  }

  /** What each step keeps between the state and the entries holds at the end of every run. */
  lemma {:induction false} FoldKeeps<T>(c: Config, s: State, events: seq<Event>, zero: T, entry: (T, State, Event) -> T,
                                        agrees: (State, T) -> bool)
    requires ValidConfig(c) && Init(s) && agrees(s, zero)
    requires forall t, e, b :: KeepsAt(c, t, e, b, entry, agrees)
    ensures agrees(Run(c, s, events), Fold(c, s, events, zero, entry))
    decreases |events|
  {
    if events != [] {
      var n := |events| - 1;
      var t, b := Run(c, s, events[..n]), Fold(c, s, events[..n], zero, entry);
      FoldKeeps(c, s, events[..n], zero, entry, agrees);
      RunKeeps(c, s, events[..n]);
      assert KeepsAt(c, t, events[n], b, entry, agrees);
    }
  }

  function One(b: bool): nat {
    if b then 1 else 0
  }

  /** How many events met a state of this kind. */
  ghost function Count(c: Config, s: State, events: seq<Event>, kind: (State, Event) -> bool): nat
    requires ValidConfig(c) && Safe(s)
    decreases |events|
  {
    if events == [] then 0
    else
      var n := |events| - 1;
      Count(c, s, events[..n], kind) + One(kind(Run(c, s, events[..n]), events[n]))
  }

  /** A step from `s` to `t` that enters this place, leaves it, or does neither. */
  ghost predicate Flow(s: State, t: State, e: Event, enters: (State, Event) -> bool, leaves: (State, Event) -> bool,
                       at: State -> bool)
  {
    One(at(s)) + One(enters(s, e)) == One(at(t)) + One(leaves(s, e))
  }

  ghost predicate FlowsAt(c: Config, t: State, e: Event, enters: (State, Event) -> bool,
                          leaves: (State, Event) -> bool, at: State -> bool)
    requires ValidConfig(c) && Safe(t)
  {
    Flow(t, Next(c, t, e), e, enters, leaves, at)
  }

  ghost predicate Conserved(c: Config, enters: (State, Event) -> bool, leaves: (State, Event) -> bool,
                            at: State -> bool)
    requires ValidConfig(c)
  {
    forall t, e :: Inv(c, t) ==> FlowsAt(c, t, e, enters, leaves, at)
  }

  /** A thread has entered a place as often as it has left it, and once more while it is there. */
  lemma {:induction false} CountKeeps(c: Config, s: State, events: seq<Event>, enters: (State, Event) -> bool,
                                      leaves: (State, Event) -> bool, at: State -> bool)
    requires ValidConfig(c) && Init(s) && Conserved(c, enters, leaves, at)
    ensures One(at(s)) + Count(c, s, events, enters)
            == One(at(Run(c, s, events))) + Count(c, s, events, leaves)
    decreases |events|
  {
    if events != [] {
      var n := |events| - 1;
      CountKeeps(c, s, events[..n], enters, leaves, at);
      RunKeeps(c, s, events[..n]);
      assert FlowsAt(c, Run(c, s, events[..n]), events[n], enters, leaves, at);
    }
  }

  // ---------- the audio thread ----------

  /** The audio thread acts, outside the silence log. */
  predicate AudioActs(s: State, e: Event, pc: AudioPc) {
    e.who == Audio && s.a.me.call == NoCall && s.a.pc == pc
  }

  function DeliveredEntry(b: seq<AudioFrame>, s: State, e: Event): seq<AudioFrame> {
    if AudioActs(s, e, ANextFrame) && e.ret >= 0 then b + [e.frame] else b
  }

  /** The frames that the audio device delivered. */
  ghost function Delivered(c: Config, s: State, events: seq<Event>): seq<AudioFrame>
    requires ValidConfig(c) && Safe(s)
  {
    Fold(c, s, events, [], DeliveredEntry)
  }

  /** The delivered frame that is not in the ring yet. */
  function InHand(a: AudioSide): seq<AudioFrame> {
    if a.pc.AUnsilenced? || a.pc.ALock? || InAdd(a.pc) then [a.frame] else []
  }

  predicate AudioKept(s: State, b: seq<AudioFrame>) {
    s.a.added + InHand(s.a) == b
  }

  lemma AudioLoopKept(s: State, e: Event, b: seq<AudioFrame>)
    requires Safe(s) && e.who == Audio && s.a.me.call == NoCall && AudioKept(s, b)
    ensures AudioKept(AudioLoopStep(s, e), DeliveredEntry(b, s, e))
  {
  }

  lemma AudioKeptNext(c: Config, s: State, e: Event, b: seq<AudioFrame>)
    requires ValidConfig(c) && Safe(s) && AudioKept(s, b)
    ensures AudioKept(Next(c, s, e), DeliveredEntry(b, s, e))
  {
    if e.who == Main {
      MainLeavesAudio(c, s, e);
    } else if s.a.me.call == NoCall {
      AudioLoopKept(s, e, b);
    }
  }

  /** After any interleaving the frames added are those that the device delivered, all and in
      order, up to the one in hand; outside an add the ring stands for them. */
  lemma AudioAccounts(c: Config, s: State, events: seq<Event>)
    requires ValidConfig(c) && Init(s)
    ensures var t := Run(c, s, events);
            && t.a.added + InHand(t.a) == Delivered(c, s, events)
            && (!InAdd(t.a.pc) ==> Holds(t.a.ring, t.a.added))
  {
    forall t, e, b
      ensures KeepsAt(c, t, e, b, DeliveredEntry, AudioKept)
    {
      if Inv(c, t) && AudioKept(t, b) {
        AudioKeptNext(c, t, e, b);
      }
    }
    FoldKeeps(c, s, events, [], DeliveredEntry, AudioKept);
    RunKeeps(c, s, events);
  }

  // ---------- the main thread: packets ----------

  /** The main thread acts, outside the silence log. */
  predicate MainActs(s: State, e: Event, pc: MainPc) {
    e.who == Main && s.m.me.call == NoCall && s.m.pc == pc
  }

  function HandedEntry(b: seq<Packet>, s: State, e: Event): seq<Packet> {
    if !MainActs(s, e, MNextPacket) || e.ret == ERROR_AGAIN then b
    else b + [if e.ret < 0 then BLANK_PACKET else e.packet]
  }

  /** The packets that the video encoder handed out, a blank one for each error. */
  ghost function Handed(c: Config, s: State, events: seq<Event>): seq<Packet>
    requires ValidConfig(c) && Safe(s)
  {
    Fold(c, s, events, [], HandedEntry)
  }

  predicate PacketsKept(s: State, b: seq<Packet>) {
    Kept(s.m, b)
  }

  predicate Kept(m: MainSide, b: seq<Packet>) {
    || m.packets + (if m.pc.MAddPacket? then [m.packet] else []) == b
    || (Leaving(m.pc) && m.packets + [m.packet] == b)
  }

  /** Behind the main loop. */
  predicate Leaving(pc: MainPc) {
    pc.MExit? || pc.MExitUnsilenced? || Stopped(pc)
  }

  /** Behind its last call of the silence log. */
  predicate Stopped(pc: MainPc) {
    pc.MStopAudio? || pc.MJoin? || pc.MFree? || pc.MDone?
  }

  lemma AlonePackets(c: Config, s: State, e: Event, b: seq<Packet>)
    requires e.who == Main && s.m.me.call == NoCall && !InSave(s.m.pc) && Kept(s.m, b)
    ensures Kept(MainAlone(c, s.m, e), HandedEntry(b, s, e))
  {
  }

  lemma LoopPackets(c: Config, s: State, e: Event, b: seq<Packet>)
    requires e.who == Main && s.m.me.call == NoCall && !InSave(s.m.pc) && Kept(s.m, b)
    ensures Kept(LoopStep(c, s, e).m, HandedEntry(b, s, e))
  {
    AlonePackets(c, s, e, b);
  }

  /** A step in a save touches nothing of this, and stays in the save or leads back to the loop. */
  lemma SaveOutside(c: Config, s: State, e: Event)
    requires ValidConfig(c) && Safe(s) && InSave(s.m.pc) && s.m.me.call == NoCall
    ensures var t := MainStep(c, s, e);
            && t.m.packets == s.m.packets && t.m.packet == s.m.packet && t.m.me == s.m.me
            && t.m.freed == s.m.freed && t.running == s.running
            && (if s.m.pc == MUnlock then t.m.pc == MLoop else InSave(t.m.pc))
  {
    if Draining(s.m.pc) {
      DrainOutside(c, s.m, s.a.ring, e);
    }
  }

  lemma DrainOutside(c: Config, m: MainSide, r: Ring, e: Event)
    requires ValidConfig(c) && WellFormed(r) && SafeRead(m.pc, m.save, |r.slots|) && Draining(m.pc)
    ensures var t := DrainStep(c, m, r, e);
            && t.packets == m.packets && t.packet == m.packet && t.me == m.me && t.freed == m.freed
            && InSave(t.pc)
  {
  }

  lemma PacketsKeptNext(c: Config, s: State, e: Event, b: seq<Packet>)
    requires ValidConfig(c) && Safe(s) && PacketsKept(s, b)
    ensures PacketsKept(Next(c, s, e), HandedEntry(b, s, e))
  {
    if e.who == Main && s.m.me.call == NoCall {
      if InSave(s.m.pc) {
        SaveOutside(c, s, e);
      } else {
        LoopPackets(c, s, e, b);
      }
    }
  }

  /** After any interleaving the packets in the buffer's history are those that the encoder handed
      out, all and in order, less the one in hand, or the last when the buffer refused it, which
      ends the loop. */
  lemma PacketAccounts(c: Config, s: State, events: seq<Event>)
    requires ValidConfig(c) && Init(s)
    ensures var t, handed := Run(c, s, events), Handed(c, s, events);
            if t.m.pc == MAddPacket then t.m.packets + [t.m.packet] == handed
            else t.m.packets == handed
                 || (Leaving(t.m.pc) && handed != [] && t.m.packets == handed[..|handed| - 1])
  {
    forall t, e, b
      ensures KeepsAt(c, t, e, b, HandedEntry, PacketsKept)
    {
      if Inv(c, t) && PacketsKept(t, b) {
        PacketsKeptNext(c, t, e, b);
      }
    }
    FoldKeeps(c, s, events, [], HandedEntry, PacketsKept);
  }

  // ---------- places: what leads to them and what leaves them ----------

  predicate Never(s: State, e: Event) { false }

  predicate Finds(s: State, e: Event) { AudioActs(s, e, ALoop) && s.running }
  predicate Listens(s: State, e: Event) { AudioActs(s, e, ANextFrame) }
  predicate AtMicrophone(s: State) { s.a.pc.ANextFrame? }

  predicate Rounds(s: State, e: Event) { (Listens(s, e) && e.ret < 0) || AudioActs(s, e, AUnlock) }
  predicate Turns(s: State, e: Event) { AudioActs(s, e, ALoop) }
  predicate AtTop(s: State) { s.a.pc.ALoop? || s.a.pc.ASilenced? }

  predicate Halts(s: State, e: Event) { AudioActs(s, e, ALoop) && !s.running }
  predicate AtEnd(s: State) { s.a.pc.ADone? }

  /** The audio thread asks its device once for every time it finds the recorder running, comes back
      after every answer, and ends when it finds it stopped. */
  lemma AudioFlows(c: Config, s: State, e: Event)
    requires ValidConfig(c) && Safe(s)
    ensures FlowsAt(c, s, e, Finds, Listens, AtMicrophone)
    ensures FlowsAt(c, s, e, Rounds, Turns, AtTop)
    ensures FlowsAt(c, s, e, Halts, Never, AtEnd)
  {
    if e.who == Main {
      MainLeavesAudio(c, s, e);
    }
  }

  /** The accounts of the audio loop. After any interleaving it has asked its device once for every
      time it found the recorder running, and come back for another look after every frame missed
      or added; it has ended, if it was started, just when it found the recorder stopped. */
  lemma ListenAccounts(c: Config, s: State, events: seq<Event>)
    requires ValidConfig(c) && Init(s)
    ensures var t := Run(c, s, events);
            && Count(c, s, events, Finds) == Count(c, s, events, Listens) + One(AtMicrophone(t))
            && One(s.running) + Count(c, s, events, Rounds) == Count(c, s, events, Turns) + One(AtTop(t))
            && One(!s.running) + Count(c, s, events, Halts) == One(AtEnd(t))
  {
    forall t, e | Inv(c, t)
      ensures FlowsAt(c, t, e, Finds, Listens, AtMicrophone)
      ensures FlowsAt(c, t, e, Rounds, Turns, AtTop)
      ensures FlowsAt(c, t, e, Halts, Never, AtEnd)
    {
      AudioFlows(c, t, e);
    }
    CountKeeps(c, s, events, Finds, Listens, AtMicrophone);
    CountKeeps(c, s, events, Rounds, Turns, AtTop);
    CountKeeps(c, s, events, Halts, Never, AtEnd);
    NeverHappens(c, s, events);
  }

  predicate Asks(s: State, e: Event) { (MainActs(s, e, MLoop) || MainActs(s, e, MSendFrame)) && e.ok }
  predicate Polls(s: State, e: Event) { MainActs(s, e, MNextPacket) }
  predicate AtEncoder(s: State) { s.m.pc.MNextPacket? }

  predicate Starves(s: State, e: Event) { Polls(s, e) && e.ret == ERROR_AGAIN }
  predicate Grabs(s: State, e: Event) { MainActs(s, e, MNextFrame) }
  predicate AtDevice(s: State) { s.m.pc.MNextFrame? }

  predicate Grabbed(s: State, e: Event) { Grabs(s, e) && e.ret >= 0 }
  predicate Sends(s: State, e: Event) { MainActs(s, e, MSendFrame) }
  predicate AtSend(s: State) { s.m.pc.MUnsilenced? || s.m.pc.MSendFrame? }

  predicate Settles(s: State, e: Event) { (MainActs(s, e, MAddPacket) && e.ok) || (Grabs(s, e) && e.ret < 0) }
  predicate Looks(s: State, e: Event) { MainActs(s, e, MControl) }
  predicate AtControl(s: State) { s.m.pc.MSilenced? || s.m.pc.MControl? }

  predicate Requests(s: State, e: Event) { Looks(s, e) && e.ret > 0 && s.running }
  predicate Locks(s: State, e: Event) { MainActs(s, e, MLock) && s.ringLock == Free }
  predicate AtLock(s: State) { s.m.pc.MLock? }

  predicate Unlocks(s: State, e: Event) { MainActs(s, e, MUnlock) }
  predicate AtSave(s: State) { InSave(s.m.pc) }

  predicate VideoRequests(s: State, e: Event) { Looks(s, e) && e.ret > 0 && !s.running }
  predicate VideoSaves(s: State, e: Event) { MainActs(s, e, MVideoOnly) }
  predicate AtVideoOnly(s: State) { s.m.pc.MVideoOnly? }

  predicate Returns(s: State, e: Event) { (Looks(s, e) && e.ret == 0) || Unlocks(s, e) || VideoSaves(s, e) }
  predicate Loops(s: State, e: Event) { MainActs(s, e, MLoop) }
  predicate AtLoop(s: State) { s.m.pc.MLoop? }

  predicate Quits(s: State, e: Event) {
    || ((Loops(s, e) || Sends(s, e) || MainActs(s, e, MAddPacket)) && !e.ok)
    || (Looks(s, e) && e.ret < 0)
  }
  predicate AtExit(s: State) { Leaving(s.m.pc) }

  lemma LoopAsks(c: Config, s: State, e: Event)
    requires MainActs(s, e, s.m.pc) && !InSave(s.m.pc)
    ensures Flow(s, LoopStep(c, s, e), e, Asks, Polls, AtEncoder)
  {
  }

  lemma LoopStarves(c: Config, s: State, e: Event)
    requires MainActs(s, e, s.m.pc) && !InSave(s.m.pc)
    ensures Flow(s, LoopStep(c, s, e), e, Starves, Grabs, AtDevice)
  {
  }

  lemma LoopGrabbed(c: Config, s: State, e: Event)
    requires MainActs(s, e, s.m.pc) && !InSave(s.m.pc)
    ensures Flow(s, LoopStep(c, s, e), e, Grabbed, Sends, AtSend)
  {
  }

  lemma LoopSettles(c: Config, s: State, e: Event)
    requires MainActs(s, e, s.m.pc) && !InSave(s.m.pc)
    ensures Flow(s, LoopStep(c, s, e), e, Settles, Looks, AtControl)
  {
  }

  lemma LoopRequests(c: Config, s: State, e: Event)
    requires MainActs(s, e, s.m.pc) && !InSave(s.m.pc)
    ensures Flow(s, LoopStep(c, s, e), e, Requests, Locks, AtLock)
  {
  }

  lemma LoopLocks(c: Config, s: State, e: Event)
    requires MainActs(s, e, s.m.pc) && !InSave(s.m.pc)
    ensures Flow(s, LoopStep(c, s, e), e, Locks, Unlocks, AtSave)
  {
  }

  lemma LoopVideoRequests(c: Config, s: State, e: Event)
    requires MainActs(s, e, s.m.pc) && !InSave(s.m.pc)
    ensures Flow(s, LoopStep(c, s, e), e, VideoRequests, VideoSaves, AtVideoOnly)
  {
  }

  lemma LoopReturns(c: Config, s: State, e: Event)
    requires MainActs(s, e, s.m.pc) && !InSave(s.m.pc)
    ensures Flow(s, LoopStep(c, s, e), e, Returns, Loops, AtLoop)
  {
  }

  lemma LoopQuits(c: Config, s: State, e: Event)
    requires MainActs(s, e, s.m.pc) && !InSave(s.m.pc)
    ensures Flow(s, LoopStep(c, s, e), e, Quits, Never, AtExit)
  {
  }

  /** The places where the main thread makes packets of frames. */
  ghost predicate FrameFlows(s: State, t: State, e: Event) {
    && Flow(s, t, e, Asks, Polls, AtEncoder)
    && Flow(s, t, e, Starves, Grabs, AtDevice)
    && Flow(s, t, e, Grabbed, Sends, AtSend)
    && Flow(s, t, e, Settles, Looks, AtControl)
  }

  /** Those where it serves the user. */
  ghost predicate RequestFlows(s: State, t: State, e: Event) {
    && Flow(s, t, e, Requests, Locks, AtLock)
    && Flow(s, t, e, Locks, Unlocks, AtSave)
    && Flow(s, t, e, VideoRequests, VideoSaves, AtVideoOnly)
    && Flow(s, t, e, Returns, Loops, AtLoop)
    && Flow(s, t, e, Quits, Never, AtExit)
  }

  ghost predicate Flows(s: State, t: State, e: Event) {
    FrameFlows(s, t, e) && RequestFlows(s, t, e)
  }

  lemma SaveIsNoPlace(pc: MainPc)
    requires InSave(pc)
    ensures !(pc.MLoop? || pc.MNextPacket? || pc.MNextFrame? || pc.MUnsilenced? || pc.MSendFrame? || pc.MAddPacket?)
    ensures !(pc.MSilenced? || pc.MControl? || pc.MLock? || pc.MVideoOnly? || Leaving(pc))
  {
  }

  lemma InsideFrameFlows(s: State, t: State, e: Event)
    requires MainActs(s, e, s.m.pc) && InSave(s.m.pc) && (InSave(t.m.pc) || t.m.pc == MLoop)
    ensures FrameFlows(s, t, e)
  {
    SaveIsNoPlace(s.m.pc);
    if InSave(t.m.pc) {
      SaveIsNoPlace(t.m.pc);
    }
  }

  lemma InsideRequestFlows(s: State, t: State, e: Event)
    requires MainActs(s, e, s.m.pc) && InSave(s.m.pc) && s.m.pc != MUnlock && InSave(t.m.pc)
    ensures RequestFlows(s, t, e)
  {
    SaveIsNoPlace(s.m.pc);
    SaveIsNoPlace(t.m.pc);
  }

  lemma UnlockFlows(s: State, t: State, e: Event)
    requires MainActs(s, e, MUnlock) && t.m.pc == MLoop
    ensures RequestFlows(s, t, e)
  {
  }

  lemma IdleFlows(s: State, t: State, e: Event)
    requires (e.who == Audio || s.m.me.call != NoCall) && t.m.pc == s.m.pc
    ensures Flows(s, t, e)
  {
  }

  lemma LoopFlows(c: Config, s: State, e: Event)
    requires MainActs(s, e, s.m.pc) && !InSave(s.m.pc)
    ensures Flows(s, LoopStep(c, s, e), e)
  {
    LoopAsks(c, s, e);
    LoopStarves(c, s, e);
    LoopGrabbed(c, s, e);
    LoopSettles(c, s, e);
    LoopRequests(c, s, e);
    LoopLocks(c, s, e);
    LoopVideoRequests(c, s, e);
    LoopReturns(c, s, e);
    LoopQuits(c, s, e);
  }

  lemma MainFlows(c: Config, s: State, e: Event)
    requires ValidConfig(c) && Safe(s)
    ensures Flows(s, Next(c, s, e), e)
  {
    var t := Next(c, s, e);
    if e.who == Audio || s.m.me.call != NoCall {
      IdleFlows(s, t, e);
    } else if InSave(s.m.pc) {
      SaveOutside(c, s, e);
      InsideFrameFlows(s, t, e);
      if s.m.pc == MUnlock {
        UnlockFlows(s, t, e);
      } else {
        InsideRequestFlows(s, t, e);
      }
    } else {
      LoopFlows(c, s, e);
    }
  }

  lemma {:induction false} NeverHappens(c: Config, s: State, events: seq<Event>)
    requires ValidConfig(c) && Safe(s)
    ensures Count(c, s, events, Never) == 0
    decreases |events|
  {
    if events != [] {
      NeverHappens(c, s, events[..|events| - 1]);
    }
  }

  lemma MainFlowsInRuns(c: Config)
    requires ValidConfig(c)
    ensures Conserved(c, Asks, Polls, AtEncoder)
    ensures Conserved(c, Starves, Grabs, AtDevice)
    ensures Conserved(c, Grabbed, Sends, AtSend)
    ensures Conserved(c, Settles, Looks, AtControl)
    ensures Conserved(c, Requests, Locks, AtLock)
    ensures Conserved(c, Locks, Unlocks, AtSave)
    ensures Conserved(c, VideoRequests, VideoSaves, AtVideoOnly)
    ensures Conserved(c, Returns, Loops, AtLoop)
    ensures Conserved(c, Quits, Never, AtExit)
  {
    forall t, e | Inv(c, t)
      ensures FlowsAt(c, t, e, Asks, Polls, AtEncoder)
      ensures FlowsAt(c, t, e, Starves, Grabs, AtDevice)
      ensures FlowsAt(c, t, e, Grabbed, Sends, AtSend)
      ensures FlowsAt(c, t, e, Settles, Looks, AtControl)
      ensures FlowsAt(c, t, e, Requests, Locks, AtLock)
      ensures FlowsAt(c, t, e, Locks, Unlocks, AtSave)
      ensures FlowsAt(c, t, e, VideoRequests, VideoSaves, AtVideoOnly)
      ensures FlowsAt(c, t, e, Returns, Loops, AtLoop)
      ensures FlowsAt(c, t, e, Quits, Never, AtExit)
    {
      MainFlows(c, t, e);
    }
  }

  /** The accounts of the main loop. After any interleaving it has asked the encoder once for every
      turn and for every frame sent, the device once for every time the encoder had no packet, has
      sent every frame grabbed, and looked at the controls once for every packet stored and every
      frame missed: each up to the step it is at. */
  lemma FrameAccounts(c: Config, s: State, events: seq<Event>)
    requires ValidConfig(c) && Init(s)
    ensures var t := Run(c, s, events);
            && Count(c, s, events, Asks) == Count(c, s, events, Polls) + One(AtEncoder(t))
            && Count(c, s, events, Starves) == Count(c, s, events, Grabs) + One(AtDevice(t))
            && Count(c, s, events, Grabbed) == Count(c, s, events, Sends) + One(AtSend(t))
            && Count(c, s, events, Settles) == Count(c, s, events, Looks) + One(AtControl(t))
  {
    MainFlowsInRuns(c);
    CountKeeps(c, s, events, Asks, Polls, AtEncoder);
    CountKeeps(c, s, events, Starves, Grabs, AtDevice);
    CountKeeps(c, s, events, Grabbed, Sends, AtSend);
    CountKeeps(c, s, events, Settles, Looks, AtControl);
  }

  /** It has served every request for a save once, with audio by one save that takes the mutex once
      and frees it once, has come back to the loop from each, and has left the loop once if there
      was a reason to, and not otherwise. */
  lemma RequestAccounts(c: Config, s: State, events: seq<Event>)
    requires ValidConfig(c) && Init(s)
    ensures var t := Run(c, s, events);
            && Count(c, s, events, Requests) == Count(c, s, events, Locks) + One(AtLock(t))
            && Count(c, s, events, Locks) == Count(c, s, events, Unlocks) + One(AtSave(t))
            && Count(c, s, events, VideoRequests) == Count(c, s, events, VideoSaves) + One(AtVideoOnly(t))
            && 1 + Count(c, s, events, Returns) == Count(c, s, events, Loops) + One(AtLoop(t))
            && Count(c, s, events, Quits) == One(AtExit(t))
  {
    MainFlowsInRuns(c);
    CountKeeps(c, s, events, Requests, Locks, AtLock);
    CountKeeps(c, s, events, Locks, Unlocks, AtSave);
    CountKeeps(c, s, events, VideoRequests, VideoSaves, AtVideoOnly);
    CountKeeps(c, s, events, Returns, Loops, AtLoop);
    CountKeeps(c, s, events, Quits, Never, AtExit);
    NeverHappens(c, s, events);
  }

  // ---------- silence and shutdown ----------

  function MissedEntry(b: bool, s: State, e: Event): bool {
    if Grabs(s, e) then e.ret < 0 else b
  }

  function UnheardEntry(b: bool, s: State, e: Event): bool {
    if Listens(s, e) then e.ret < 0 else b
  }

  predicate MainSilent(s: State, missed: bool) {
    s.m.me.silent == (if s.m.pc.MSilenced? || s.m.pc.MUnsilenced? then !missed else missed && !Stopped(s.m.pc))
  }

  predicate AudioSilent(s: State, missed: bool) {
    s.a.me.silent == (if AudioCalling(s.a.pc) then !missed else missed)
  }

  lemma AloneSilent(c: Config, s: State, e: Event, b: bool)
    requires MainActs(s, e, s.m.pc) && !InSave(s.m.pc) && MainFlag(s.m.pc, s.m.me) && MainSilent(s, b)
    ensures MainSilent(s.(m := MainAlone(c, s.m, e)), MissedEntry(b, s, e))
  {
  }

  lemma LoopSilent(c: Config, s: State, e: Event, b: bool)
    requires MainActs(s, e, s.m.pc) && !InSave(s.m.pc) && MainFlag(s.m.pc, s.m.me) && MainSilent(s, b)
    ensures MainSilent(LoopStep(c, s, e), MissedEntry(b, s, e))
  {
    AloneSilent(c, s, e, b);
  }

  lemma MainSilentNext(c: Config, s: State, e: Event, b: bool)
    requires ValidConfig(c) && Safe(s) && MainFlag(s.m.pc, s.m.me) && MainSilent(s, b)
    ensures MainSilent(Next(c, s, e), MissedEntry(b, s, e))
  {
    if e.who == Main && s.m.me.call == NoCall {
      if InSave(s.m.pc) {
        SaveOutside(c, s, e);
      } else {
        LoopSilent(c, s, e, b);
      }
    }
  }

  lemma AudioSilentNext(c: Config, s: State, e: Event, b: bool)
    requires ValidConfig(c) && Safe(s) && AudioFlag(s.a.pc, s.a.me) && AudioSilent(s, b)
    ensures AudioSilent(Next(c, s, e), UnheardEntry(b, s, e))
  {
    if e.who == Main {
      MainLeavesAudio(c, s, e);
    }
  }

  /** A thread counts as silenced just when the last answer of its device was a failure, apart from
      the call of the log in between, and the main thread no longer when it has left. */
  lemma SilenceAccounts(c: Config, s: State, events: seq<Event>)
    requires ValidConfig(c) && Init(s)
    ensures var t := Run(c, s, events);
            && MainSilent(t, Fold(c, s, events, false, MissedEntry))
            && AudioSilent(t, Fold(c, s, events, false, UnheardEntry))
  {
    forall t, e, b
      ensures KeepsAt(c, t, e, b, MissedEntry, MainSilent)
      ensures KeepsAt(c, t, e, b, UnheardEntry, AudioSilent)
    {
      if Inv(c, t) && MainSilent(t, b) {
        MainSilentNext(c, t, e, b);
      }
      if Inv(c, t) && AudioSilent(t, b) {
        AudioSilentNext(c, t, e, b);
      }
    }
    FoldKeeps(c, s, events, false, MissedEntry, MainSilent);
    FoldKeeps(c, s, events, false, UnheardEntry, AudioSilent);
  }

  /** The audio thread is told to stop before it is joined, and not before; the ring is freed at
      the end, and not before. */
  ghost predicate Stopping(s: State, started: bool) {
    && (s.running <==> started && !(s.m.pc.MJoin? || s.m.pc.MFree? || s.m.pc.MDone?))
    && (s.m.freed <==> s.m.pc.MDone?)
    && (s.running ==> !s.a.pc.ADone?)
  }

  lemma LoopStopping(c: Config, s: State, e: Event, started: bool)
    requires !InSave(s.m.pc) && Stopping(s, started)
    ensures Stopping(LoopStep(c, s, e), started)
  {
  }

  lemma StoppingNext(c: Config, s: State, e: Event, started: bool)
    requires ValidConfig(c) && Safe(s) && Stopping(s, started)
    ensures Stopping(Next(c, s, e), started)
  {
    if e.who == Main && s.m.me.call == NoCall {
      MainLeavesAudio(c, s, e);
      if InSave(s.m.pc) {
        SaveOutside(c, s, e);
      } else {
        LoopStopping(c, s, e, started);
      }
    }
  }

  lemma {:induction false} StopsInOrder(c: Config, s: State, events: seq<Event>)
    requires ValidConfig(c) && Init(s)
    ensures Stopping(Run(c, s, events), s.running)
    decreases |events|
  {
    if events != [] {
      var n := |events| - 1;
      StopsInOrder(c, s, events[..n]);
      StoppingNext(c, Run(c, s, events[..n]), events[n], s.running);
    }
  }
}
