// The two threads of the recorder as a step relation. The main thread encodes video, saves on
// demand and shuts down; the audio thread fills the ring. They share the ring under one mutex
// and the silence counter under another. Every shared access is a step of its own, so a run is
// any interleaving. What the outside world answers (devices, encoders, output, control) is
// chosen by the events of a run.

module Threads {
  import opened CLib
  import opened Samples
  import opened FrameCutting
  import opened AudioRing
  import opened DrainPlan
  import opened Codec
  import opened PacketWindow
  import opened SilenceLog

  datatype Thread = Main | Audio

  datatype Lock = Free | HeldBy(holder: Thread)

  // ---------- rsLogSilence, step by step ----------

  datatype LogCall =
    | NoCall
    | Enter(delta: int)     // about to take the silence mutex
    | Load(delta: int)      // about to add the counter
    | Decide(silence: int)  // about to clamp, log and set the level
    | Store(silence: int)   // about to store the counter
    | Leave                 // about to release the mutex

  datatype LogState = LogState(lock: Lock, counter: int, fatal: bool, messages: seq<Message>)

  function LogStep(l: LogState, who: Thread, call: LogCall): (LogState, LogCall) {
    match call
    case NoCall => (l, call)
    case Enter(d) => if l.lock == Free then (l.(lock := HeldBy(who)), Load(d)) else (l, call)
    case Load(d) => (l, Decide(d + l.counter))
    case Decide(v) =>
      if v <= 0 then
        (if l.counter > 0 then l.(fatal := false, messages := l.messages + [Unsilenced]) else l, Store(0))
      else
        (if l.counter == 0 then l.(fatal := true, messages := l.messages + [Silencing]) else l, Store(v))
    case Store(v) => (l.(counter := v), Leave)
    case Leave => (l.(lock := Free), NoCall)
  }

  // A thread's own part: the log call it is in, and its `silence` flag.
  datatype Caller = Caller(call: LogCall, silent: bool)

  // ---------- state ----------

  datatype MainPc =
    | MLoop | MNextPacket | MNextFrame | MSilenced | MUnsilenced | MSendFrame | MAddPacket | MControl
    | MLock | MCreate | MGetParams | MOpen | MStartTime
    | MDrain | MReadEnd | MReadStart | MSend | MFlush
    | MTrapped // an access that C does not define; nothing is known of what follows
    | MVideoWrite | MClose | MCleanup | MUnlock
    | MVideoOnly
    | MExit | MExitUnsilenced | MStopAudio | MJoin | MFree | MDone

  datatype AudioPc =
    | ALoop | ANextFrame | ASilenced | AUnsilenced
    | ALock | ACopyEnd | ACopyStart | AIndex | ASize | AEndTime | AUnlock
    | ATrapped // a frame too long for the ring; nothing is known of what follows
    | ADone

  // The local state of a save: the frames that were in the ring when it took the mutex, the
  // drain loop's variables, the encoder's side of it, and what the output got.
  datatype Save = Save(snapshot: seq<AudioFrame>, start: int, index: int, pts: int,
                       from: nat, n: nat, first: nat, buf: seq<Sample>,
                       sent: seq<EncoderInput>, pending: nat, flushed: bool,
                       produced: seq<Packet>, written: seq<Packet>)

  // A drain loop that ran to the end of its stream: what the recorder held, where the save
  // started, what the encoder got.
  datatype Drained = Drained(snapshot: seq<AudioFrame>, packets: seq<Packet>, ring: Ring, start: int,
                             sent: seq<EncoderInput>)

  // What only the audio thread writes; `base` is the ring when it last took the mutex.
  datatype AudioSide = AudioSide(pc: AudioPc, me: Caller, ring: Ring, frame: AudioFrame, base: Ring,
                                 added: seq<AudioFrame>)

  // What only the main thread writes; `packets` are all video packets added so far.
  datatype MainSide = MainSide(pc: MainPc, me: Caller, packet: Packet, packets: seq<Packet>,
                               save: Save, drained: seq<Drained>, freed: bool)

  datatype State = State(m: MainSide, a: AudioSide, ringLock: Lock, running: bool, log: LogState)

  // Who moves next, and what the outside answers: a return code, success or failure, the frame
  // or packet delivered, how much output an encoder gains.
  datatype Event = Event(who: Thread, ret: int, ok: bool, frame: AudioFrame, packet: Packet, more: nat)

  datatype Config = Config(params: AudioParams, frameSize: nat, window: Nat64)

  ghost predicate ValidConfig(c: Config) {
    c.frameSize > 0 && c.params.sampleRate > 0
  }

  /** What every step needs to stay inside the ring. */
  ghost predicate Safe(s: State) {
    && WellFormed(s.a.ring)
    && SafeRead(s.m.pc, s.m.save, |s.a.ring.slots|)
  }

  ghost predicate SafeRead(pc: MainPc, v: Save, capacity: nat) {
    && (pc.MReadEnd? ==> v.from + v.first <= capacity)
    && (pc.MReadEnd? || pc.MReadStart? || pc.MSend? ==> v.first <= v.n <= v.first + capacity)
  }

  // ---------- the audio thread ----------

  function AudioStep(s: State, e: Event): State
    requires Safe(s)
  {
    if s.a.me.call != NoCall then AudioLogs(s) else AudioLoopStep(s, e)
  }

  function AudioLogs(s: State): State {
    var (l, call) := LogStep(s.log, Audio, s.a.me.call);
    s.(log := l, a := s.a.(me := s.a.me.(call := call)))
  }

  function AudioLoopStep(s: State, e: Event): State
    requires Safe(s)
  {
    var a := s.a;
    match a.pc
    case ALoop => s.(a := a.(pc := if s.running then ANextFrame else ADone))
    case ANextFrame =>
      if e.ret < 0 then
        if a.me.silent then s.(a := a.(pc := ALoop))
        else s.(a := a.(pc := ASilenced, me := a.me.(call := Enter(1))))
      else if a.me.silent then
        s.(a := a.(pc := AUnsilenced, frame := e.frame, me := a.me.(call := Enter(-1))))
      else s.(a := a.(pc := ALock, frame := e.frame))
    case ASilenced => s.(a := a.(pc := ALoop, me := a.me.(silent := true)))
    case AUnsilenced => s.(a := a.(pc := ALock, me := a.me.(silent := false)))
    case ALock =>
      if s.ringLock == Free then s.(ringLock := HeldBy(Audio), a := a.(pc := ACopyEnd, base := a.ring)) else s
    case ACopyEnd => s.(a := a.(pc := ACopyStart, ring := CopyToEnd(a.ring, a.frame)))
    case ACopyStart =>
      if Accepts(a.ring, a.frame) then s.(a := a.(pc := AIndex, ring := CopyToStart(a.ring, a.frame)))
      else s.(a := a.(pc := ATrapped))
    case AIndex => s.(a := a.(pc := ASize, ring := MoveIndex(a.ring, a.frame)))
    case ASize => s.(a := a.(pc := AEndTime, ring := Grow(a.ring, a.frame)))
    case AEndTime => s.(a := a.(pc := AUnlock, ring := Stamp(a.ring, a.frame)))
    case AUnlock => s.(ringLock := Free, a := a.(pc := ALoop, added := a.added + [a.frame]))
    case _ => s
  }

  // ---------- the main thread ----------

  function MainStep(c: Config, s: State, e: Event): State
    requires Safe(s) && ValidConfig(c)
  {
    if s.m.me.call != NoCall then MainLogs(s)
    else if Draining(s.m.pc) then s.(m := DrainStep(c, s.m, s.a.ring, e))
    else if InSave(s.m.pc) then SaveStep(c, s, e)
    else LoopStep(c, s, e)
  }

  function MainLogs(s: State): State {
    var (l, call) := LogStep(s.log, Main, s.m.me.call);
    s.(log := l, m := s.m.(me := s.m.me.(call := call)))
  }

  /** mainStep, the main loop and the shutdown: everything outside a save with audio. */
  function LoopStep(c: Config, s: State, e: Event): State {
    var m := s.m;
    match m.pc
    case MLock =>
      if s.ringLock == Free then
        s.(ringLock := HeldBy(Main),
           m := m.(pc := MCreate, save := m.save.(snapshot := s.a.added, produced := [], written := [])))
      else s
    case MControl =>
      s.(m := m.(pc := if e.ret < 0 then MExit else if e.ret == 0 then MLoop
                       else if s.running then MLock else MVideoOnly))
    case MStopAudio => s.(m := m.(pc := MJoin), running := false)
    case MJoin => if s.a.pc == ADone then s.(m := m.(pc := MFree)) else s
    case _ => s.(m := MainAlone(c, m, e))
  }

  /** The steps of the main thread that touch nothing shared. */
  function MainAlone(c: Config, m: MainSide, e: Event): MainSide {
    match m.pc
    case MLoop => m.(pc := if e.ok then MNextPacket else MExit)
    case MNextPacket =>
      if e.ret == ERROR_AGAIN then m.(pc := MNextFrame)
      else m.(pc := MAddPacket, packet := if e.ret >= 0 then e.packet else BLANK_PACKET)
    case MNextFrame =>
      if e.ret < 0 then
        if m.me.silent then m.(pc := MControl)
        else m.(pc := MSilenced, me := m.me.(call := Enter(1)))
      else if m.me.silent then m.(pc := MUnsilenced, me := m.me.(call := Enter(-1)))
      else m.(pc := MSendFrame)
    case MSilenced => m.(pc := MControl, me := m.me.(silent := true))
    case MUnsilenced => m.(pc := MSendFrame, me := m.me.(silent := false))
    case MSendFrame => m.(pc := if e.ok then MNextPacket else MExit)
    case MAddPacket =>
      if e.ok then m.(pc := MControl, packets := m.packets + [m.packet]) else m.(pc := MExit)
    case MVideoOnly => m.(pc := MLoop)
    case MExit =>
      if m.me.silent then m.(pc := MExitUnsilenced, me := m.me.(call := Enter(-1)))
      else m.(pc := MStopAudio)
    case MExitUnsilenced => m.(pc := MStopAudio, me := m.me.(silent := false))
    case MFree => m.(pc := MDone, freed := true)
    case _ => m
  }

  /** Between locking and unlocking the audio mutex in mainOutput. */
  predicate InSave(pc: MainPc) {
    || pc.MCreate? || pc.MGetParams? || pc.MOpen? || pc.MStartTime?
    || Draining(pc) || pc.MTrapped?
    || pc.MVideoWrite? || pc.MClose? || pc.MCleanup? || pc.MUnlock?
  }

  predicate Draining(pc: MainPc) {
    pc.MDrain? || pc.MReadEnd? || pc.MReadStart? || pc.MSend? || pc.MFlush?
  }

  /** A video time in audio samples. */
  function AudioTime(c: Config, start: int): int
    requires ValidConfig(c)
  {
    Rescale(start, c.params.sampleRate, TIME_BASE)
  }

  /** Where a save from video time `start` on begins in the window, cut to an int. */
  function SaveIndex(c: Config, r: Ring, start: int): int
    requires ValidConfig(c)
  {
    ToInt32(StartIndex(r.endTime, r.size, AudioTime(c, start)))
  }

  /** mainOutput, from behind the lock to the unlock; each failure goes to the cleanup. */
  function SaveStep(c: Config, s: State, e: Event): State
    requires ValidConfig(c)
  {
    if s.m.pc == MUnlock then s.(m := s.m.(pc := MLoop), ringLock := Free)
    else s.(m := SaveAlone(c, s.m, s.a.ring, e))
  }

  function SaveAlone(c: Config, m: MainSide, r: Ring, e: Event): MainSide
    requires ValidConfig(c)
  {
    match m.pc
    case MCreate => m.(pc := if e.ok then MGetParams else MCleanup)
    case MGetParams => m.(pc := if e.ok then MOpen else MCleanup)
    case MOpen => m.(pc := if e.ok then MStartTime else MCleanup)
    case MStartTime =>
      var live := Live(m.packets, c.window);
      var k := FirstKey(live);
      if k == |live| || live[k].pts < 0 || !e.ok then m.(pc := MCleanup)
      else
        var start := live[k].pts;
        m.(pc := MDrain, save := m.save.(start := start, index := SaveIndex(c, r, start), pts := 0,
                                         sent := [], pending := 0, flushed := false))
    case MVideoWrite =>
      var saved := SavedVideo(Live(m.packets, c.window), 0);
      if e.ok then m.(pc := MClose, save := m.save.(written := m.save.written + saved))
      else m.(pc := MCleanup, save := m.save.(written := m.save.written + saved[..Min(e.more, |saved|)]))
    case MClose => m.(pc := MCleanup)
    case MCleanup => m.(pc := MUnlock)
    case _ => m
  }

  /** The loop of rsAudioBufferWrite: next packet, or feed the encoder, or end of its stream. */
  function DrainStep(c: Config, m: MainSide, r: Ring, e: Event): MainSide
    requires ValidConfig(c) && WellFormed(r) && SafeRead(m.pc, m.save, |r.slots|)
  {
    var v := m.save;
    match m.pc
    case MDrain =>
      if e.ret >= 0 && v.pending > 0 then
        if e.ok then
          m.(save := v.(pending := v.pending - 1, produced := v.produced + [e.packet],
                        written := v.written + [e.packet.(stream := 1)]))
        else m.(pc := MCleanup)
      else if e.ret < 0 && e.ret != ERROR_AGAIN && e.ret != ERROR_EOF then m.(pc := MCleanup)
      else if v.flushed then
        m.(pc := MVideoWrite, drained := m.drained + [Drained(v.snapshot, m.packets, r, v.start, v.sent)])
      else if v.index >= r.size then m.(pc := MFlush)
      else if !Defined(r, v.index, c.frameSize) then m.(pc := MTrapped)
      else
        var n, from := FrameLength(r, v.index, c.frameSize), ReadSlot(r, v.index);
        m.(pc := MReadEnd, save := v.(from := from, n := n, first := Min(n, r.size - from)))
    case MReadEnd =>
      m.(pc := MReadStart, save := v.(buf := r.slots[v.from..v.from + v.first]))
    case MReadStart =>
      m.(pc := MSend, save := v.(buf := v.buf + r.slots[..v.n - v.first]))
    case MSend =>
      if e.ok then
        m.(pc := MDrain, save := v.(sent := v.sent + [Data(v.buf, v.pts, c.params)],
                                    index := v.index + v.n, pts := v.pts + v.n, pending := v.pending + e.more))
      else m.(pc := MCleanup)
    case MFlush =>
      if e.ok then
        m.(pc := MDrain, save := v.(sent := v.sent + [Flush], flushed := true, pending := v.pending + e.more))
      else m.(pc := MCleanup)
    case _ => m
  }

  // ---------- runs ----------

  function Next(c: Config, s: State, e: Event): State
    requires Safe(s) && ValidConfig(c)
  {
    match e.who
    case Main => MainStep(c, s, e)
    case Audio => AudioStep(s, e)
  }

  lemma AudioStaysSafe(s: State, e: Event)
    requires Safe(s)
    ensures Safe(AudioLoopStep(s, e))
  {
  }

  lemma DrainStaysSafe(c: Config, m: MainSide, r: Ring, e: Event)
    requires ValidConfig(c) && WellFormed(r) && SafeRead(m.pc, m.save, |r.slots|)
    ensures var t := DrainStep(c, m, r, e); SafeRead(t.pc, t.save, |r.slots|)
  {
  }

  lemma LoopStaysSafe(c: Config, s: State, e: Event)
    requires Safe(s) && !InSave(s.m.pc)
    ensures Safe(LoopStep(c, s, e))
  {
  }

  lemma SaveStaysSafe(c: Config, s: State, e: Event)
    requires ValidConfig(c) && Safe(s) && InSave(s.m.pc) && !Draining(s.m.pc)
    ensures Safe(SaveStep(c, s, e))
  {
  }

  lemma MainStaysSafe(c: Config, s: State, e: Event)
    requires ValidConfig(c) && Safe(s)
    ensures Safe(MainStep(c, s, e))
  {
    if s.m.me.call == NoCall {
      if Draining(s.m.pc) {
        DrainStaysSafe(c, s.m, s.a.ring, e);
      } else if InSave(s.m.pc) {
        SaveStaysSafe(c, s, e);
      } else {
        LoopStaysSafe(c, s, e);
      }
    }
  }

  /** No step leaves the ring: every slot a step touches exists, whatever the interleaving. */
  lemma SafeNext(c: Config, s: State, e: Event)
    requires Safe(s) && ValidConfig(c)
    ensures Safe(Next(c, s, e))
  {
    match e.who
    case Audio =>
      if s.a.me.call == NoCall { AudioStaysSafe(s, e); }
    case Main => MainStaysSafe(c, s, e);
  }

  /** Before the first step: an empty ring, nobody in a call, the audio thread running or never
      started. */
  ghost predicate Init(s: State) {
    && s.m.pc == MLoop && s.running == (s.a.pc == ALoop) && (s.a.pc == ALoop || s.a.pc == ADone)
    && s.m.me == Caller(NoCall, false) && s.a.me == Caller(NoCall, false)
    && s.log == LogState(Free, 0, false, [])
    && s.ringLock == Free && Fresh(s.a.ring) && !s.m.freed
    && s.a.added == [] && s.m.packets == [] && s.m.drained == []
  }
}
