// The silence counter under both threads: each raises it when its device starts to fail and
// lowers it when frames come again. Every access is a step of its own.

module ThreadSilence {
  import opened SilenceLog
  import opened Threads

  // The thread is in a rsLogSilence call, or has just returned from one and not yet set its flag.
  predicate MainCalling(pc: MainPc) {
    pc.MSilenced? || pc.MUnsilenced? || pc.MExitUnsilenced?
  }

  predicate AudioCalling(pc: AudioPc) {
    pc.ASilenced? || pc.AUnsilenced?
  }

  function Delta(k: Caller): int {
    if k.silent then -1 else 1
  }

  /** 1 for a thread between its +1 and its -1, that is from the moment the +1 is stored to the
      moment the -1 is. */
  function Raised(k: Caller, calling: bool): nat {
    if calling && (k.call == NoCall || k.call == Leave) then (if k.silent then 0 else 1)
    else (if k.silent then 1 else 0)
  }

  ghost predicate CallerInv(log: LogState, who: Thread, k: Caller, calling: bool) {
    && (k.call != NoCall ==> calling)
    && (k.call.Enter? || k.call.Load? ==> k.call.delta == Delta(k))
    && (k.call.Decide? || k.call.Store? ==> k.call.silence == log.counter + Delta(k))
    && (log.lock == HeldBy(who) <==> k.call.Load? || k.call.Decide? || k.call.Store? || k.call.Leave?)
  }

  // The value the level and the messages stand for: the counter, or what is about to be stored.
  function Level(log: LogState, m: Caller, a: Caller): int {
    if m.call.Store? then m.call.silence else if a.call.Store? then a.call.silence else log.counter
  }

  /** The counter is the number of raised threads; level and messages agree with it. */
  ghost predicate LogInv(log: LogState, m: Caller, mainCalling: bool, a: Caller, audioCalling: bool) {
    && CallerInv(log, Main, m, mainCalling)
    && CallerInv(log, Audio, a, audioCalling)
    && log.counter == Raised(m, mainCalling) + Raised(a, audioCalling)
    && Level(log, m, a) >= 0
    && Consistent(Level(log, m, a), log.fatal, log.messages)
  }

  ghost predicate MainFlag(pc: MainPc, m: Caller) {
    && (pc.MSilenced? ==> !m.silent)
    && (pc.MUnsilenced? || pc.MExitUnsilenced? ==> m.silent)
    && (pc.MStopAudio? || pc.MJoin? || pc.MFree? || pc.MDone? ==> !m.silent)
  }

  ghost predicate AudioFlag(pc: AudioPc, a: Caller) {
    && (pc.ASilenced? ==> !a.silent)
    && (pc.AUnsilenced? ==> a.silent)
  }

  ghost predicate SilenceInv(s: State) {
    && LogInv(s.log, s.m.me, MainCalling(s.m.pc), s.a.me, AudioCalling(s.a.pc))
    && MainFlag(s.m.pc, s.m.me) && AudioFlag(s.a.pc, s.a.me)
  }

  /** How a thread outside a call may change its own part: it starts a call, or returns from one
      by setting its flag, or does neither. */
  ghost predicate CallerMoves(calling: bool, k: Caller, calling': bool, k': Caller) {
    if calling then !calling' && k' == Caller(NoCall, !k.silent)
    else if calling' then k' == k.(call := Enter(Delta(k)))
    else k' == k
  }

  lemma MainCallerKeeps(log: LogState, m: Caller, mainCalling: bool, a: Caller, audioCalling: bool,
                        m': Caller, mainCalling': bool)
    requires LogInv(log, m, mainCalling, a, audioCalling) && m.call == NoCall
    requires CallerMoves(mainCalling, m, mainCalling', m')
    ensures LogInv(log, m', mainCalling', a, audioCalling)
  {
  }

  lemma AudioCallerKeeps(log: LogState, m: Caller, mainCalling: bool, a: Caller, audioCalling: bool,
                         a': Caller, audioCalling': bool)
    requires LogInv(log, m, mainCalling, a, audioCalling) && a.call == NoCall
    requires CallerMoves(audioCalling, a, audioCalling', a')
    ensures LogInv(log, m, mainCalling, a', audioCalling')
  {
  }

  lemma MainLogKeeps(log: LogState, m: Caller, a: Caller, audioCalling: bool)
    requires LogInv(log, m, true, a, audioCalling) && m.call != NoCall
    ensures var (l, call) := LogStep(log, Main, m.call);
            LogInv(l, m.(call := call), true, a, audioCalling)
  {
  }

  lemma AudioLogKeeps(log: LogState, m: Caller, mainCalling: bool, a: Caller)
    requires LogInv(log, m, mainCalling, a, true) && a.call != NoCall
    ensures var (l, call) := LogStep(log, Audio, a.call);
            LogInv(l, m, mainCalling, a.(call := call), true)
  {
  }

  lemma AudioLogsKeep(s: State)
    requires SilenceInv(s) && s.a.me.call != NoCall
    ensures SilenceInv(AudioLogs(s))
  {
    AudioLogKeeps(s.log, s.m.me, MainCalling(s.m.pc), s.a.me);
  }

  lemma MainLogsKeep(s: State)
    requires SilenceInv(s) && s.m.me.call != NoCall
    ensures SilenceInv(MainLogs(s))
  {
    MainLogKeeps(s.log, s.m.me, s.a.me, AudioCalling(s.a.pc));
  }

  lemma AudioCalls(s: State, e: Event)
    requires Safe(s) && s.a.me.call == NoCall && AudioFlag(s.a.pc, s.a.me)
    ensures var t := AudioLoopStep(s, e);
            && t.log == s.log && t.m == s.m && AudioFlag(t.a.pc, t.a.me)
            && CallerMoves(AudioCalling(s.a.pc), s.a.me, AudioCalling(t.a.pc), t.a.me)
  {
  }

  lemma MainAloneCalls(c: Config, m: MainSide, e: Event)
    requires m.me.call == NoCall && MainFlag(m.pc, m.me)
    ensures var t := MainAlone(c, m, e);
            MainFlag(t.pc, t.me) && CallerMoves(MainCalling(m.pc), m.me, MainCalling(t.pc), t.me)
  {
  }

  lemma LoopCalls(c: Config, s: State, e: Event)
    requires s.m.me.call == NoCall && MainFlag(s.m.pc, s.m.me) && !InSave(s.m.pc)
    ensures var t := LoopStep(c, s, e);
            && t.log == s.log && t.a == s.a && MainFlag(t.m.pc, t.m.me)
            && CallerMoves(MainCalling(s.m.pc), s.m.me, MainCalling(t.m.pc), t.m.me)
  {
    MainAloneCalls(c, s.m, e);
  }

  lemma SaveCalls(c: Config, s: State, e: Event)
    requires ValidConfig(c) && InSave(s.m.pc) && !Draining(s.m.pc)
    ensures var t := SaveStep(c, s, e);
            && t.m.me == s.m.me && !MainCalling(t.m.pc) && MainFlag(t.m.pc, t.m.me)
            && t.a == s.a && t.log == s.log
  {
  }

  lemma DrainCalls(c: Config, s: State, e: Event)
    requires ValidConfig(c) && Safe(s) && Draining(s.m.pc)
    ensures var t := DrainStep(c, s.m, s.a.ring, e);
            t.me == s.m.me && !MainCalling(t.pc) && MainFlag(t.pc, t.me)
  {
  }

  lemma AudioKeepsSilence(c: Config, s: State, e: Event)
    requires ValidConfig(c) && Safe(s) && SilenceInv(s) && e.who == Audio
    ensures SilenceInv(Next(c, s, e))
  {
    if s.a.me.call == NoCall {
      var t := AudioLoopStep(s, e);
      AudioCalls(s, e);
      AudioCallerKeeps(s.log, s.m.me, MainCalling(s.m.pc), s.a.me, AudioCalling(s.a.pc), t.a.me, AudioCalling(t.a.pc));
    } else {
      AudioLogsKeep(s);
    }
  }

  lemma MainCalls(c: Config, s: State, e: Event)
    requires ValidConfig(c) && Safe(s) && s.m.me.call == NoCall && MainFlag(s.m.pc, s.m.me)
    ensures var t := MainStep(c, s, e);
            && t.log == s.log && t.a == s.a && MainFlag(t.m.pc, t.m.me)
            && CallerMoves(MainCalling(s.m.pc), s.m.me, MainCalling(t.m.pc), t.m.me)
  {
    if Draining(s.m.pc) {
      DrainCalls(c, s, e);
    } else if InSave(s.m.pc) {
      SaveCalls(c, s, e);
    } else {
      LoopCalls(c, s, e);
    }
  }

  lemma MainKeepsSilence(c: Config, s: State, e: Event)
    requires ValidConfig(c) && Safe(s) && SilenceInv(s) && e.who == Main
    ensures SilenceInv(Next(c, s, e))
  {
    if s.m.me.call == NoCall {
      var t := MainStep(c, s, e);
      MainCalls(c, s, e);
      MainCallerKeeps(s.log, s.m.me, MainCalling(s.m.pc), s.a.me, AudioCalling(s.a.pc), t.m.me, MainCalling(t.m.pc));
    } else {
      MainLogsKeep(s);
    }
  }

  /** Every step of either thread keeps the counter exact. */
  lemma SilenceNext(c: Config, s: State, e: Event)
    requires ValidConfig(c) && Safe(s) && SilenceInv(s)
    ensures SilenceInv(Next(c, s, e))
  {
    match e.who
    case Audio => AudioKeepsSilence(c, s, e);
    case Main => MainKeepsSilence(c, s, e);
  }

  /** The clamp at zero never has anything to cut off: what a call is about to clamp is what the
      counter will be, and it is not negative. */
  lemma ClampNeverCuts(s: State)
    requires SilenceInv(s)
    ensures s.m.me.call.Decide? ==> s.m.me.call.silence >= 0
    ensures s.a.me.call.Decide? ==> s.a.me.call.silence >= 0
  {
  }

  // ---------- a whole call ----------

  function CallSteps(l: LogState, who: Thread, call: LogCall, n: nat): (LogState, LogCall)
    decreases n
  {
    if n == 0 then (l, call)
    else var (l', call') := LogStep(l, who, call); CallSteps(l', who, call', n - 1)
  }

  /** Run without interruption, the five steps are one rsLogSilence call. */
  lemma CallIsSilence(l: LogState, who: Thread, delta: int)
    requires l.lock == Free && l.counter >= 0
    ensures CallSteps(l, who, Enter(delta), 5)
            == (LogState(Free, NewCounter(l.counter, delta), (CallSteps(l, who, Enter(delta), 5)).0.fatal,
                         l.messages + MessageOf(l.counter, delta)), NoCall)
    ensures Consistent(l.counter, l.fatal, l.messages) ==>
              (CallSteps(l, who, Enter(delta), 5).0.fatal <==> NewCounter(l.counter, delta) > 0)
  {
    var (l1, c1) := LogStep(l, who, Enter(delta));
    var (l2, c2) := LogStep(l1, who, c1);
    var (l3, c3) := LogStep(l2, who, c2);
    var (l4, c4) := LogStep(l3, who, c3);
    var (l5, c5) := LogStep(l4, who, c4);
    assert CallSteps(l4, who, c4, 1) == (l5, c5);
    assert CallSteps(l3, who, c3, 2) == (l5, c5);
    assert CallSteps(l2, who, c2, 3) == (l5, c5);
    assert CallSteps(l1, who, c1, 4) == (l5, c5);
    assert l.messages + [] == l.messages;
  }
}
