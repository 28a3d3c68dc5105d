// Whole runs of the two threads: every interleaving of any length.

module ThreadRuns {
  import opened CLib
  import opened Samples
  import opened FrameCutting
  import opened AudioRing
  import opened DrainPlan
  import opened Codec
  import opened PacketWindow
  import opened SilenceLog
  import opened Threads
  import opened ThreadSafety
  import opened ThreadSilence

  ghost predicate Inv(c: Config, s: State)
    requires ValidConfig(c)
  {
    RingSafety(c, s) && SilenceInv(s)
  }

  lemma InitInv(c: Config, s: State)
    requires ValidConfig(c) && Init(s)
    ensures Inv(c, s)
  {
    assert SamplesOf(s.a.added) == [];
  }

  lemma InvNext(c: Config, s: State, e: Event)
    requires ValidConfig(c) && Inv(c, s)
    ensures Inv(c, Next(c, s, e))
  {
    RingSafetyNext(c, s, e);
    SilenceNext(c, s, e);
  }

  /** The state that an interleaving reaches. */
  ghost function Run(c: Config, s: State, events: seq<Event>): (t: State)
    requires ValidConfig(c) && Safe(s)
    ensures Safe(t)
    decreases |events|
  {
    if events == [] then s
    else
      var t := Run(c, s, events[..|events| - 1]);
      SafeNext(c, t, events[|events| - 1]);
      Next(c, t, events[|events| - 1])
  }

  lemma RunNext(c: Config, s: State, events: seq<Event>, e: Event)
    requires ValidConfig(c) && Safe(s)
    ensures Run(c, s, events + [e]) == Next(c, Run(c, s, events), e)
  {
    assert (events + [e])[..|events|] == events;
  }

  /** Every state that any interleaving reaches satisfies all invariants. */
  lemma {:induction false} RunKeeps(c: Config, s: State, events: seq<Event>)
    requires ValidConfig(c) && Init(s)
    ensures Inv(c, Run(c, s, events))
    decreases |events|
  {
    if events == [] {
      InitInv(c, s);
    } else {
      var n := |events| - 1;
      RunKeeps(c, s, events[..n]);
      InvNext(c, Run(c, s, events[..n]), events[n]);
    }
  }

  // ---------- the ring is only changed under the mutex ----------

  lemma RingChangeHoldsMutex(s: State, e: Event)
    requires Safe(s) && LockInv(s)
    ensures AudioStep(s, e).a.ring != s.a.ring ==>
              s.ringLock == HeldBy(Audio) && InAdd(s.a.pc) && !InSave(s.m.pc)
  {
    if s.a.me.call == NoCall && !InAdd(s.a.pc) {
      AudioOutsideAdd(s, e);
    }
  }

  lemma MainLeavesAudio(c: Config, s: State, e: Event)
    requires ValidConfig(c) && Safe(s)
    ensures MainStep(c, s, e).a == s.a
  {
    if s.m.me.call == NoCall && !InSave(s.m.pc) {
      LoopFrames(c, s, e);
    }
  }

  /** In every run, a step that changes the ring is the audio thread's, holding the mutex, with
      the main thread outside its save. */
  lemma RingChangesUnderMutex(c: Config, s: State, events: seq<Event>, e: Event)
    requires ValidConfig(c) && Init(s)
    ensures var t := Run(c, s, events);
            Next(c, t, e).a.ring != t.a.ring ==>
              e.who == Audio && t.ringLock == HeldBy(Audio) && InAdd(t.a.pc) && !InSave(t.m.pc)
  {
    var t := Run(c, s, events);
    RunKeeps(c, s, events);
    if e.who == Audio {
      RingChangeHoldsMutex(t, e);
    } else {
      MainLeavesAudio(c, t, e);
    }
  }

  // ---------- a save sees exactly what was there when it took the mutex ----------

  /** The states of a run: the first one, and the one behind each event. */
  ghost function Trace(c: Config, s: State, events: seq<Event>): (states: seq<State>)
    requires ValidConfig(c) && Safe(s)
    ensures |states| == |events| + 1 && states[|events|] == Run(c, s, events)
    decreases |events|
  {
    if events == [] then [s] else Trace(c, s, events[..|events| - 1]) + [Run(c, s, events)]
  }

  /** With event `i` the main thread took the mutex, and these were the frames and the packets. */
  ghost predicate TookLockAt(states: seq<State>, events: seq<Event>, i: nat,
                             snapshot: seq<AudioFrame>, packets: seq<Packet>) {
    && i < |events| < |states| && events[i].who == Main
    && states[i].m.pc == MLock && states[i].ringLock == Free
    && states[i].a.added == snapshot && states[i].m.packets == packets
  }

  /** From behind event `i` up to before event `k` the main thread has been in its save. */
  ghost predicate StayedInSave(states: seq<State>, i: nat, k: nat) {
    k < |states| && forall j :: i < j <= k ==> InSave(states[j].m.pc)
  }

  /** The save that took the mutex with event `i` has lasted until before event `k`. */
  ghost predicate OneSave(states: seq<State>, events: seq<Event>, i: nat, k: nat,
                          snapshot: seq<AudioFrame>, packets: seq<Packet>) {
    i < k && TookLockAt(states, events, i, snapshot, packets) && StayedInSave(states, i, k)
  }

  /** A save under way took the mutex at some event, and has not left its critical section since. */
  ghost predicate UnderWay(states: seq<State>, events: seq<Event>, snapshot: seq<AudioFrame>, packets: seq<Packet>) {
    exists i: nat :: OneSave(states, events, i, |events|, snapshot, packets)
  }

  /** Event `k` logged this drain. */
  ghost predicate LoggedAt(states: seq<State>, events: seq<Event>, k: nat, d: Drained) {
    && k < |events| && k + 1 < |states| && events[k].who == Main
    && states[k + 1].m.drained == states[k].m.drained + [d]
  }

  /** This drain was logged by the very save that took the mutex with these frames and packets:
      between the two events the main thread never left its critical section. */
  ghost predicate LoggedByItsSave(states: seq<State>, events: seq<Event>, d: Drained) {
    exists i: nat, k: nat :: OneSave(states, events, i, k, d.snapshot, d.packets) && LoggedAt(states, events, k, d)
  }

  lemma LoggedExtended(states: seq<State>, events: seq<Event>, t: State, e: Event, d: Drained)
    requires |states| == |events| + 1 && LoggedByItsSave(states, events, d)
    ensures LoggedByItsSave(states + [t], events + [e], d)
  {
    var i: nat, k: nat :| OneSave(states, events, i, k, d.snapshot, d.packets) && LoggedAt(states, events, k, d);
    assert OneSave(states + [t], events + [e], i, k, d.snapshot, d.packets);
    assert LoggedAt(states + [t], events + [e], k, d);
  }

  /** How one step moves a save: it begins with the mutex, its frames and packets stay, and its
      drain is logged with them. */
  ghost predicate SaveMoves(s: State, t: State, e: Event) {
    && (InSave(t.m.pc) ==>
          || (InSave(s.m.pc) && t.m.save.snapshot == s.m.save.snapshot && t.m.packets == s.m.packets)
          || (e.who == Main && s.m.pc == MLock && s.ringLock == Free
              && t.m.save.snapshot == s.a.added && t.m.packets == s.m.packets))
    && (t.m.drained == s.m.drained
        || (e.who == Main && InSave(s.m.pc) && t.m.drained != []
            && var d := t.m.drained[|t.m.drained| - 1];
               t.m.drained == s.m.drained + [d] && d.snapshot == s.m.save.snapshot && d.packets == s.m.packets))
  }

  lemma DrainSnapshot(c: Config, m: MainSide, r: Ring, e: Event)
    requires ValidConfig(c) && WellFormed(r) && SafeRead(m.pc, m.save, |r.slots|) && Draining(m.pc)
    ensures var t := DrainStep(c, m, r, e);
            && t.save.snapshot == m.save.snapshot && t.packets == m.packets
            && (t.drained == m.drained
                || t.drained == m.drained + [Drained(m.save.snapshot, m.packets, r, m.save.start, m.save.sent)])
  {
  }

  lemma LoopSnapshot(c: Config, s: State, e: Event)
    requires !InSave(s.m.pc)
    ensures var t := LoopStep(c, s, e);
            && t.m.drained == s.m.drained
            && (InSave(t.m.pc) ==>
                  s.m.pc == MLock && s.ringLock == Free && t.m.save.snapshot == s.a.added && t.m.packets == s.m.packets)
  {
    MainAloneFrames(c, s.m, e);
  }

  lemma MainMoves(c: Config, s: State, e: Event)
    requires ValidConfig(c) && Inv(c, s) && e.who == Main && s.m.me.call == NoCall
    ensures SaveMoves(s, MainStep(c, s, e), e)
  {
    if Draining(s.m.pc) {
      DrainSnapshot(c, s.m, s.a.ring, e);
    } else if InSave(s.m.pc) {
      if s.m.pc != MUnlock {
        SaveStepFrames(c, s.m, s.a.ring, e);
      }
    } else {
      LoopSnapshot(c, s, e);
    }
  }

  lemma StepMoves(c: Config, s: State, e: Event)
    requires ValidConfig(c) && Inv(c, s)
    ensures SaveMoves(s, Next(c, s, e), e)
  {
    if e.who == Main {
      if s.m.me.call == NoCall {
        MainMoves(c, s, e);
      }
    } else {
      AudioLeavesMain(s, e);
    }
  }

  /** A save under way, and every drain logged by its own save. */
  ghost predicate SavesInv(states: seq<State>, events: seq<Event>)
    requires |states| == |events| + 1
  {
    var t := states[|events|];
    && (InSave(t.m.pc) ==> UnderWay(states, events, t.m.save.snapshot, t.m.packets))
    && forall d :: d in t.m.drained ==> LoggedByItsSave(states, events, d)
  }

  lemma UnderWayNext(states: seq<State>, events: seq<Event>, t: State, e: Event)
    requires |states| == |events| + 1 && SavesInv(states, events)
    requires SaveMoves(states[|events|], t, e) && InSave(t.m.pc)
    ensures UnderWay(states + [t], events + [e], t.m.save.snapshot, t.m.packets)
  {
    var all, more, n := states + [t], events + [e], |events|;
    var r := states[n];
    if InSave(r.m.pc) && t.m.save.snapshot == r.m.save.snapshot && t.m.packets == r.m.packets {
      var i: nat :| OneSave(states, events, i, n, r.m.save.snapshot, r.m.packets);
      assert OneSave(all, more, i, n + 1, t.m.save.snapshot, t.m.packets);
    } else {
      assert TookLockAt(all, more, n, t.m.save.snapshot, t.m.packets);
      assert OneSave(all, more, n, n + 1, t.m.save.snapshot, t.m.packets);
    }
  }

  lemma LoggedNext(states: seq<State>, events: seq<Event>, t: State, e: Event, d: Drained)
    requires |states| == |events| + 1 && SavesInv(states, events)
    requires SaveMoves(states[|events|], t, e) && d in t.m.drained
    ensures LoggedByItsSave(states + [t], events + [e], d)
  {
    var all, more, n := states + [t], events + [e], |events|;
    var r := states[n];
    if d in r.m.drained {
      LoggedExtended(states, events, t, e, d);
    } else {
      var i: nat :| OneSave(states, events, i, n, r.m.save.snapshot, r.m.packets);
      assert OneSave(all, more, i, n, d.snapshot, d.packets);
      assert LoggedAt(all, more, n, d);
    }
  }

  lemma SavesNext(states: seq<State>, events: seq<Event>, t: State, e: Event)
    requires |states| == |events| + 1 && SavesInv(states, events) && SaveMoves(states[|events|], t, e)
    ensures SavesInv(states + [t], events + [e])
  {
    if InSave(t.m.pc) {
      UnderWayNext(states, events, t, e);
    }
    forall d | d in t.m.drained
      ensures LoggedByItsSave(states + [t], events + [e], d)
    {
      LoggedNext(states, events, t, e, d);
    }
  }

  lemma LastStepMoves(c: Config, s: State, events: seq<Event>)
    requires ValidConfig(c) && Init(s) && events != []
    ensures var n := |events| - 1; SaveMoves(Run(c, s, events[..n]), Run(c, s, events), events[n])
  {
    var n := |events| - 1;
    RunKeeps(c, s, events[..n]);
    StepMoves(c, Run(c, s, events[..n]), events[n]);
  }

  lemma {:induction false} SavesRun(c: Config, s: State, events: seq<Event>)
    requires ValidConfig(c) && Init(s)
    ensures SavesInv(Trace(c, s, events), events)
    decreases |events|
  {
    if events != [] {
      var n := |events| - 1;
      var before := events[..n];
      SavesRun(c, s, before);
      LastStepMoves(c, s, events);
      assert events == before + [events[n]];
      SavesNext(Trace(c, s, before), before, Run(c, s, events), events[n]);
    }
  }

  // ---------- the ring keeps its capacity ----------

  /** Every ring of this state has `n` slots: the one in use and those the drains found. */
  ghost predicate Sized(t: State, n: nat) {
    |t.a.ring.slots| == n && forall d :: d in t.m.drained ==> |d.ring.slots| == n
  }

  lemma SizedNext(c: Config, s: State, e: Event, n: nat)
    requires ValidConfig(c) && Safe(s) && Sized(s, n)
    ensures Sized(Next(c, s, e), n)
  {
    if e.who == Audio {
      AudioLeavesMain(s, e);
    } else if s.m.me.call == NoCall {
      if Draining(s.m.pc) {
        DrainSnapshot(c, s.m, s.a.ring, e);
      } else if InSave(s.m.pc) {
        if s.m.pc != MUnlock {
          SaveStepFrames(c, s.m, s.a.ring, e);
        }
      } else {
        LoopSnapshot(c, s, e);
      }
    }
  }

  lemma {:induction false} SizedRun(c: Config, s: State, events: seq<Event>)
    requires ValidConfig(c) && Init(s)
    ensures Sized(Run(c, s, events), |s.a.ring.slots|)
    decreases |events|
  {
    if events != [] {
      var n := |events| - 1;
      SizedRun(c, s, events[..n]);
      SizedNext(c, Run(c, s, events[..n]), events[n], |s.a.ring.slots|);
    }
  }

  // ---------- the main theorems ----------

  /** The encoder got exactly the window that the drain's frames leave in a ring of `capacity`
      samples, from its start on. */
  ghost predicate SentWhatItOwes(c: Config, capacity: nat, d: Drained)
    requires ValidConfig(c)
  {
    d.sent == SaveOf(c, capacity, d.snapshot, d.start)
  }

  /** Its start index survives being cut to an int, or lies behind the window all the same. */
  ghost predicate StartSurvives(c: Config, capacity: nat, d: Drained)
    requires ValidConfig(c)
  {
    var i := StartOf(c, capacity, d.snapshot, d.start);
    FitsInt32(i) || ToInt32(i) >= Min(|SamplesOf(d.snapshot)|, capacity)
  }

  /** Main theorem on saves. After any interleaving, every drain that ran to its end was logged by
      the save that took the mutex with exactly these frames added and these packets live, it
      started at their first key frame, and the encoder got exactly the window these frames leave
      in the run's ring from there on: nothing torn, nothing later, nothing missing. The last
      holds just when the start index fits an int, or when cut to one it still lies behind the
      window. */
  lemma SavesAreSnapshots(c: Config, s: State, events: seq<Event>, d: Drained)
    requires ValidConfig(c) && Init(s)
    ensures d in Run(c, s, events).m.drained ==>
              && LoggedByItsSave(Trace(c, s, events), events, d)
              && Holds(d.ring, d.snapshot) && |d.ring.slots| == |s.a.ring.slots|
              && StartsAt(c, d.packets, d.start)
              && (SentWhatItOwes(c, |s.a.ring.slots|, d) <==> StartSurvives(c, |s.a.ring.slots|, d))
  {
    if d in Run(c, s, events).m.drained {
      SavesRun(c, s, events);
      RunKeeps(c, s, events);
      SizedRun(c, s, events);
      assert DrainedInv(c, Run(c, s, events).m.drained);
      SaveIsOwed(c, d.ring, d.snapshot, d.start);
    }
  }

  /** Main theorem on the rest. In every state any interleaving reaches: the two critical sections
      exclude each other and the mutex is free of the main thread outside its save, so every exit
      path has released it; outside the audio thread's critical section the ring stands for
      exactly the frames added, and it always has the capacity it began with; the silence counter
      is the number of raised threads; the ring is freed only when the audio thread is gone, and
      then the counter is what that thread left; a save about to close its output has written the
      encoder's packets and then the video. */
  lemma ReachableStates(c: Config, s: State, events: seq<Event>)
    requires ValidConfig(c) && Init(s)
    ensures var t := Run(c, s, events);
            && !(InSave(t.m.pc) && InAdd(t.a.pc))
            && (t.ringLock == HeldBy(Main) <==> InSave(t.m.pc))
            && (!InAdd(t.a.pc) ==> Holds(t.a.ring, t.a.added))
            && |t.a.ring.slots| == |s.a.ring.slots|
            && t.log.counter == Raised(t.m.me, MainCalling(t.m.pc)) + Raised(t.a.me, AudioCalling(t.a.pc))
            && (t.log.lock == Free ==> Consistent(t.log.counter, t.log.fatal, t.log.messages))
            && (t.m.freed ==> t.a.pc == ADone && t.log.counter == if t.a.me.silent then 1 else 0)
            && (t.m.pc == MClose ==>
                  t.m.save.written == Tagged(t.m.save.produced, 1) + SavedVideo(Live(t.m.packets, c.window), 0))
  {
    RunKeeps(c, s, events);
    SizedRun(c, s, events);
  }

  // ---------- who can move, who waits ----------

  ghost predicate CanMove(c: Config, s: State, who: Thread)
    requires ValidConfig(c) && Safe(s)
  {
    exists e: Event :: e.who == who && Next(c, s, e) != s
  }

  /** The main thread waits for the audio thread: for one of the two mutexes, or to join it. */
  predicate Waits(s: State) {
    || (s.m.me.call.Enter? && s.log.lock == HeldBy(Audio))
    || (s.m.me.call.NoCall? && s.m.pc == MLock && s.ringLock == HeldBy(Audio))
    || (s.m.me.call.NoCall? && s.m.pc == MJoin && s.a.pc != ADone)
  }

  lemma LoopMovesOrWaits(c: Config, s: State)
    requires LockInv(s) && s.m.me.call == NoCall && !InSave(s.m.pc) && s.m.pc != MDone
    ensures LoopStep(c, s, Answer(0, 0)).m.pc != s.m.pc || Waits(s)
  {
    if s.ringLock.HeldBy? {
      assert s.ringLock.holder == Main || s.ringLock.holder == Audio;
    }
  }

  lemma MainMovesOrWaits(c: Config, s: State)
    requires ValidConfig(c) && Safe(s) && LockInv(s) && SilenceInv(s)
    requires !InSave(s.m.pc) && s.m.pc != MDone
    ensures CanMove(c, s, Main) || Waits(s)
  {
    var e := Answer(0, 0);
    assert e.who == Main;
    if s.m.me.call == NoCall {
      LoopMovesOrWaits(c, s);
      assert Next(c, s, e) == LoopStep(c, s, e);
    } else {
      assert MainLogs(s).m.me.call != s.m.me.call || Waits(s);
      assert Next(c, s, e) == MainLogs(s);
    }
  }

  /** The audio thread waits for the main thread: for one of the two mutexes. */
  predicate AudioWaits(s: State) {
    || (s.a.me.call.Enter? && s.log.lock == HeldBy(Main))
    || (s.a.me.call.NoCall? && s.a.pc == ALock && s.ringLock == HeldBy(Main))
  }

  lemma AudioMovesOrWaits(c: Config, s: State)
    requires ValidConfig(c) && Safe(s) && LockInv(s) && SilenceInv(s)
    requires s.a.pc != ADone && s.a.pc != ATrapped
    ensures CanMove(c, s, Audio) || AudioWaits(s)
  {
    var e := Answer(0, 0).(who := Audio);
    assert e.who == Audio;
    if !AudioWaits(s) {
      assert Next(c, s, e) != s;
    }
  }

  /** Where the main thread waits, the audio thread does not. */
  lemma OneWaits(s: State)
    requires LockInv(s) && SilenceInv(s) && !InSave(s.m.pc) && Waits(s)
    ensures !AudioWaits(s) && s.a.pc != ADone
  {
  }

  // ---------- a save comes to its unlock, unless it is trapped ----------

  function StageOf(pc: MainPc): nat {
    match pc
    case MCreate => 8
    case MGetParams => 7
    case MOpen => 6
    case MStartTime => 5
    case MVideoWrite => 3
    case MClose => 2
    case MCleanup => 1
    case MUnlock => 0
    case _ => 4
  }

  function SubStage(pc: MainPc): nat {
    match pc
    case MDrain => 3
    case MReadEnd => 2
    case MReadStart => 1
    case _ => 0
  }

  function LeftToSend(m: MainSide, r: Ring): nat {
    if !Draining(m.pc) || m.save.flushed then 0 else 1 + Max(r.size - m.save.index, 0)
  }

  function Pending(m: MainSide): nat {
    if Draining(m.pc) then m.save.pending else 0
  }

  /** Lexicographic: the stage of the save, what is left to send including the flush, the packets
      the encoder still has, the piece of the frame being read. */
  predicate Closer(m: MainSide, t: MainSide, r: Ring) {
    || StageOf(t.pc) < StageOf(m.pc)
    || (StageOf(t.pc) == StageOf(m.pc)
        && (|| LeftToSend(t, r) < LeftToSend(m, r)
            || (LeftToSend(t, r) == LeftToSend(m, r)
                && (|| Pending(t) < Pending(m)
                    || (Pending(t) == Pending(m) && SubStage(t.pc) < SubStage(m.pc))))))
  }

  /** What the progress of a drain rests on. */
  predicate Poised(m: MainSide, r: Ring) {
    && (m.pc.MReadEnd? || m.pc.MReadStart? || m.pc.MSend? ==>
          !m.save.flushed && m.save.index < r.size && m.save.n >= 1)
    && (m.pc.MFlush? ==> !m.save.flushed && m.save.index >= r.size)
  }

  lemma DrainProgresses(c: Config, m: MainSide, r: Ring, e: Event)
    requires ValidConfig(c) && WellFormed(r) && SafeRead(m.pc, m.save, |r.slots|) && Draining(m.pc) && Poised(m, r)
    ensures var t := DrainStep(c, m, r, e); InSave(t.pc) && (t.pc == MTrapped || Closer(m, t, r))
  {
  }

  lemma SetupProgresses(c: Config, m: MainSide, r: Ring, e: Event)
    requires ValidConfig(c) && InSave(m.pc) && !Draining(m.pc) && m.pc != MUnlock && m.pc != MTrapped
    ensures var t := SaveAlone(c, m, r, e); InSave(t.pc) && t.pc != MTrapped && Closer(m, t, r)
  {
  }

  lemma DrainTrapsOnlyUnsafe(c: Config, m: MainSide, r: Ring, e: Event, added: seq<AudioFrame>)
    requires ValidConfig(c) && WellFormed(r) && SafeRead(m.pc, m.save, |r.slots|) && Draining(m.pc)
    requires DrainingInv(c, m, r, added) && DrainStep(c, m, r, e).pc == MTrapped
    ensures !SafeSave(c, r, m.save.start)
    ensures ToInt32(StartOf(c, |r.slots|, added, m.save.start)) < 0
  {
    var goal, safe := Goal(c, r, m.save.start), SafeSave(c, r, m.save.start);
    PlanSteps(r, c.frameSize, c.params);
    DrainKeeps(c, m, r, e, PlanOf(c, r), RunsOf(c, r), goal, safe);
    SaveIsOwed(c, r, added, m.save.start);
  }

  // What one step of the main thread makes of a save.
  ghost predicate Progresses(c: Config, s: State, t: State)
    requires ValidConfig(c)
  {
    && t.a == s.a
    && (InSave(t.m.pc) && t.m.pc != MTrapped ==> Closer(s.m, t.m, s.a.ring))
    && (!InSave(t.m.pc) ==> t.ringLock == Free)
    && (t.m.pc == MTrapped ==>
          && !SafeSave(c, s.a.ring, s.m.save.start)
          && ToInt32(StartOf(c, |s.a.ring.slots|, s.a.added, s.m.save.start)) < 0)
  }

  lemma StepProgresses(c: Config, s: State, e: Event)
    requires ValidConfig(c) && Safe(s) && InSave(s.m.pc) && s.m.pc != MTrapped && e.who == Main
    requires s.m.me.call == NoCall && (Draining(s.m.pc) ==> DrainingInv(c, s.m, s.a.ring, s.a.added))
    ensures Progresses(c, s, Next(c, s, e))
  {
    if Draining(s.m.pc) {
      DrainProgresses(c, s.m, s.a.ring, e);
      if DrainStep(c, s.m, s.a.ring, e).pc == MTrapped {
        DrainTrapsOnlyUnsafe(c, s.m, s.a.ring, e, s.a.added);
      }
    } else if s.m.pc != MUnlock {
      SetupProgresses(c, s.m, s.a.ring, e);
    }
  }

  /** During a save every step of the main thread is enabled and brings it closer to the unlock,
      whatever the encoder, the output and the file system answer, and the step that leaves the
      save frees the mutex. So no exit path, error or not, can skip the unlock or run forever.
      The one exception is a step that C does not define, and that happens only when the save is
      not safe: never when its start index as an int is not negative. */
  lemma SaveProgresses(c: Config, s: State, events: seq<Event>, e: Event)
    requires ValidConfig(c) && Init(s) && e.who == Main
    ensures var r := Run(c, s, events);
            InSave(r.m.pc) && r.m.pc != MTrapped ==> Progresses(c, r, Next(c, r, e))
  {
    var r := Run(c, s, events);
    RunKeeps(c, s, events);
    if InSave(r.m.pc) && r.m.pc != MTrapped {
      StepProgresses(c, r, e);
    }
  }

  // ---------- no deadlock ----------

  lemma LogMoves(c: Config, s: State)
    requires ValidConfig(c) && Safe(s) && SilenceInv(s) && s.a.me.call.Enter? && s.log.lock == HeldBy(Main)
    ensures CanMove(c, s, Main)
  {
    var e := Answer(0, 0);
    assert e.who == Main;
    assert MainLogs(s).m.me.call != s.m.me.call;
    assert Next(c, s, e) == MainLogs(s);
  }

  /** A thread that holds a mutex the audio thread waits for has a step. */
  lemma HolderMoves(c: Config, s: State)
    requires ValidConfig(c) && AudioWaits(s) && s.m.pc != MTrapped
    ensures Inv(c, s) ==> CanMove(c, s, Main)
  {
    if Inv(c, s) && s.a.me.call.Enter? {
      LogMoves(c, s);
    } else if Inv(c, s) {
      var e := Answer(0, 0);
      assert e.who == Main && InSave(s.m.pc) && s.m.me.call == NoCall;
      StepProgresses(c, s, e);
      assert Next(c, s, e) != s;
    }
  }

  /** In every state any interleaving reaches, a thread that has not ended has a step or waits for
      the other one, which then has a step. (Inside a save the main thread always has one.) Only
      an access that C does not define can stop a thread for good. */
  lemma NoDeadlock(c: Config, s: State, events: seq<Event>)
    requires ValidConfig(c) && Init(s)
    ensures var t := Run(c, s, events);
            && (!InSave(t.m.pc) && t.m.pc != MDone && t.a.pc != ATrapped ==>
                  CanMove(c, t, Main) || (Waits(t) && CanMove(c, t, Audio)))
            && (t.a.pc != ADone && t.a.pc != ATrapped ==>
                  CanMove(c, t, Audio) || (AudioWaits(t) && (t.m.pc == MTrapped || CanMove(c, t, Main))))
  {
    var t := Run(c, s, events);
    RunKeeps(c, s, events);
    if t.a.pc != ADone && t.a.pc != ATrapped {
      AudioMovesOrWaits(c, t);
      if AudioWaits(t) && t.m.pc != MTrapped {
        HolderMoves(c, t);
      }
    }
    if !InSave(t.m.pc) && t.m.pc != MDone && t.a.pc != ATrapped {
      MainMovesOrWaits(c, t);
      if Waits(t) {
        OneWaits(t);
      }
    }
  }

  // ---------- a save that is trapped ----------

  /** An event of the main thread with this return code and a key frame at this time. */
  function Answer(ret: int, pts: Int64): Event {
    Event(Main, ret, true, AudioFrame([], 0), Packet(pts, pts, true, 0, 0), 0)
  }

  /** The encoder hands out a key frame. */
  function OnePacket(pts: Int64): seq<Event> {
    [Answer(0, pts)] + [Answer(0, pts)]
  }

  /** The packet is added, and the user asks for a save. */
  function AskForSave(pts: Int64): seq<Event> {
    OnePacket(pts) + [Answer(0, pts)] + [Answer(1, pts)]
  }

  /** The mutex, the encoder, its parameters, the output. */
  function OpenSave(pts: Int64): seq<Event> {
    AskForSave(pts) + [Answer(0, pts)] + [Answer(0, pts)] + [Answer(0, pts)] + [Answer(0, pts)]
  }

  // The main thread alone has moved, to `m`.
  ghost predicate Reached(c: Config, s: State, events: seq<Event>, m: MainSide, lock: Lock)
    requires ValidConfig(c) && Safe(s)
  {
    Run(c, s, events) == s.(m := m, ringLock := lock)
  }

  lemma ReachNext(c: Config, s: State, events: seq<Event>, m: MainSide, lock: Lock, e: Event, m': MainSide, lock': Lock)
    requires ValidConfig(c) && Safe(s) && Reached(c, s, events, m, lock)
    requires Safe(s.(m := m, ringLock := lock))
    requires Next(c, s.(m := m, ringLock := lock), e) == s.(m := m', ringLock := lock')
    ensures Reached(c, s, events + [e], m', lock')
  {
    RunNext(c, s, events, e);
  }

  lemma ReachOnePacket(c: Config, s: State, pts: Int64)
    requires ValidConfig(c) && Init(s)
    ensures Reached(c, s, OnePacket(pts), s.m.(pc := MAddPacket, packet := Answer(0, pts).packet), Free)
  {
    var e, m := Answer(0, pts), s.m;
    assert Reached(c, s, [], m, Free);
    ReachNext(c, s, [], m, Free, e, m.(pc := MNextPacket), Free);
    assert [] + [e] == [e];
    ReachNext(c, s, [e], m.(pc := MNextPacket), Free, e, m.(pc := MAddPacket, packet := e.packet), Free);
  }

  lemma ReachLock(c: Config, s: State, pts: Int64)
    requires ValidConfig(c) && Init(s) && s.running
    ensures var p := Answer(0, pts).packet;
            Reached(c, s, AskForSave(pts), s.m.(pc := MLock, packet := p, packets := [p]), Free)
  {
    var e, p := Answer(0, pts), Answer(0, pts).packet;
    var m := s.m.(packet := p);
    ReachOnePacket(c, s, pts);
    assert s.m.packets + [p] == [p];
    ReachNext(c, s, OnePacket(pts), m.(pc := MAddPacket), Free, e, m.(pc := MControl, packets := [p]), Free);
    ReachNext(c, s, OnePacket(pts) + [e], m.(pc := MControl, packets := [p]), Free, Answer(1, pts),
              m.(pc := MLock, packets := [p]), Free);
  }

  // What the main thread has when its save begins.
  function Opening(s: State, pts: Int64): MainSide {
    var p := Answer(0, pts).packet;
    s.m.(packet := p, packets := [p], save := s.m.save.(snapshot := [], produced := [], written := []))
  }

  lemma ReachParams(c: Config, s: State, pts: Int64)
    requires ValidConfig(c) && Init(s) && s.running
    ensures Reached(c, s, AskForSave(pts) + [Answer(0, pts)] + [Answer(0, pts)],
                    Opening(s, pts).(pc := MGetParams), HeldBy(Main))
  {
    var e, p, m := Answer(0, pts), Answer(0, pts).packet, Opening(s, pts);
    ReachLock(c, s, pts);
    ReachNext(c, s, AskForSave(pts), s.m.(pc := MLock, packet := p, packets := [p]), Free, e,
              m.(pc := MCreate), HeldBy(Main));
    ReachNext(c, s, AskForSave(pts) + [e], m.(pc := MCreate), HeldBy(Main), e, m.(pc := MGetParams), HeldBy(Main));
  }

  lemma ReachStartTime(c: Config, s: State, pts: Int64)
    requires ValidConfig(c) && Init(s) && s.running
    ensures Reached(c, s, OpenSave(pts), Opening(s, pts).(pc := MStartTime), HeldBy(Main))
  {
    var e, m := Answer(0, pts), Opening(s, pts);
    var events := AskForSave(pts) + [e] + [e];
    ReachParams(c, s, pts);
    ReachNext(c, s, events, m.(pc := MGetParams), HeldBy(Main), e, m.(pc := MOpen), HeldBy(Main));
    ReachNext(c, s, events + [e], m.(pc := MOpen), HeldBy(Main), e, m.(pc := MStartTime), HeldBy(Main));
  }

  lemma OneIsLive(p: Packet, window: Nat64)
    requires p.key && !Wraps(p, window)
    ensures Live([p], window) == [p] && FirstKey([p]) == 0
  {
    assert Live([], window) + [p] == [p];
    StartIs(p, window);
  }

  // What the drain loop begins with.
  function Drain(c: Config, s: State, pts: Int64): MainSide
    requires ValidConfig(c)
  {
    var m := Opening(s, pts);
    m.(pc := MDrain, save := m.save.(start := pts, index := SaveIndex(c, s.a.ring, pts), pts := 0,
                                     sent := [], pending := 0, flushed := false))
  }

  lemma ReachDrain(c: Config, s: State, pts: Int64)
    requires ValidConfig(c) && Init(s) && s.running && 0 <= pts
    ensures Reached(c, s, OpenSave(pts) + [Answer(0, pts)], Drain(c, s, pts), HeldBy(Main))
  {
    var e, m := Answer(0, pts), Opening(s, pts).(pc := MStartTime);
    ReachStartTime(c, s, pts);
    OneIsLive(e.packet, c.window);
    assert SaveAlone(c, m, s.a.ring, e) == Drain(c, s, pts);
    ReachNext(c, s, OpenSave(pts), m, HeldBy(Main), e, Drain(c, s, pts), HeldBy(Main));
  }

  lemma DrainTraps(c: Config, s: State, m: MainSide, e: Event)
    requires ValidConfig(c) && Safe(s.(m := m, ringLock := HeldBy(Main))) && s.a.ring.size == 0
    requires m.pc == MDrain && m.me.call == NoCall && !m.save.flushed && m.save.index < 0
    requires e.who == Main && e.ret == ERROR_AGAIN
    ensures Next(c, s.(m := m, ringLock := HeldBy(Main)), e) == s.(m := m.(pc := MTrapped), ringLock := HeldBy(Main))
  {
  }

  lemma LongUptimeIndex(c: Config, s: State)
    requires ValidConfig(c) && c.params.sampleRate == 44100 && Init(s)
    ensures SaveIndex(c, s.a.ring, 48_700_000_000) < 0
  {
    LongUptimeBeforeAudio(s.a.ring, c.frameSize);
  }

  /** Thirteen and a half hours after the machine was started, at 44100 samples a second and with
      no audio frame yet, saving divides by zero: ten steps from the start the run is trapped. */
  lemma LongUptimeTraps(c: Config, s: State)
    requires ValidConfig(c) && c.params.sampleRate == 44100 && Init(s) && s.running
    ensures Run(c, s, OpenSave(48_700_000_000) + [Answer(0, 48_700_000_000)] + [Answer(ERROR_AGAIN, 0)]).m.pc == MTrapped
  {
    var pts: Int64 := 48_700_000_000;
    var d := Drain(c, s, pts);
    LongUptimeIndex(c, s);
    DrainTraps(c, s, d, Answer(ERROR_AGAIN, 0));
    ReachDrain(c, s, pts);
    ReachNext(c, s, OpenSave(pts) + [Answer(0, pts)], d, HeldBy(Main), Answer(ERROR_AGAIN, 0),
              d.(pc := MTrapped), HeldBy(Main));
  }
}
