// What holds in every reachable state of the two threads: the mutex discipline, the content of
// the ring, what a save hands to the encoder, the silence counter, and an orderly shutdown.

module ThreadSafety {
  import opened CLib
  import opened Samples
  import opened FrameCutting
  import opened AudioRing
  import opened DrainPlan
  import opened Codec
  import opened PacketWindow
  import opened SilenceLog
  import opened Threads

  // ---------- the audio mutex ----------

  /** Between locking and unlocking the audio mutex in the audio thread. */
  predicate InAdd(pc: AudioPc) {
    || pc.ACopyEnd? || pc.ACopyStart? || pc.ATrapped?
    || Copied(pc)
  }

  /** Behind both copies. */
  predicate Copied(pc: AudioPc) {
    pc.AIndex? || pc.ASize? || pc.AEndTime? || pc.AUnlock?
  }

  /** Each thread holds the mutex exactly while it is in its critical section. */
  ghost predicate LockInv(s: State) {
    && (s.ringLock == HeldBy(Main) <==> InSave(s.m.pc))
    && (s.ringLock == HeldBy(Audio) <==> InAdd(s.a.pc))
  }

  // ---------- the ring ----------

  /** The ring stands for these frames. */
  ghost predicate Holds(r: Ring, frames: seq<AudioFrame>) {
    && Represents(r, SamplesOf(frames))
    && r.endTime == EndTime(frames)
  }

  /** How far an add has come at each point of the critical section. */
  ghost function Stage(pc: AudioPc, base: Ring, f: AudioFrame): Ring
    requires WellFormed(base) && (Copied(pc) ==> Accepts(base, f))
  {
    match pc
    case ACopyStart => CopyToEnd(base, f)
    case ATrapped => CopyToEnd(base, f)
    case AIndex => CopyToStart(CopyToEnd(base, f), f)
    case ASize => MoveIndex(CopyToStart(CopyToEnd(base, f), f), f)
    case AEndTime => Grow(MoveIndex(CopyToStart(CopyToEnd(base, f), f), f), f)
    case AUnlock => Add(base, f)
    case _ => base
  }

  /** Outside the audio thread's critical section the ring stands for the frames added so far;
      inside it is the ring of before with part of the next frame. */
  ghost predicate RingInv(a: AudioSide) {
    if InAdd(a.pc) then
      && WellFormed(a.base) && (Copied(a.pc) ==> Accepts(a.base, a.frame))
      && (a.pc == ATrapped ==> !Accepts(a.base, a.frame))
      && Holds(a.base, a.added)
      && a.ring == Stage(a.pc, a.base, a.frame)
    else Holds(a.ring, a.added)
  }

  lemma AddHolds(r: Ring, f: AudioFrame, frames: seq<AudioFrame>)
    requires Holds(r, frames) && Accepts(r, f)
    ensures Holds(Add(r, f), frames + [f])
  {
    SamplesOfAppend(frames, f);
    AddAppends(r, f, SamplesOf(frames));
  }

  lemma AudioCopies(s: State, e: Event)
    requires Safe(s) && (s.a.pc == ACopyEnd || s.a.pc == ACopyStart || s.a.pc == ATrapped)
    requires WellFormed(s.a.base) && (s.a.pc == ATrapped ==> !Accepts(s.a.base, s.a.frame))
    requires s.a.ring == Stage(s.a.pc, s.a.base, s.a.frame)
    ensures var t := AudioLoopStep(s, e).a;
            && InAdd(t.pc) && t.base == s.a.base && t.frame == s.a.frame && t.added == s.a.added
            && (Copied(t.pc) ==> Accepts(s.a.base, s.a.frame))
            && (t.pc == ATrapped ==> !Accepts(s.a.base, s.a.frame))
            && t.ring == Stage(t.pc, s.a.base, s.a.frame)
  {
  }

  lemma AudioUpdates(s: State, e: Event)
    requires Safe(s) && Copied(s.a.pc) && s.a.pc != AUnlock
    requires WellFormed(s.a.base) && Accepts(s.a.base, s.a.frame)
    requires s.a.ring == Stage(s.a.pc, s.a.base, s.a.frame)
    ensures var t := AudioLoopStep(s, e).a;
            && Copied(t.pc) && t.base == s.a.base && t.frame == s.a.frame && t.added == s.a.added
            && t.ring == Stage(t.pc, s.a.base, s.a.frame)
  {
  }

  lemma AudioOutsideAdd(s: State, e: Event)
    requires Safe(s) && !InAdd(s.a.pc)
    ensures var t := AudioLoopStep(s, e).a;
            && t.ring == s.a.ring && t.added == s.a.added
            && (InAdd(t.pc) ==> t.pc == ACopyEnd && t.base == s.a.ring && t.frame == s.a.frame && s.a.pc == ALock)
  {
  }

  lemma AudioKeepsRing(s: State, e: Event)
    requires Safe(s) && RingInv(s.a)
    ensures RingInv(AudioLoopStep(s, e).a)
  {
    if s.a.pc == AUnlock {
      AddHolds(s.a.base, s.a.frame, s.a.added);
    } else if Copied(s.a.pc) {
      AudioUpdates(s, e);
    } else if InAdd(s.a.pc) {
      AudioCopies(s, e);
    } else {
      AudioOutsideAdd(s, e);
    }
  }

  // ---------- the drain loop of a save ----------

  /** Where a drain loop stands. What it sent and what `plan` says it still sends make up the goal;
      `runs` tells at every position whether it is defined to its end; the frame being filled is
      the one at the index; the output got the packets of the encoder. */
  ghost predicate DrainInv(c: Config, pc: MainPc, v: Save, r: Ring, plan: (int, int) -> seq<EncoderInput>,
                           runs: int -> bool, goal: seq<EncoderInput>, safe: bool)
    requires ValidConfig(c) && WellFormed(r)
  {
    && v.written == Tagged(v.produced, 1)
    && (if v.flushed then v.sent == goal && safe
        else v.sent + plan(v.index, v.pts) == goal && runs(v.index) == safe)
    && (pc.MReadEnd? || pc.MReadStart? || pc.MSend? ==> !v.flushed && Reading(c, v, r))
    && (pc.MReadStart? ==> v.buf == r.slots[v.from..v.from + v.first])
    && (pc.MSend? ==> v.buf == ReadFrame(r, v.index, v.n))
    && (pc.MFlush? ==> !v.flushed && v.index >= r.size)
  }

  /** The loop is about to read the frame at its index, which is defined. */
  ghost predicate Reading(c: Config, v: Save, r: Ring)
    requires ValidConfig(c) && WellFormed(r)
  {
    && v.index < r.size && Defined(r, v.index, c.frameSize)
    && v.n == FrameLength(r, v.index, c.frameSize)
    && v.from == ReadSlot(r, v.index) && v.first == Min(v.n, r.size - v.from)
  }

  /** A step of the drain loop keeps the invariant; only the end of the stream logs a drain, and
      then exactly the goal has been sent; only an undefined drain is trapped. */
  ghost predicate DrainMoves(c: Config, m: MainSide, t: MainSide, r: Ring, plan: (int, int) -> seq<EncoderInput>,
                             runs: int -> bool, goal: seq<EncoderInput>, safe: bool)
    requires ValidConfig(c) && WellFormed(r)
  {
    && InSave(t.pc) && t.freed == m.freed && t.packets == m.packets
    && t.save.snapshot == m.save.snapshot && t.save.start == m.save.start
    && (t.pc == MTrapped ==> !safe)
    && (Draining(t.pc) ==> DrainInv(c, t.pc, t.save, r, plan, runs, goal, safe))
    && (t.pc == MVideoWrite ==> t.save.written == Tagged(t.save.produced, 1))
    && t.pc != MClose
    && (t.drained == m.drained
        || (safe && t.drained == m.drained + [Drained(m.save.snapshot, m.packets, r, m.save.start, goal)]))
  }

  lemma TaggedOneMore(packets: seq<Packet>, p: Packet)
    ensures Tagged(packets + [p], 1) == Tagged(packets, 1) + [p.(stream := 1)]
  {
  }

  /** The encoder has a packet. */
  lemma PacketMoves(c: Config, m: MainSide, r: Ring, e: Event, plan: (int, int) -> seq<EncoderInput>,
                    runs: int -> bool, goal: seq<EncoderInput>, safe: bool)
    requires ValidConfig(c) && WellFormed(r) && m.pc == MDrain && e.ret >= 0 && m.save.pending > 0
    requires DrainInv(c, MDrain, m.save, r, plan, runs, goal, safe)
    ensures DrainMoves(c, m, DrainStep(c, m, r, e), r, plan, runs, goal, safe)
  {
    TaggedOneMore(m.save.produced, e.packet);
  }

  /** It wants input, or it is at its end, or it failed. */
  lemma ChooseMoves(c: Config, m: MainSide, r: Ring, e: Event, plan: (int, int) -> seq<EncoderInput>,
                    runs: int -> bool, goal: seq<EncoderInput>, safe: bool)
    requires ValidConfig(c) && WellFormed(r) && m.pc == MDrain && !(e.ret >= 0 && m.save.pending > 0)
    requires Steps(r, plan, runs, c.frameSize, c.params)
    requires DrainInv(c, MDrain, m.save, r, plan, runs, goal, safe)
    ensures DrainMoves(c, m, DrainStep(c, m, r, e), r, plan, runs, goal, safe)
  {
    assert StepsAt(r, plan, runs, m.save.index, c.frameSize, m.save.pts, c.params);
  }

  lemma ReadEndMoves(c: Config, m: MainSide, r: Ring, e: Event, plan: (int, int) -> seq<EncoderInput>,
                     runs: int -> bool, goal: seq<EncoderInput>, safe: bool)
    requires ValidConfig(c) && WellFormed(r) && SafeRead(m.pc, m.save, |r.slots|) && m.pc == MReadEnd
    requires DrainInv(c, m.pc, m.save, r, plan, runs, goal, safe)
    ensures DrainMoves(c, m, DrainStep(c, m, r, e), r, plan, runs, goal, safe)
  {
  }

  lemma ReadStartMoves(c: Config, m: MainSide, r: Ring, e: Event, plan: (int, int) -> seq<EncoderInput>,
                       runs: int -> bool, goal: seq<EncoderInput>, safe: bool)
    requires ValidConfig(c) && WellFormed(r) && SafeRead(m.pc, m.save, |r.slots|) && m.pc == MReadStart
    requires DrainInv(c, m.pc, m.save, r, plan, runs, goal, safe)
    ensures DrainMoves(c, m, DrainStep(c, m, r, e), r, plan, runs, goal, safe)
  {
    var v := m.save;
    assert v.buf + r.slots[..v.n - v.first] == ReadFrame(r, v.index, v.n);
  }

  /** Sending a frame moves it from what is left to what was sent. */
  lemma SentAndLeft(sent: seq<EncoderInput>, x: EncoderInput, rest: seq<EncoderInput>)
    ensures sent + [x] + rest == sent + ([x] + rest)
  {
  }

  lemma SendMoves(c: Config, m: MainSide, r: Ring, e: Event, plan: (int, int) -> seq<EncoderInput>,
                  runs: int -> bool, goal: seq<EncoderInput>, safe: bool)
    requires ValidConfig(c) && WellFormed(r) && SafeRead(m.pc, m.save, |r.slots|) && m.pc == MSend
    requires Steps(r, plan, runs, c.frameSize, c.params)
    requires DrainInv(c, MSend, m.save, r, plan, runs, goal, safe)
    ensures DrainMoves(c, m, DrainStep(c, m, r, e), r, plan, runs, goal, safe)
  {
    var v := m.save;
    assert StepsAt(r, plan, runs, v.index, c.frameSize, v.pts, c.params);
    SentAndLeft(v.sent, Data(v.buf, v.pts, c.params), plan(v.index + v.n, v.pts + v.n));
  }

  lemma FlushMoves(c: Config, m: MainSide, r: Ring, e: Event, plan: (int, int) -> seq<EncoderInput>,
                   runs: int -> bool, goal: seq<EncoderInput>, safe: bool)
    requires ValidConfig(c) && WellFormed(r) && m.pc == MFlush && Steps(r, plan, runs, c.frameSize, c.params)
    requires DrainInv(c, MFlush, m.save, r, plan, runs, goal, safe)
    ensures DrainMoves(c, m, DrainStep(c, m, r, e), r, plan, runs, goal, safe)
  {
    assert StepsAt(r, plan, runs, m.save.index, c.frameSize, m.save.pts, c.params);
  }

  lemma DrainKeeps(c: Config, m: MainSide, r: Ring, e: Event, plan: (int, int) -> seq<EncoderInput>,
                   runs: int -> bool, goal: seq<EncoderInput>, safe: bool)
    requires ValidConfig(c) && WellFormed(r) && SafeRead(m.pc, m.save, |r.slots|) && Draining(m.pc)
    requires Steps(r, plan, runs, c.frameSize, c.params)
    requires DrainInv(c, m.pc, m.save, r, plan, runs, goal, safe)
    ensures DrainMoves(c, m, DrainStep(c, m, r, e), r, plan, runs, goal, safe)
  {
    if m.pc == MDrain && e.ret >= 0 && m.save.pending > 0 {
      PacketMoves(c, m, r, e, plan, runs, goal, safe);
    } else if m.pc == MDrain {
      ChooseMoves(c, m, r, e, plan, runs, goal, safe);
    } else if m.pc == MSend {
      SendMoves(c, m, r, e, plan, runs, goal, safe);
    } else if m.pc == MFlush {
      FlushMoves(c, m, r, e, plan, runs, goal, safe);
    } else if m.pc == MReadEnd {
      ReadEndMoves(c, m, r, e, plan, runs, goal, safe);
    } else {
      ReadStartMoves(c, m, r, e, plan, runs, goal, safe);
    }
  }

  // ---------- a save ----------

  ghost function PlanOf(c: Config, r: Ring): (int, int) -> seq<EncoderInput>
    requires ValidConfig(c) && WellFormed(r)
  {
    (i, p) => Plan(r, i, c.frameSize, p, c.params)
  }

  ghost function RunsOf(c: Config, r: Ring): int -> bool
    requires ValidConfig(c)
  {
    i => Runs(r, i, c.frameSize)
  }

  /** All inputs of a save from video time `start` on. */
  ghost function Goal(c: Config, r: Ring, start: int): seq<EncoderInput>
    requires ValidConfig(c) && WellFormed(r)
  {
    PlanOf(c, r)(SaveIndex(c, r, start), 0)
  }

  /** Such a save comes to its end without an undefined access. */
  ghost predicate SafeSave(c: Config, r: Ring, start: int)
    requires ValidConfig(c)
  {
    RunsOf(c, r)(SaveIndex(c, r, start))
  }

  /** What a save from video time `start` owes the encoder, told by the frames alone: the newest
      samples, at most `capacity`, from the start on. */
  ghost function SaveOf(c: Config, capacity: nat, frames: seq<AudioFrame>, start: int): seq<EncoderInput>
    requires ValidConfig(c)
  {
    var size := Min(|SamplesOf(frames)|, capacity);
    Owed(SamplesOf(frames), size, EndTime(frames), AudioTime(c, start), c.frameSize, c.params)
  }

  /** What it owes are the newest of all samples added: as many as fit the ring and are not older
      than the start. */
  lemma SaveOfSamples(c: Config, capacity: nat, frames: seq<AudioFrame>, start: int)
    requires ValidConfig(c)
    ensures var h := SamplesOf(frames);
            Sent(SaveOf(c, capacity, frames, start))
            == Last(h, Min(Min(|h|, capacity), Max(EndTime(frames) - AudioTime(c, start), 0)))
  {
    OwedSamples(SamplesOf(frames), Min(|SamplesOf(frames)|, capacity), EndTime(frames), AudioTime(c, start),
                c.frameSize, c.params);
  }

  /** Its start index before it is cut to an int. */
  ghost function StartOf(c: Config, capacity: nat, frames: seq<AudioFrame>, start: int): nat
    requires ValidConfig(c)
  {
    StartIndex(EndTime(frames), Min(|SamplesOf(frames)|, capacity), AudioTime(c, start))
  }

  /** A save is safe and sends what it owes exactly when its start index fits an int, or when cut
      to one it still lies behind the window; it is safe whenever the cut does not make the index
      negative. */
  lemma SaveIsOwed(c: Config, r: Ring, frames: seq<AudioFrame>, start: int)
    requires ValidConfig(c) && Holds(r, frames)
    ensures var s := StartOf(c, |r.slots|, frames, start);
            && (SafeSave(c, r, start) && Goal(c, r, start) == SaveOf(c, |r.slots|, frames, start)
                <==> FitsInt32(s) || ToInt32(s) >= r.size)
            && (ToInt32(s) >= 0 ==> SafeSave(c, r, start))
  {
    var h, s := SamplesOf(frames), StartOf(c, |r.slots|, frames, start);
    PlanIsOwed(r, h, AudioTime(c, start), c.frameSize, c.params);
    if ToInt32(s) >= 0 {
      WindowRuns(r, h, ToInt32(s), c.frameSize, c.params);
    }
  }

  /** The save starts at the first key frame of the live packets. */
  ghost predicate StartsAt(c: Config, packets: seq<Packet>, start: int) {
    var live := Live(packets, c.window);
    FirstKey(live) < |live| && start == live[FirstKey(live)].pts
  }

  /** A drain that ended: it was a safe save of these frames and packets, and it sent its goal. */
  ghost predicate DrainedOk(c: Config, d: Drained)
    requires ValidConfig(c)
  {
    && Holds(d.ring, d.snapshot) && StartsAt(c, d.packets, d.start)
    && SafeSave(c, d.ring, d.start) && d.sent == Goal(c, d.ring, d.start)
  }

  ghost predicate DrainedInv(c: Config, drained: seq<Drained>)
    requires ValidConfig(c)
  {
    forall d :: d in drained ==> DrainedOk(c, d)
  }

  lemma DrainedGrows(c: Config, drained: seq<Drained>, d: Drained)
    requires ValidConfig(c) && DrainedInv(c, drained) && DrainedOk(c, d)
    ensures DrainedInv(c, drained + [d])
  {
  }

  /** The drain of a save, on the ring of exactly the frames added before the save took the mutex. */
  ghost predicate DrainingInv(c: Config, m: MainSide, r: Ring, added: seq<AudioFrame>)
    requires ValidConfig(c)
  {
    && Holds(r, added) && StartsAt(c, m.packets, m.save.start)
    && DrainInv(c, m.pc, m.save, r, PlanOf(c, r), RunsOf(c, r), Goal(c, r, m.save.start), SafeSave(c, r, m.save.start))
  }

  /** What the output has got before the drain, after it, and after the video. */
  ghost predicate WrittenInv(c: Config, m: MainSide) {
    && (m.pc.MCreate? || m.pc.MGetParams? || m.pc.MOpen? || m.pc.MStartTime? ==>
          m.save.produced == [] && m.save.written == [])
    && (m.pc == MVideoWrite ==> m.save.written == Tagged(m.save.produced, 1))
    && (m.pc == MClose ==>
          m.save.written == Tagged(m.save.produced, 1) + SavedVideo(Live(m.packets, c.window), 0))
  }

  /** During a save no add finishes; every drain that ended was safe and sent its goal; only an
      undefined drain is trapped. */
  ghost predicate SaveInv(c: Config, m: MainSide, r: Ring, added: seq<AudioFrame>)
    requires ValidConfig(c)
  {
    && (InSave(m.pc) ==> m.save.snapshot == added)
    && (Draining(m.pc) ==> DrainingInv(c, m, r, added))
    && (m.pc == MTrapped ==> StartsAt(c, m.packets, m.save.start) && !SafeSave(c, r, m.save.start))
    && WrittenInv(c, m)
    && DrainedInv(c, m.drained)
  }

  // ---------- shutdown ----------

  /** The ring is freed only when the audio thread has ended for good. */
  ghost predicate ShutdownInv(s: State) {
    && (s.m.freed ==> s.m.pc == MDone)
    && (s.m.pc == MFree || s.m.pc == MDone ==> s.a.pc == ADone)
  }

  // ---------- each step keeps these invariants ----------

  ghost predicate RingSafety(c: Config, s: State)
    requires ValidConfig(c)
  {
    && Safe(s)
    && LockInv(s)
    && RingInv(s.a)
    && SaveInv(c, s.m, s.a.ring, s.a.added)
    && ShutdownInv(s)
  }

  lemma AudioLockStep(s: State, e: Event)
    requires Safe(s) && LockInv(s) && ShutdownInv(s)
    ensures LockInv(AudioLoopStep(s, e)) && ShutdownInv(AudioLoopStep(s, e))
  {
  }

  lemma AudioLeavesMain(s: State, e: Event)
    requires Safe(s)
    ensures AudioStep(s, e).m == s.m
    ensures |AudioStep(s, e).a.ring.slots| == |s.a.ring.slots|
  {
  }

  lemma AudioKeeps(c: Config, s: State, e: Event)
    requires ValidConfig(c) && RingSafety(c, s) && s.a.me.call == NoCall
    ensures RingSafety(c, AudioLoopStep(s, e))
  {
    AudioStaysSafe(s, e);
    AudioLeavesMain(s, e);
    AudioLockStep(s, e);
    AudioKeepsRing(s, e);
    if !InAdd(s.a.pc) {
      AudioOutsideAdd(s, e);
    }
  }

  lemma MainAloneFrames(c: Config, m: MainSide, e: Event)
    requires !InSave(m.pc)
    ensures var t := MainAlone(c, m, e);
            t.save == m.save && t.drained == m.drained && !InSave(t.pc)
  {
  }

  lemma LoopLockStep(c: Config, s: State, e: Event)
    requires LockInv(s) && ShutdownInv(s) && !InSave(s.m.pc)
    ensures LockInv(LoopStep(c, s, e)) && ShutdownInv(LoopStep(c, s, e))
  {
  }

  lemma LoopFrames(c: Config, s: State, e: Event)
    requires !InSave(s.m.pc)
    ensures var t := LoopStep(c, s, e);
            && t.a == s.a && t.m.drained == s.m.drained
            && (InSave(t.m.pc) ==>
                  && t.m.pc == MCreate && t.m.save.snapshot == s.a.added
                  && t.m.save.produced == [] && t.m.save.written == [])
  {
    MainAloneFrames(c, s.m, e);
  }

  lemma LoopKeeps(c: Config, s: State, e: Event)
    requires ValidConfig(c) && RingSafety(c, s) && !InSave(s.m.pc)
    ensures RingSafety(c, LoopStep(c, s, e))
  {
    LoopStaysSafe(c, s, e);
    LoopLockStep(c, s, e);
    LoopFrames(c, s, e);
  }

  lemma SaveStepFrames(c: Config, m: MainSide, r: Ring, e: Event)
    requires ValidConfig(c) && InSave(m.pc) && !Draining(m.pc) && m.pc != MUnlock
    ensures var t := SaveAlone(c, m, r, e);
            && InSave(t.pc) && t.drained == m.drained && t.freed == m.freed && t.packets == m.packets
            && t.save.snapshot == m.save.snapshot
            && (t.pc == MTrapped ==> t == m)
  {
  }

  lemma DrainBegins(c: Config, v: Save, r: Ring, plan: (int, int) -> seq<EncoderInput>, runs: int -> bool)
    requires ValidConfig(c) && WellFormed(r) && v.sent == [] && !v.flushed && v.produced == [] && v.written == []
    ensures DrainInv(c, MDrain, v, r, plan, runs, plan(v.index, v.pts), runs(v.index))
  {
    assert Tagged([], 1) == [];
    assert [] + plan(v.index, v.pts) == plan(v.index, v.pts);
  }

  lemma SaveStarts(c: Config, m: MainSide, r: Ring, e: Event)
    requires ValidConfig(c) && InSave(m.pc) && !Draining(m.pc) && m.pc != MUnlock && Draining(SaveAlone(c, m, r, e).pc)
    ensures var t := SaveAlone(c, m, r, e);
            && m.pc == MStartTime && t.pc == MDrain && StartsAt(c, t.packets, t.save.start)
            && t.save.sent == [] && !t.save.flushed && t.save.pts == 0
            && t.save.index == SaveIndex(c, r, t.save.start)
            && t.save.produced == m.save.produced && t.save.written == m.save.written
  {
  }

  /** The drain begins at the first key frame with everything owed. */
  lemma SaveBegins(c: Config, m: MainSide, r: Ring, e: Event, added: seq<AudioFrame>)
    requires ValidConfig(c) && InSave(m.pc) && !Draining(m.pc) && m.pc != MUnlock
    requires Holds(r, added) && WrittenInv(c, m) && Draining(SaveAlone(c, m, r, e).pc)
    ensures DrainingInv(c, SaveAlone(c, m, r, e), r, added)
  {
    SaveStarts(c, m, r, e);
    DrainBegins(c, SaveAlone(c, m, r, e).save, r, PlanOf(c, r), RunsOf(c, r));
  }

  lemma SaveWrites(c: Config, m: MainSide, r: Ring, e: Event)
    requires ValidConfig(c) && InSave(m.pc) && !Draining(m.pc) && m.pc != MUnlock && WrittenInv(c, m)
    ensures WrittenInv(c, SaveAlone(c, m, r, e))
  {
  }

  lemma SaveKeeps(c: Config, s: State, e: Event)
    requires ValidConfig(c) && InSave(s.m.pc) && !Draining(s.m.pc)
    ensures RingSafety(c, s) ==> RingSafety(c, SaveStep(c, s, e))
  {
    if RingSafety(c, s) && s.m.pc != MUnlock {
      var t := SaveAlone(c, s.m, s.a.ring, e);
      SaveStepFrames(c, s.m, s.a.ring, e);
      SaveWrites(c, s.m, s.a.ring, e);
      if Draining(t.pc) {
        SaveBegins(c, s.m, s.a.ring, e, s.a.added);
      }
    }
  }

  lemma DrainKeepsSave(c: Config, m: MainSide, r: Ring, e: Event, added: seq<AudioFrame>)
    requires ValidConfig(c) && WellFormed(r) && SafeRead(m.pc, m.save, |r.slots|) && Draining(m.pc)
    requires SaveInv(c, m, r, added)
    ensures SaveInv(c, DrainStep(c, m, r, e), r, added)
    ensures InSave(DrainStep(c, m, r, e).pc) && DrainStep(c, m, r, e).freed == m.freed
  {
    var goal, safe := Goal(c, r, m.save.start), SafeSave(c, r, m.save.start);
    PlanSteps(r, c.frameSize, c.params);
    DrainKeeps(c, m, r, e, PlanOf(c, r), RunsOf(c, r), goal, safe);
    if safe {
      DrainedGrows(c, m.drained, Drained(m.save.snapshot, m.packets, r, m.save.start, goal));
    }
  }

  /** Every step of either thread keeps the mutex discipline, the ring, the save and the order of
      the shutdown. */
  lemma RingSafetyNext(c: Config, s: State, e: Event)
    requires ValidConfig(c) && RingSafety(c, s)
    ensures RingSafety(c, Next(c, s, e))
  {
    match e.who
    case Audio =>
      if s.a.me.call == NoCall {
        AudioKeeps(c, s, e);
      }
    case Main =>
      if s.m.me.call == NoCall {
        if Draining(s.m.pc) {
          DrainStaysSafe(c, s.m, s.a.ring, e);
          DrainKeepsSave(c, s.m, s.a.ring, e, s.a.added);
        } else if InSave(s.m.pc) {
          SaveKeeps(c, s, e);
        } else {
          LoopKeeps(c, s, e);
        }
      }
  }
}
