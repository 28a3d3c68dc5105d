// What a save of a run puts out, and that it goes through all its stages: told by the events since
// the main thread took the mutex.

module ThreadSaves {
  import opened CLib
  import opened Samples
  import opened FrameCutting
  import opened AudioRing
  import opened DrainPlan
  import opened Codec
  import opened PacketWindow
  import opened SilenceLog
  import opened Threads
  import opened ThreadSafety
  import opened ThreadSilence
  import opened ThreadRuns
  import opened ThreadAccounts

  // Since the main thread last took the mutex: the packets that the audio encoder gave and the
  // output took, and how many it gained with the inputs it accepted.
  datatype SaveBook = SaveBook(given: seq<Packet>, gained: nat)

  function SaveEntry(b: SaveBook, s: State, e: Event): SaveBook {
    if Locks(s, e) then SaveBook([], 0)
    else if MainActs(s, e, MDrain) && e.ret >= 0 && |b.given| < b.gained && e.ok then
      b.(given := b.given + [e.packet])
    else if (MainActs(s, e, MSend) || MainActs(s, e, MFlush)) && e.ok then b.(gained := b.gained + e.more)
    else b
  }

  predicate Opens(pc: MainPc) {
    pc.MCreate? || pc.MGetParams? || pc.MOpen? || pc.MStartTime?
  }

  ghost predicate BeginningOf(w: seq<Packet>, full: seq<Packet>) {
    w <= full
  }

  /** The output got the packets the encoder gave as stream 1, then the video, and stops short of
      them only where the save does; before the video comes a logged drain. */
  ghost predicate AccountedFor(m: MainSide, b: SaveBook, video: seq<Packet>) {
    && (Opens(m.pc) ==> b == SaveBook([], 0) && m.save.written == [])
    && (Draining(m.pc) ==> m.save.pending + |b.given| == b.gained)
    && (Draining(m.pc) || m.pc == MVideoWrite ==> m.save.written == Tagged(b.given, 1))
    && (m.pc == MVideoWrite || m.pc == MClose ==> LoggedLast(m))
    && (m.pc == MClose ==> m.save.written == Tagged(b.given, 1) + video)
    && (m.pc == MCleanup || m.pc == MUnlock ==> BeginningOf(m.save.written, Tagged(b.given, 1) + video))
  }

  ghost predicate Accounted(c: Config, m: MainSide, b: SaveBook) {
    AccountedFor(m, b, SavedVideo(Live(m.packets, c.window), 0))
  }

  /** The last drain logged is that of the save under way. */
  ghost predicate LoggedLast(m: MainSide) {
    && m.drained != []
    && var d := m.drained[|m.drained| - 1];
       d.snapshot == m.save.snapshot && d.packets == m.packets && d.start == m.save.start && d.sent == m.save.sent
  }

  /** What one step of the drain loop makes of it. */
  ghost predicate DrainAccounted(m: MainSide, b: SaveBook) {
    && (Draining(m.pc) || m.pc == MTrapped || m.pc == MCleanup || (m.pc == MVideoWrite && LoggedLast(m)))
    && m.save.written == Tagged(b.given, 1)
    && (Draining(m.pc) ==> m.save.pending + |b.given| == b.gained)
  }

  lemma TopAccounted(c: Config, s: State, e: Event, b: SaveBook)
    requires ValidConfig(c) && Safe(s) && MainActs(s, e, MDrain) && DrainAccounted(s.m, b)
    ensures DrainAccounted(DrainStep(c, s.m, s.a.ring, e), SaveEntry(b, s, e))
  {
    TaggedOneMore(b.given, e.packet);
  }

  lemma ReadAccounted(c: Config, s: State, e: Event, b: SaveBook)
    requires ValidConfig(c) && Safe(s) && MainActs(s, e, s.m.pc) && DrainAccounted(s.m, b)
    requires s.m.pc == MReadEnd || s.m.pc == MReadStart
    ensures DrainAccounted(DrainStep(c, s.m, s.a.ring, e), SaveEntry(b, s, e))
  {
  }

  lemma SendAccounted(c: Config, s: State, e: Event, b: SaveBook)
    requires ValidConfig(c) && Safe(s) && MainActs(s, e, s.m.pc) && DrainAccounted(s.m, b)
    requires s.m.pc == MSend || s.m.pc == MFlush
    ensures DrainAccounted(DrainStep(c, s.m, s.a.ring, e), SaveEntry(b, s, e))
  {
  }

  lemma DrainStepAccounted(c: Config, s: State, e: Event, b: SaveBook)
    requires ValidConfig(c) && Safe(s) && Draining(s.m.pc) && MainActs(s, e, s.m.pc) && DrainAccounted(s.m, b)
    ensures DrainAccounted(DrainStep(c, s.m, s.a.ring, e), SaveEntry(b, s, e))
  {
    if s.m.pc == MDrain {
      TopAccounted(c, s, e, b);
    } else if s.m.pc == MSend || s.m.pc == MFlush {
      SendAccounted(c, s, e, b);
    } else {
      ReadAccounted(c, s, e, b);
    }
  }

  lemma AccountedByDrain(c: Config, m: MainSide, b: SaveBook)
    requires DrainAccounted(m, b)
    ensures Accounted(c, m, b)
  {
  }

  lemma OpenAccounted(m: MainSide, t: MainSide, b: SaveBook, video: seq<Packet>)
    requires Opens(m.pc) && AccountedFor(m, b, video)
    requires Opens(t.pc) || t.pc == MCleanup || (t.pc == MDrain && t.save.pending == 0)
    requires t.save.written == m.save.written
    ensures AccountedFor(t, b, video)
  {
    assert Tagged([], 1) == [];
  }

  lemma VideoAccounted(m: MainSide, t: MainSide, k: nat, b: SaveBook, video: seq<Packet>)
    requires m.pc == MVideoWrite && AccountedFor(m, b, video) && k <= |video|
    requires t == m.(pc := t.pc, save := m.save.(written := m.save.written + video[..k]))
    requires t.pc == MCleanup || (t.pc == MClose && k == |video|)
    ensures AccountedFor(t, b, video)
  {
    assert m.save.written + video[..k] <= m.save.written + video;
    assert video[..|video|] == video;
  }

  lemma CloseAccounted(m: MainSide, t: MainSide, b: SaveBook, video: seq<Packet>)
    requires AccountedFor(m, b, video) && t == m.(pc := t.pc)
    requires (m.pc == MClose && t.pc == MCleanup) || (m.pc == MCleanup && t.pc == MUnlock)
    ensures AccountedFor(t, b, video)
  {
  }

  lemma SetupAccounted(c: Config, s: State, e: Event, b: SaveBook)
    requires ValidConfig(c) && InSave(s.m.pc) && !Draining(s.m.pc) && s.m.pc != MUnlock && Accounted(c, s.m, b)
    ensures Accounted(c, SaveAlone(c, s.m, s.a.ring, e), b)
  {
    if Opens(s.m.pc) {
      OpenAccounted(s.m, SaveAlone(c, s.m, s.a.ring, e), b, SavedVideo(Live(s.m.packets, c.window), 0));
    } else if s.m.pc == MVideoWrite {
      var video := SavedVideo(Live(s.m.packets, c.window), 0);
      assert video[..|video|] == video;
      VideoAccounted(s.m, SaveAlone(c, s.m, s.a.ring, e), if e.ok then |video| else Min(e.more, |video|), b, video);
    } else if s.m.pc != MTrapped {
      CloseAccounted(s.m, SaveAlone(c, s.m, s.a.ring, e), b, SavedVideo(Live(s.m.packets, c.window), 0));
    }
  }

  lemma OutsideAccounted(c: Config, s: State, e: Event, b: SaveBook)
    requires MainActs(s, e, s.m.pc) && !InSave(s.m.pc)
    ensures Accounted(c, LoopStep(c, s, e).m, SaveEntry(b, s, e))
  {
    MainAloneFrames(c, s.m, e);
  }

  lemma LoopAccounted(c: Config, m: MainSide, b: SaveBook)
    requires !InSave(m.pc)
    ensures Accounted(c, m, b)
  {
  }

  lemma SaveStepAccounted(c: Config, s: State, e: Event, b: SaveBook)
    requires ValidConfig(c) && Safe(s) && InSave(s.m.pc) && MainActs(s, e, s.m.pc) && Accounted(c, s.m, b)
    ensures Accounted(c, MainStep(c, s, e).m, SaveEntry(b, s, e))
  {
    if Draining(s.m.pc) {
      DrainStepAccounted(c, s, e, b);
      AccountedByDrain(c, DrainStep(c, s.m, s.a.ring, e), SaveEntry(b, s, e));
    } else {
      assert SaveEntry(b, s, e) == b;
      if s.m.pc == MUnlock {
        LoopAccounted(c, MainStep(c, s, e).m, b);
      } else {
        SetupAccounted(c, s, e, b);
      }
    }
  }

  lemma IdleAccounted(m: MainSide, t: MainSide, b: SaveBook, video: seq<Packet>)
    requires AccountedFor(m, b, video) && t == m.(me := t.me)
    ensures AccountedFor(t, b, video)
  {
  }

  lemma AccountedNext(c: Config, s: State, e: Event, b: SaveBook)
    requires ValidConfig(c) && Safe(s) && Accounted(c, s.m, b)
    ensures Accounted(c, Next(c, s, e).m, SaveEntry(b, s, e))
  {
    if MainActs(s, e, s.m.pc) {
      if InSave(s.m.pc) {
        SaveStepAccounted(c, s, e, b);
      } else {
        OutsideAccounted(c, s, e, b);
      }
    } else {
      IdleAccounted(s.m, Next(c, s, e).m, b, SavedVideo(Live(s.m.packets, c.window), 0));
    }
  }

  /** After any interleaving: what a save has put out is told by the packets that the encoder gave
      since the mutex was taken. */
  lemma SaveAccounts(c: Config, s: State, events: seq<Event>)
    requires ValidConfig(c) && Init(s)
    ensures Accounted(c, Run(c, s, events).m, Fold(c, s, events, SaveBook([], 0), SaveEntry))
  {
    var agrees := (t: State, b: SaveBook) => Accounted(c, t.m, b);
    forall t, e, b
      ensures KeepsAt(c, t, e, b, SaveEntry, agrees)
    {
      if Inv(c, t) && agrees(t, b) {
        AccountedNext(c, t, e, b);
      }
    }
    FoldKeeps(c, s, events, SaveBook([], 0), SaveEntry, agrees);
  }

  // ---------- every stage of a save ----------

  /** Something a save needs was refused: memory, the encoder, the output, a time to start at. */
  ghost predicate Refused(c: Config, m: MainSide, e: Event) {
    match m.pc
    case MStartTime => !e.ok || forall start: nat :: !StartsAt(c, m.packets, start)
    case MDrain =>
      if e.ret >= 0 && m.save.pending > 0 then !e.ok
      else e.ret < 0 && e.ret != ERROR_AGAIN && e.ret != ERROR_EOF
    case _ =>
      && !e.ok
      && (m.pc.MCreate? || m.pc.MGetParams? || m.pc.MOpen? || m.pc.MSend? || m.pc.MFlush? || m.pc.MVideoWrite?)
  }

  // One step of a save: to the cleanup when something is refused, and else by one stage at most.
  ghost predicate SkipsNothing(c: Config, m: MainSide, t: MainSide, e: Event) {
    && (Refused(c, m, e) ==> t.pc == MCleanup)
    && (!Refused(c, m, e) && InSave(t.pc) && t.pc != MTrapped ==> StageOf(m.pc) <= StageOf(t.pc) + 1)
    && (!InSave(t.pc) ==> m.pc == MUnlock)
  }

  lemma StartRefused(c: Config, m: MainSide)
    ensures var live := Live(m.packets, c.window);
            var k := FirstKey(live);
            (k == |live| || live[k].pts < 0) <==> forall start: nat :: !StartsAt(c, m.packets, start)
  {
    var live := Live(m.packets, c.window);
    var k := FirstKey(live);
    if k < |live| && live[k].pts >= 0 {
      assert StartsAt(c, m.packets, live[k].pts);
    }
  }

  lemma DrainSkipsNothing(c: Config, m: MainSide, r: Ring, e: Event)
    requires ValidConfig(c) && WellFormed(r) && SafeRead(m.pc, m.save, |r.slots|) && Draining(m.pc)
    ensures SkipsNothing(c, m, DrainStep(c, m, r, e), e)
  {
  }

  lemma StartSkipsNothing(c: Config, m: MainSide, r: Ring, e: Event)
    requires ValidConfig(c) && m.pc == MStartTime
    ensures SkipsNothing(c, m, SaveAlone(c, m, r, e), e)
  {
    StartRefused(c, m);
  }

  lemma SetupSkipsNothing(c: Config, m: MainSide, r: Ring, e: Event)
    requires ValidConfig(c) && m.pc != MStartTime
    requires InSave(m.pc) && !Draining(m.pc) && m.pc != MUnlock && m.pc != MTrapped
    ensures SkipsNothing(c, m, SaveAlone(c, m, r, e), e)
  {
  }

  /** A save goes through all its stages, one after the other: it breaks off for the cleanup just
      when something is refused, and leaves only by the unlock. */
  lemma SaveSkipsNothing(c: Config, s: State, e: Event)
    requires ValidConfig(c) && Safe(s) && MainActs(s, e, s.m.pc) && InSave(s.m.pc) && s.m.pc != MTrapped
    ensures SkipsNothing(c, s.m, Next(c, s, e).m, e)
  {
    if Draining(s.m.pc) {
      DrainSkipsNothing(c, s.m, s.a.ring, e);
    } else if s.m.pc == MStartTime {
      StartSkipsNothing(c, s.m, s.a.ring, e);
    } else if s.m.pc != MUnlock {
      SetupSkipsNothing(c, s.m, s.a.ring, e);
    }
  }

  // ---------- a save contains what the devices and encoders gave ----------

  lemma {:induction false} TraceAt(c: Config, s: State, events: seq<Event>, i: nat)
    requires ValidConfig(c) && Safe(s) && i <= |events|
    ensures Trace(c, s, events)[i] == Run(c, s, events[..i])
    decreases |events|
  {
    if i < |events| {
      var before := events[..|events| - 1];
      assert Trace(c, s, events) == Trace(c, s, before) + [Run(c, s, events)];
      TraceAt(c, s, before, i);
      assert before[..i] == events[..i];
    } else {
      assert events[..i] == events;
    }
  }

  /** Up to event `i` the device delivered these frames, apart from the one in hand, and the video
      encoder handed out these packets; then the main thread took the mutex. */
  ghost predicate GivenUntil(c: Config, s: State, events: seq<Event>, i: nat, snapshot: seq<AudioFrame>,
                             packets: seq<Packet>)
    requires ValidConfig(c) && Safe(s)
  {
    && i < |events|
    && var t := Run(c, s, events[..i]);
       && Locks(t, events[i])
       && snapshot + InHand(t.a) == Delivered(c, s, events[..i])
       && packets == Handed(c, s, events[..i])
  }

  lemma AtLockNoCall(s: State)
    requires SilenceInv(s) && s.m.pc == MLock
    ensures s.m.me.call == NoCall
  {
  }

  lemma LockGiven(c: Config, s: State, events: seq<Event>, i: nat)
    requires ValidConfig(c) && Init(s) && i < |events| && events[i].who == Main
    requires Run(c, s, events[..i]).m.pc == MLock && Run(c, s, events[..i]).ringLock == Free
    ensures var t := Run(c, s, events[..i]); GivenUntil(c, s, events, i, t.a.added, t.m.packets)
  {
    RunKeeps(c, s, events[..i]);
    AtLockNoCall(Run(c, s, events[..i]));
    AudioAccounts(c, s, events[..i]);
    PacketAccounts(c, s, events[..i]);
  }

  /** Main theorem. Every drain that ran to its end, and with it every save that goes on to its
      video, is of all the frames that the audio device had delivered and all the packets that the
      video encoder had handed out when the save took the mutex. */
  lemma SavesAreOfAllGiven(c: Config, s: State, events: seq<Event>, d: Drained)
    requires ValidConfig(c) && Init(s)
    ensures d in Run(c, s, events).m.drained ==>
              exists i: nat :: GivenUntil(c, s, events, i, d.snapshot, d.packets)
  {
    if d in Run(c, s, events).m.drained {
      SavesAreSnapshots(c, s, events, d);
      var states := Trace(c, s, events);
      var i: nat, k: nat :| OneSave(states, events, i, k, d.snapshot, d.packets) && LoggedAt(states, events, k, d);
      TraceAt(c, s, events, i);
      LockGiven(c, s, events, i);
    }
  }
}
