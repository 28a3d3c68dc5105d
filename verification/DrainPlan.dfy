// What the drain loop of a save hands to the encoder, as a function of the ring and of the start
// index, which is an int and may have lost its high bits. A negative index makes the loop read
// in front of the window, and some of these reads C does not define.

module DrainPlan {
  import opened CLib
  import opened Samples
  import opened FrameCutting
  import opened AudioRing

  /** Where audio time `start` lies in a window of `size` samples that ends at `endTime`. */
  function StartIndex(endTime: int, size: nat, start: int): nat {
    Max(start - (endTime - size), 0)
  }

  function FrameLength(r: Ring, i: int, frameSize: nat): (n: nat)
    requires i < r.size && frameSize > 0
    ensures 1 <= n <= r.size - i
  {
    Min(frameSize, r.size - i)
  }

  /** Taking the next frame at position `i` is defined: no overflow, no division by zero, no slot
      outside the ring. */
  predicate Defined(r: Ring, i: int, frameSize: nat)
    requires i < r.size && frameSize > 0
  {
    FitsInt32(r.size - i) && Inside(r, i, FrameLength(r, i, frameSize))
  }

  /** The slot of an int position is found without an overflow. */
  lemma SlotSumFits(r: Ring, i: int)
    requires WellFormed(r) && FitsInt32(i) && i < r.size
    ensures FitsInt32(r.index + i)
  {
  }

  /** All inputs the loop sends from position `i` on, up to the flush or to the first undefined
      access. */
  function Plan(r: Ring, i: int, frameSize: nat, pts: int, params: AudioParams): seq<EncoderInput>
    requires WellFormed(r) && frameSize > 0
    decreases r.size - i
  {
    if i >= r.size then [Flush]
    else if !Defined(r, i, frameSize) then []
    else
      var n := FrameLength(r, i, frameSize);
      [Data(ReadFrame(r, i, n), pts, params)] + Plan(r, i + n, frameSize, pts + n, params)
  }

  /** The loop from position `i` on is defined to its end. */
  predicate Runs(r: Ring, i: int, frameSize: nat)
    requires frameSize > 0
    decreases r.size - i
  {
    i >= r.size || (Defined(r, i, frameSize) && Runs(r, i + FrameLength(r, i, frameSize), frameSize))
  }

  /** One turn at position `i`: the flush, or an undefined access, or the next frame. */
  ghost predicate StepsAt(r: Ring, plan: (int, int) -> seq<EncoderInput>, runs: int -> bool,
                          i: int, frameSize: nat, pts: int, params: AudioParams)
    requires WellFormed(r) && frameSize > 0
  {
    if i >= r.size then plan(i, pts) == [Flush] && runs(i)
    else if !Defined(r, i, frameSize) then plan(i, pts) == [] && !runs(i)
    else
      var n := FrameLength(r, i, frameSize);
      && plan(i, pts) == [Data(ReadFrame(r, i, n), pts, params)] + plan(i + n, pts + n)
      && runs(i) == runs(i + n)
  }

  /** These functions tell, turn by turn, what a loop at any position sends and whether it is
      defined to its end. */
  ghost predicate Steps(r: Ring, plan: (int, int) -> seq<EncoderInput>, runs: int -> bool,
                        frameSize: nat, params: AudioParams)
    requires WellFormed(r) && frameSize > 0
  {
    forall i, p :: StepsAt(r, plan, runs, i, frameSize, p, params)
  }

  lemma PlanSteps(r: Ring, frameSize: nat, params: AudioParams)
    requires WellFormed(r) && frameSize > 0
    ensures Steps(r, (i, p) => Plan(r, i, frameSize, p, params), i => Runs(r, i, frameSize), frameSize, params)
  {
    var plan, runs := (i, p) => Plan(r, i, frameSize, p, params), i => Runs(r, i, frameSize);
    forall i, p
      ensures StepsAt(r, plan, runs, i, frameSize, p, params)
    {
    }
  }

  /** Inside the window the first input of the plan is the next piece of it. */
  lemma WindowIsNext(r: Ring, h: seq<Sample>, i: nat, frameSize: nat, pts: int, params: AudioParams)
    requires Represents(r, h) && frameSize > 0
    ensures CutsAt((j, p) => Plan(r, j, frameSize, p, params), Last(h, r.size), i, frameSize, pts, params)
    ensures i < r.size ==> Defined(r, i, frameSize)
  {
    if i < r.size {
      ReadFrameIsWindow(r, h, i, FrameLength(r, i, frameSize));
    }
  }

  /** From a position that is not negative the loop sends the window from there on. */
  lemma {:induction false} PlanIsCut(r: Ring, h: seq<Sample>, i: nat, frameSize: nat, pts: int, params: AudioParams)
    requires Represents(r, h) && frameSize > 0
    ensures Plan(r, i, frameSize, pts, params) == Cut(Last(h, r.size), i, frameSize, pts, params)
  {
    var plan := (j, p) => Plan(r, j, frameSize, p, params);
    forall j: nat, p
      ensures CutsAt(plan, Last(h, r.size), j, frameSize, p, params)
    {
      WindowIsNext(r, h, j, frameSize, p, params);
    }
    CutIsOnly(plan, Last(h, r.size), i, frameSize, pts, params);
  }

  /** And it is defined to its end. */
  lemma {:induction false} WindowRuns(r: Ring, h: seq<Sample>, i: nat, frameSize: nat, params: AudioParams)
    requires Represents(r, h) && frameSize > 0
    ensures Runs(r, i, frameSize)
    decreases r.size - i
  {
    if i < r.size {
      WindowIsNext(r, h, i, frameSize, 0, params);
      WindowRuns(r, h, i + FrameLength(r, i, frameSize), frameSize, params);
    }
  }

  // ---------- what a save owes ----------

  /** What a save from audio time `start` on owes the encoder: of the newest `size` samples, which
      end at `endTime`, those that are no older than `start`. */
  function Owed(h: seq<Sample>, size: nat, endTime: int, start: int, frameSize: nat, params: AudioParams)
    : seq<EncoderInput>
    requires size <= |h| && frameSize > 0
  {
    Cut(Last(h, Min(size, Max(endTime - start, 0))), 0, frameSize, 0, params)
  }

  lemma OwedSamples(h: seq<Sample>, size: nat, endTime: int, start: int, frameSize: nat, params: AudioParams)
    requires size <= |h| && frameSize > 0
    ensures Sent(Owed(h, size, endTime, start, frameSize, params)) == Last(h, Min(size, Max(endTime - start, 0)))
  {
    CutSendsAll(Last(h, Min(size, Max(endTime - start, 0))), 0, frameSize, 0, params);
  }

  /** The start index finds them. */
  lemma OwedFromIndex(h: seq<Sample>, size: nat, endTime: int, start: int, frameSize: nat, params: AudioParams)
    requires size <= |h| && frameSize > 0
    ensures Owed(h, size, endTime, start, frameSize, params)
            == Cut(Last(h, size), Min(StartIndex(endTime, size, start), size), frameSize, 0, params)
  {
    var i := Min(StartIndex(endTime, size, start), size);
    CutRest(Last(h, size), i, frameSize, params);
    assert Last(h, size)[i..] == Last(h, size - i);
  }

  lemma CutBehind(w: seq<Sample>, i: nat, j: nat, frameSize: nat, params: AudioParams)
    requires frameSize > 0 && i >= |w| && j >= |w|
    ensures Cut(w, i, frameSize, 0, params) == Cut(w, j, frameSize, 0, params) == [Flush]
  {
  }

  /** A drain that starts at the index cut to an int is defined and sends exactly what is owed
      just when the index fits an int, or when cut it still lies behind the window. */
  lemma {:induction false} PlanIsOwed(r: Ring, h: seq<Sample>, start: int, frameSize: nat, params: AudioParams)
    requires Represents(r, h) && frameSize > 0
    ensures var s := StartIndex(r.endTime, r.size, start);
            Runs(r, ToInt32(s), frameSize)
            && Plan(r, ToInt32(s), frameSize, 0, params) == Owed(h, r.size, r.endTime, start, frameSize, params)
            <==> FitsInt32(s) || ToInt32(s) >= r.size
  {
    var s := StartIndex(r.endTime, r.size, start);
    var i, w := ToInt32(s), Last(h, r.size);
    OwedFromIndex(h, r.size, r.endTime, start, frameSize, params);
    if s >= r.size {
      CutBehind(w, s, r.size, frameSize, params);
    }
    if FitsInt32(s) || i >= r.size {
      PlanIsCut(r, h, i, frameSize, 0, params);
      WindowRuns(r, h, i, frameSize, params);
      if i >= r.size {
        CutBehind(w, i, r.size, frameSize, params);
      }
    }
  }

  // ---------- negative start indices ----------

  /** The exact condition for a defined drain. It holds for every index that is not negative. From
      a negative one the first read must not overflow and must not pass the start of the ring,
      unless it hits slot 0 by a multiple of the size; and then the next one must do so too. */
  predicate MayStartAt(r: Ring, i: int, frameSize: nat)
    requires WellFormed(r) && frameSize > 0
  {
    i >= 0
    || (&& r.size > 0 && FitsInt32(r.size - i)
        && (r.index + i >= 0
            || (&& -(r.index + i) % r.size == 0
                && Min(frameSize, r.size - i) <= r.size + |r.slots|
                && (r.index + i + frameSize < 0 ==> frameSize % r.size == 0))))
  }

  lemma {:induction false} MultiplesDiffer(x: nat, f: nat, n: nat)
    requires n > 0 && f <= x && x % n == 0
    ensures (x - f) % n == 0 <==> f % n == 0
  {
    var q := x / n;
    if f % n == 0 {
      var p := f / n;
      assert n * (q - p) == n * q - n * p;
      QuotientUnique(x - f, n, q - p, 0);
    }
    if (x - f) % n == 0 {
      var p := (x - f) / n;
      assert n * (q - p) == n * q - n * p;
      QuotientUnique(f, n, q - p, 0);
    }
  }

  /** In front of the window but not in front of the ring every read is inside. */
  lemma {:induction false} InsideBehindStart(r: Ring, i: int, n: nat)
    requires WellFormed(r) && r.size > 0 && i < 0 <= r.index + i && n <= r.size - i
    ensures Inside(r, i, n)
  {
    var x := r.index + i;
    assert x % r.size <= x by { DivisionBounds(x, r.size); }
  }

  lemma {:induction false} DivisionBounds(x: nat, n: nat)
    requires n > 0
    ensures x % n <= x
  {
    assert n * (x / n) >= 0;
  }

  lemma {:induction false} DefinedExactly(r: Ring, i: int, frameSize: nat)
    requires WellFormed(r) && frameSize > 0 && i < 0
    ensures Defined(r, i, frameSize) <==>
            && r.size > 0 && FitsInt32(r.size - i)
            && (r.index + i >= 0 || (-(r.index + i) % r.size == 0
                                     && Min(frameSize, r.size - i) <= r.size + |r.slots|))
  {
    if r.size > 0 && r.index + i >= 0 {
      InsideBehindStart(r, i, FrameLength(r, i, frameSize));
    }
  }

  /** From a negative index the drain is defined exactly under the condition above. */
  lemma {:induction false} RunsExactly(r: Ring, h: seq<Sample>, i: int, frameSize: nat, params: AudioParams)
    requires Represents(r, h) && frameSize > 0
    ensures Runs(r, i, frameSize) <==> MayStartAt(r, i, frameSize)
    decreases r.size - i
  {
    if i >= 0 {
      WindowRuns(r, h, i, frameSize, params);
    } else {
      DefinedExactly(r, i, frameSize);
      if Defined(r, i, frameSize) {
        var n := FrameLength(r, i, frameSize);
        RunsExactly(r, h, i + n, frameSize, params);
        if r.index + i + n < 0 {
          MultiplesDiffer(-(r.index + i), n, r.size);
        }
      }
    }
  }

  /** An empty ring: any negative index divides by zero at once. */
  lemma EmptyRingRuns(r: Ring, i: int, frameSize: nat)
    requires WellFormed(r) && frameSize > 0 && r.size == 0
    ensures Runs(r, i, frameSize) <==> i >= 0
  {
  }

  /** A machine up for thirteen and a half hours at 44100 samples a second, saving before the
      first audio frame: the start index is negative as an int. */
  lemma LongUptimeBeforeAudio(r: Ring, frameSize: nat)
    requires WellFormed(r) && frameSize > 0 && r.size == 0 && r.endTime == 0
    ensures var s := StartIndex(r.endTime, r.size, Rescale(48_700_000_000, 44100, TIME_BASE));
            ToInt32(s) == -2147297296 && !Runs(r, ToInt32(s), frameSize)
  {
    assert Rescale(48_700_000_000, 44100, TIME_BASE) == 2147670000;
  }
}
