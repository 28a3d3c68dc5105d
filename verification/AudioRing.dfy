// The sample ring as a value: the two copies and three field updates that adding a frame
// performs, the wrapped read, and how they relate to the history of all samples ever added.
// The ring is written modulo its capacity and read modulo its size.

module AudioRing {
  import opened CLib
  import opened Samples

  /** A captured frame: sample `j` was captured at time `pts + j`, counted in samples. */
  datatype AudioFrame = AudioFrame(samples: seq<Sample>, pts: int)

  datatype Ring = Ring(slots: seq<Sample>, index: nat, size: nat, endTime: int)

  // The sum of two positions of the ring is an int.
  predicate WellFormed(r: Ring) {
    && r.index < |r.slots| <= INT_MAX / 2
    && r.size <= |r.slots|
  }

  // The frame runs at most once around the ring after reaching its end.
  predicate Accepts(r: Ring, f: AudioFrame) {
    |f.samples| <= 2 * |r.slots| - r.index
  }

  function FirstPart(r: Ring, f: AudioFrame): int {
    Min(|f.samples|, |r.slots| - r.index)
  }

  /** The bound is tight: the first copy always stays in the ring, the second one, which starts at
      slot 0, does so for exactly these frames. */
  lemma AcceptsExactly(r: Ring, f: AudioFrame)
    requires WellFormed(r)
    ensures 0 <= FirstPart(r, f) <= |f.samples| && r.index + FirstPart(r, f) <= |r.slots|
    ensures Accepts(r, f) <==> |f.samples| - FirstPart(r, f) <= |r.slots|
    ensures Accepts(r, f) ==> FitsInt32(r.index + |f.samples|)
  {
  }

  function CopyToEnd(r: Ring, f: AudioFrame): (s: Ring)
    requires WellFormed(r)
    ensures s.index == r.index && s.size == r.size && |s.slots| == |r.slots|
  {
    r.(slots := Spliced(r.slots, r.index, f.samples, 0, FirstPart(r, f)))
  }

  function CopyToStart(r: Ring, f: AudioFrame): (s: Ring)
    requires WellFormed(r) && Accepts(r, f)
    ensures s.index == r.index && s.size == r.size && |s.slots| == |r.slots|
  {
    r.(slots := Spliced(r.slots, 0, f.samples, FirstPart(r, f), |f.samples| - FirstPart(r, f)))
  }

  function MoveIndex(r: Ring, f: AudioFrame): (s: Ring)
    requires WellFormed(r)
    ensures WellFormed(s)
  {
    r.(index := (r.index + |f.samples|) % |r.slots|)
  }

  function Grow(r: Ring, f: AudioFrame): Ring {
    r.(size := Min(r.size + |f.samples|, |r.slots|))
  }

  function Stamp(r: Ring, f: AudioFrame): Ring {
    r.(endTime := f.pts + |f.samples|)
  }

  function Add(r: Ring, f: AudioFrame): (s: Ring)
    requires WellFormed(r) && Accepts(r, f)
    ensures WellFormed(s) && |s.slots| == |r.slots|
  {
    Stamp(Grow(MoveIndex(CopyToStart(CopyToEnd(r, f), f), f), f), f)
  }

  /** The last `n` samples of a history. */
  function Last(h: seq<Sample>, n: nat): (w: seq<Sample>)
    requires n <= |h|
    ensures |w| == n
  {
    h[|h| - n..]
  }

  /** The ring holds the last `size` samples of `h`, sample number `t` in slot `t` modulo capacity. */
  ghost predicate Represents(r: Ring, h: seq<Sample>) {
    && WellFormed(r)
    && r.size == Min(|h|, |r.slots|)
    && r.index == |h| % |r.slots|
    && forall t :: |h| - r.size <= t < |h| ==> r.slots[t % |r.slots|] == h[t]
  }

  /** While the ring is not full the next write goes right behind the newest sample. */
  lemma NotFullMeansIndexIsSize(r: Ring, h: seq<Sample>)
    requires Represents(r, h)
    ensures r.size < |r.slots| ==> r.index == r.size
  {
    if |h| < |r.slots| {
      QuotientUnique(|h|, |r.slots|, 0, |h|);
    }
  }

  lemma WrapForward(base: nat, capacity: nat, j: nat)
    requires capacity > 0 && base % capacity + j < 2 * capacity
    ensures (base + j) % capacity
            == if base % capacity + j < capacity then base % capacity + j
               else base % capacity + j - capacity
  {
    var q, i := base / capacity, base % capacity;
    if i + j < capacity {
      QuotientUnique(base + j, capacity, q, i + j);
    } else {
      assert capacity * (q + 1) == capacity * q + capacity;
      QuotientUnique(base + j, capacity, q + 1, i + j - capacity);
    }
  }

  lemma WrapBackward(base: nat, capacity: nat, q: nat)
    requires capacity > 0 && q <= base && q <= capacity
    ensures (base - q) % capacity
            == if q <= base % capacity then base % capacity - q else base % capacity - q + capacity
  {
    var d, i := base / capacity, base % capacity;
    if q <= i {
      QuotientUnique(base - q, capacity, d, i - q);
    } else {
      assert capacity * (d - 1) == capacity * d - capacity;
      QuotientUnique(base - q, capacity, d - 1, i - q + capacity);
    }
  }

  /** Adding a frame appends its samples to the history the ring stands for, even when the frame
      is longer than the ring and the second copy overwrites part of the first. */
  lemma AddAppends(r: Ring, f: AudioFrame, h: seq<Sample>)
    requires Represents(r, h) && Accepts(r, f)
    ensures Represents(Add(r, f), h + f.samples)
  {
    var capacity, n := |r.slots|, |f.samples|;
    var s, h' := Add(r, f), h + f.samples;
    assert s.index == |h'| % capacity by {
      assert r.index + n <= 2 * capacity;
      AddIndex(|h|, capacity, n);
    }
    forall t | |h'| - s.size <= t < |h'|
      ensures s.slots[t % capacity] == h'[t]
    {
      if t < |h| {
        OldSampleKept(r, f, h, |h| - t);
      } else {
        NewSampleStored(r, f, h, t - |h|);
      }
    }
  }

  lemma AddIndex(total: nat, capacity: nat, n: nat)
    requires capacity > 0
    ensures (total % capacity + n) % capacity == (total + n) % capacity
  {
    var q, i := total / capacity, total % capacity;
    var q', i' := (i + n) / capacity, (i + n) % capacity;
    assert capacity * (q + q') == capacity * q + capacity * q';
    QuotientUnique(total + n, capacity, q + q', i');
  }

  /** What every slot holds after the two copies. The second comes last, so it wins. */
  lemma CopiedAt(r: Ring, f: AudioFrame, k: nat)
    requires WellFormed(r) && Accepts(r, f) && k < |r.slots|
    ensures var first := FirstPart(r, f);
            CopyToStart(CopyToEnd(r, f), f).slots[k]
            == if k < |f.samples| - first then f.samples[k + first]
               else if r.index <= k < r.index + first then f.samples[k - r.index]
               else r.slots[k]
  {
    SplicedAt(r.slots, r.index, f.samples, 0, FirstPart(r, f), k);
    SplicedAt(CopyToEnd(r, f).slots, 0, f.samples, FirstPart(r, f), |f.samples| - FirstPart(r, f), k);
  }

  lemma OldSampleKept(r: Ring, f: AudioFrame, h: seq<Sample>, back: nat)
    requires Represents(r, h) && Accepts(r, f)
    requires 1 <= back <= |h| && back + |f.samples| <= |r.slots|
    ensures Add(r, f).slots[(|h| - back) % |r.slots|] == h[|h| - back]
  {
    WrapBackward(|h|, |r.slots|, back);
    CopiedAt(r, f, (|h| - back) % |r.slots|);
  }

  lemma NewSampleStored(r: Ring, f: AudioFrame, h: seq<Sample>, j: nat)
    requires Represents(r, h) && Accepts(r, f)
    requires j < |f.samples| <= j + |r.slots|
    ensures Add(r, f).slots[(|h| + j) % |r.slots|] == f.samples[j]
  {
    WrapForward(|h|, |r.slots|, j);
    CopiedAt(r, f, (|h| + j) % |r.slots|);
  }

  /** Sample `i` of the window, read modulo the size. */
  function ReadAt(r: Ring, i: nat): Sample
    requires WellFormed(r) && i < r.size
  {
    r.slots[(r.index + i) % r.size]
  }

  /** Reading modulo the size returns the window: position `i` is the i-th oldest kept sample. */
  lemma ReadAtIsWindow(r: Ring, h: seq<Sample>, i: nat)
    requires Represents(r, h) && i < r.size
    ensures ReadAt(r, i) == Last(h, r.size)[i]
  {
    NotFullMeansIndexIsSize(r, h);
    var t := |h| - r.size + i;
    if r.size < |r.slots| {
      QuotientUnique(r.index + i, r.size, 1, i);
      QuotientUnique(t, |r.slots|, 0, i);
    } else {
      WrapBackward(|h|, r.size, r.size - i);
      if r.index + i < r.size {
        QuotientUnique(r.index + i, r.size, 0, r.index + i);
      } else {
        QuotientUnique(r.index + i, r.size, 1, r.index + i - r.size);
      }
    }
  }

  // ---------- reading a frame ----------

  /** The slot of position `i`. The position is an int and may be negative, and then so may be
      the slot. */
  function ReadSlot(r: Ring, i: int): (slot: int)
    requires r.size > 0
    ensures slot < r.size
    ensures r.index + i >= 0 ==> slot >= 0
  {
    Remainder(r.index + i, r.size)
  }

  /** Taking `n` samples at position `i` divides by no zero and touches only slots that exist. */
  predicate Inside(r: Ring, i: int, n: nat) {
    && r.size > 0
    && ReadSlot(r, i) >= 0
    && n - Min(n, r.size - ReadSlot(r, i)) <= |r.slots|
  }

  /** The two-piece copy out of the ring: up to the end of the used slots, then from slot 0. */
  function ReadFrame(r: Ring, i: int, n: nat): (w: seq<Sample>)
    requires WellFormed(r) && Inside(r, i, n)
    ensures |w| == n
  {
    var from := ReadSlot(r, i);
    var first := Min(n, r.size - from);
    r.slots[from..from + first] + r.slots[..n - first]
  }

  /** The two-piece copy yields `n` consecutive samples of the window. */
  lemma ReadFrameIsWindow(r: Ring, h: seq<Sample>, i: nat, n: nat)
    requires Represents(r, h) && i < r.size && i + n <= r.size
    ensures Inside(r, i, n) && ReadFrame(r, i, n) == Last(h, r.size)[i..i + n]
  {
    forall j | 0 <= j < n
      ensures ReadFrame(r, i, n)[j] == Last(h, r.size)[i..i + n][j]
    {
      ReadFrameAt(r, i, n, j);
      ReadAtIsWindow(r, h, i + j);
    }
  }

  lemma ReadFrameAt(r: Ring, i: nat, n: nat, j: nat)
    requires WellFormed(r) && i < r.size && i + n <= r.size && j < n
    ensures Inside(r, i, n) && ReadFrame(r, i, n)[j] == ReadAt(r, i + j)
  {
    var from, first := ReadSlot(r, i), Min(n, r.size - ReadSlot(r, i));
    WrapForward(r.index + i, r.size, j);
    assert ReadFrame(r, i, n)[j] == r.slots[if j < first then from + j else j - first];
  }

  // ---------- runs ----------

  /** The ring rsAudioBufferCreate leaves: zeroed fields, slots of arbitrary content. */
  predicate Fresh(r: Ring) {
    0 < |r.slots| <= INT_MAX / 2 && r.index == 0 && r.size == 0 && r.endTime == 0
  }

  ghost predicate AcceptsAll(r: Ring, frames: seq<AudioFrame>)
    decreases |frames|
  {
    frames == []
    || (WellFormed(r) && Accepts(r, frames[0]) && AcceptsAll(Add(r, frames[0]), frames[1..]))
  }

  ghost function AddAll(r: Ring, frames: seq<AudioFrame>): (s: Ring)
    requires WellFormed(r) && AcceptsAll(r, frames)
    ensures WellFormed(s) && |s.slots| == |r.slots|
    decreases |frames|
  {
    if frames == [] then r else AddAll(Add(r, frames[0]), frames[1..])
  }

  /** All samples of a sequence of frames, in order. */
  function SamplesOf(frames: seq<AudioFrame>): seq<Sample> {
    if frames == [] then [] else frames[0].samples + SamplesOf(frames[1..])
  }

  lemma {:induction false} SamplesOfAppend(frames: seq<AudioFrame>, f: AudioFrame)
    ensures SamplesOf(frames + [f]) == SamplesOf(frames) + f.samples
  {
    if frames == [] {
      assert frames + [f] == [f];
    } else {
      assert (frames + [f])[1..] == frames[1..] + [f];
      SamplesOfAppend(frames[1..], f);
    }
  }

  lemma ConcatAssociates(a: seq<Sample>, b: seq<Sample>, c: seq<Sample>)
    ensures a + b + c == a + (b + c)
  {
  }

  lemma {:induction false} AddAllAppends(r: Ring, frames: seq<AudioFrame>, h: seq<Sample>)
    requires Represents(r, h) && AcceptsAll(r, frames)
    ensures Represents(AddAll(r, frames), h + SamplesOf(frames))
    decreases |frames|
  {
    if frames == [] {
      assert h + SamplesOf(frames) == h;
    } else {
      var f, rest, s := frames[0], frames[1..], Add(r, frames[0]);
      AddAppends(r, f, h);
      AddAllAppends(s, rest, h + f.samples);
      ConcatAssociates(h, f.samples, SamplesOf(rest));
      assert AddAll(r, frames) == AddAll(s, rest);
    }
  }

  /** The time just behind the newest sample; zero before the first frame. */
  function EndTime(frames: seq<AudioFrame>): int {
    if frames == [] then 0
    else var f := frames[|frames| - 1]; f.pts + |f.samples|
  }

  lemma {:induction false} AddAllEndTime(r: Ring, frames: seq<AudioFrame>)
    requires WellFormed(r) && AcceptsAll(r, frames) && frames != []
    ensures AddAll(r, frames).endTime == EndTime(frames)
    decreases |frames|
  {
    if |frames| > 1 {
      AddAllEndTime(Add(r, frames[0]), frames[1..]);
    } else {
      assert AddAll(r, frames) == Add(r, frames[0]);
    }
  }

  lemma {:induction false} RunRepresents(r: Ring, frames: seq<AudioFrame>)
    requires Fresh(r) && AcceptsAll(r, frames)
    ensures Represents(AddAll(r, frames), SamplesOf(frames))
  {
    assert Represents(r, []);
    AddAllAppends(r, frames, []);
    assert [] + SamplesOf(frames) == SamplesOf(frames);
  }

  /** Over every run: reading the ring modulo its size yields exactly the last
      min(total, capacity) samples of everything added, which end at the last frame's end. */
  lemma {:induction false} RunKeepsNewest(r: Ring, frames: seq<AudioFrame>, i: nat)
    requires Fresh(r) && AcceptsAll(r, frames)
    ensures var s := AddAll(r, frames);
            && s.size == Min(|SamplesOf(frames)|, |r.slots|)
            && s.endTime == EndTime(frames)
            && (i < s.size ==> ReadAt(s, i) == Last(SamplesOf(frames), s.size)[i])
  {
    RunRepresents(r, frames);
    if frames != [] {
      AddAllEndTime(r, frames);
    }
    if i < AddAll(r, frames).size {
      ReadAtIsWindow(AddAll(r, frames), SamplesOf(frames), i);
    }
  }

  // ---------- the same in bytes ----------

  /** Byte buffers end to end. */
  function Concat(raw: seq<seq<Byte>>): seq<Byte> {
    if raw == [] then [] else raw[0] + Concat(raw[1..])
  }

  /** Each frame arrived as one of these byte buffers. */
  ghost predicate Arrived(frames: seq<AudioFrame>, raw: seq<seq<Byte>>, width: nat) {
    && |raw| == |frames|
    && forall i :: 0 <= i < |frames| ==> ArrivedAs(frames[i].samples, raw[i], width)
  }

  ghost predicate ArrivedAs(samples: seq<Sample>, bytes: seq<Byte>, width: nat) {
    |bytes| == |samples| * width && samples == Chunk(bytes, |samples|, width)
  }

  lemma {:induction false} FramesInBytes(frames: seq<AudioFrame>, raw: seq<seq<Byte>>, width: nat)
    requires Arrived(frames, raw, width)
    ensures Uniform(SamplesOf(frames), width) && Flatten(SamplesOf(frames)) == Concat(raw)
  {
    if frames != [] {
      assert ArrivedAs(frames[0].samples, raw[0], width);
      FramesInBytes(frames[1..], raw[1..], width);
      FlattenChunk(raw[0], |frames[0].samples|, width);
      FlattenAppend(frames[0].samples, SamplesOf(frames[1..]));
    }
  }

  /** Everything in the ring, as a save from its beginning reads it. */
  function ReadAll(r: Ring): seq<Sample>
    requires WellFormed(r) && (r.size > 0 ==> Inside(r, 0, r.size))
  {
    if r.size == 0 then [] else ReadFrame(r, 0, r.size)
  }

  /** Over every run, in bytes: reading the ring yields the newest bytes that arrived, as many as
      the samples it holds have. */
  lemma {:induction false} RunKeepsNewestBytes(r: Ring, frames: seq<AudioFrame>, raw: seq<seq<Byte>>, width: nat)
    requires Fresh(r) && AcceptsAll(r, frames) && Arrived(frames, raw, width)
    ensures var s := AddAll(r, frames);
            && (s.size > 0 ==> Inside(s, 0, s.size))
            && var read, all := Flatten(ReadAll(s)), Concat(raw);
               |read| == s.size * width && |read| <= |all| && read == all[|all| - |read|..]
  {
    var s, h := AddAll(r, frames), SamplesOf(frames);
    RunRepresents(r, frames);
    FramesInBytes(frames, raw, width);
    ReadAllIsWindow(s, h);
    FlattenLast(h, s.size, width);
  }

  lemma ReadAllIsWindow(r: Ring, h: seq<Sample>)
    requires Represents(r, h)
    ensures (r.size > 0 ==> Inside(r, 0, r.size)) && ReadAll(r) == Last(h, r.size)
  {
    if r.size > 0 {
      ReadFrameIsWindow(r, h, 0, r.size);
      assert Last(h, r.size)[0..r.size] == Last(h, r.size);
    }
  }

  // ---------- capture times ----------

  /** The capture time of every sample, as its own frame's pts tells it. */
  function CaptureTimes(frames: seq<AudioFrame>): (times: seq<int>)
    ensures |times| == |SamplesOf(frames)|
  {
    if frames == [] then []
    else seq(|frames[0].samples|, j => frames[0].pts + j) + CaptureTimes(frames[1..])
  }

  /** The time between the end of a frame and the start of the next; negative when they overlap. */
  function Gap(f: AudioFrame, g: AudioFrame): int {
    g.pts - (f.pts + |f.samples|)
  }

  /** All gaps between neighbouring frames together. */
  function Gaps(frames: seq<AudioFrame>): int {
    if |frames| < 2 then 0 else Gap(frames[0], frames[1]) + Gaps(frames[1..])
  }

  /** The gaps behind the frame that sample `t` came with. */
  function GapsAfter(frames: seq<AudioFrame>, t: nat): int
    requires t < |SamplesOf(frames)|
  {
    if t < |frames[0].samples| then Gaps(frames) else GapsAfter(frames[1..], t - |frames[0].samples|)
  }

  lemma {:induction false} FirstTime(frames: seq<AudioFrame>)
    requires frames != []
    ensures frames[0].pts == EndTime(frames) - |CaptureTimes(frames)| - Gaps(frames)
  {
    if |frames| > 1 {
      FirstTime(frames[1..]);
      assert frames[1..][0] == frames[1];
    } else {
      assert CaptureTimes(frames[1..]) == [];
    }
  }

  /** When every sample was captured, counted back from the end of the last frame: as many samples
      back as came after it, and further by the gaps behind its frame. */
  lemma {:induction false} CapturedAt(frames: seq<AudioFrame>, t: nat)
    requires t < |CaptureTimes(frames)|
    ensures CaptureTimes(frames)[t] == EndTime(frames) - |CaptureTimes(frames)| + t - GapsAfter(frames, t)
  {
    var n := |frames[0].samples|;
    if t < n {
      FirstTime(frames);
    } else {
      CapturedAt(frames[1..], t - n);
    }
  }

  function Abs(x: int): nat {
    if x < 0 then -x else x
  }

  /** The sizes of all gaps together. */
  function GapSizes(frames: seq<AudioFrame>): nat {
    if |frames| < 2 then 0 else Abs(Gap(frames[0], frames[1])) + GapSizes(frames[1..])
  }

  lemma {:induction false} GapsBounded(frames: seq<AudioFrame>)
    ensures Abs(Gaps(frames)) <= GapSizes(frames)
  {
    if |frames| > 1 {
      GapsBounded(frames[1..]);
    }
  }

  /** So no capture time is off by more than the gaps of the run. */
  lemma {:induction false} DriftBounded(frames: seq<AudioFrame>, t: nat)
    requires t < |SamplesOf(frames)|
    ensures Abs(GapsAfter(frames, t)) <= GapSizes(frames)
  {
    if t < |frames[0].samples| {
      GapsBounded(frames);
    } else {
      DriftBounded(frames[1..], t - |frames[0].samples|);
    }
  }

  /** Each frame starts where the previous one ended. */
  ghost predicate Contiguous(frames: seq<AudioFrame>) {
    forall k :: 0 < k < |frames| ==> Gap(frames[k - 1], frames[k]) == 0
  }

  lemma {:induction false} ContiguousHasNoGaps(frames: seq<AudioFrame>)
    requires Contiguous(frames)
    ensures GapSizes(frames) == 0
  {
    if |frames| > 1 {
      assert Gap(frames[1 - 1], frames[1]) == 0;
      assert forall k :: 0 < k < |frames[1..]| ==> Gap(frames[1..][k - 1], frames[1..][k]) == Gap(frames[k + 1 - 1], frames[k + 1]);
      ContiguousHasNoGaps(frames[1..]);
    }
  }

  lemma NoDrift(frames: seq<AudioFrame>, t: nat)
    requires Contiguous(frames) && t < |SamplesOf(frames)|
    ensures GapsAfter(frames, t) == 0
  {
    DriftBounded(frames, t);
    ContiguousHasNoGaps(frames);
  }

  /** With contiguous frames, position `i` of a window of the newest `size` samples was captured
      at `endTime - size + i`. */
  lemma WindowTimes(frames: seq<AudioFrame>, size: nat, i: nat)
    requires Contiguous(frames) && i < size <= |SamplesOf(frames)|
    ensures var times := CaptureTimes(frames);
            times[|times| - size + i] == EndTime(frames) - size + i
  {
    var t := |SamplesOf(frames)| - size + i;
    CapturedAt(frames, t);
    NoDrift(frames, t);
  }
}
