// What the video packet buffer keeps, over a whole run, as a function of the history of packets
// added to it. Timestamps are arbitrary 64-bit numbers: nothing here assumes that they increase,
// except where a lemma says so, and the start of a window may wrap around.

module PacketWindow {
  import opened CLib
  import opened Codec

  /** How many packets at the front are older than `start`, up to the first that is not. */
  function Stale(packets: seq<Packet>, start: int): (n: nat)
    ensures n <= |packets|
  {
    if packets == [] || packets[0].pts >= start then 0 else 1 + Stale(packets[1..], start)
  }

  lemma {:induction false} StaleStops(packets: seq<Packet>, start: int)
    ensures var n := Stale(packets, start);
            && (forall k :: 0 <= k < n ==> packets[k].pts < start)
            && (n < |packets| ==> packets[n].pts >= start)
  {
    if packets != [] && packets[0].pts < start {
      StaleStops(packets[1..], start);
    }
  }

  /** The start of the window that ends at a packet, in 64-bit arithmetic. */
  function Start(p: Packet, window: Nat64): Int64 {
    Minus64(p.pts, window)
  }

  /** The subtraction leaves the 64 bits. */
  predicate Wraps(p: Packet, window: Nat64) {
    p.pts < -INT64_MAX - 1 + window
  }

  lemma StartIs(p: Packet, window: Nat64)
    ensures Start(p, window) >= p.pts - window
    ensures Start(p, window) == p.pts - window <==> !Wraps(p, window)
    ensures Start(p, window) <= p.pts <==> !Wraps(p, window)
  {
  }

  /** One add: append, then drop from the front what is older than the start of the window. */
  function AddTo(live: seq<Packet>, p: Packet, window: Nat64): (kept: seq<Packet>)
    ensures |kept| <= |live| + 1
  {
    (live + [p])[Stale(live + [p], Start(p, window))..]
  }

  /** The live packets after the packets of `h` were added in order to an empty buffer. A list
      that an add has emptied stays empty: later packets are linked behind a node that is no
      longer in it. */
  function Live(h: seq<Packet>, window: Nat64): (live: seq<Packet>)
    ensures |live| <= |h|
  {
    if h == [] then []
    else
      var g := h[..|h| - 1];
      if g != [] && Live(g, window) == [] then [] else AddTo(Live(g, window), h[|h| - 1], window)
  }

  /** Packets have been added, and none is live. */
  predicate Lost(h: seq<Packet>, window: Nat64) {
    h != [] && Live(h, window) == []
  }

  /** How many packets of the history have been dropped. */
  function Dropped(h: seq<Packet>, window: Nat64): nat {
    |h| - |Live(h, window)|
  }

  lemma {:induction false} Extend(h: seq<Packet>, b: nat)
    requires b < |h|
    ensures h[..|h| - 1][b..] + [h[|h| - 1]] == h[b..]
  {
  }

  lemma {:induction false} DropDrop(h: seq<Packet>, b: nat, n: nat)
    requires b + n <= |h|
    ensures h[b..][n..] == h[b + n..]
  {
  }

  /** The live list is always a suffix of the history. */
  lemma {:induction false} LiveIsSuffix(h: seq<Packet>, window: Nat64)
    ensures Live(h, window) == h[Dropped(h, window)..]
  {
    if h != [] && !Lost(h[..|h| - 1], window) {
      var g, p := h[..|h| - 1], h[|h| - 1];
      LiveIsSuffix(g, window);
      var b := Dropped(g, window);
      Extend(h, b);
      DropDrop(h, b, Stale(h[b..], Start(p, window)));
    }
  }

  lemma {:induction false} StaleInHistory(h: seq<Packet>, b: nat, start: int)
    requires b < |h| && b + Stale(h[b..], start) < |h|
    ensures var c := b + Stale(h[b..], start);
            && h[c].pts >= start
            && forall k :: b <= k < c ==> h[k].pts < start
  {
    var s := Stale(h[b..], start);
    StaleStops(h[b..], start);
    assert h[b..][s] == h[b + s];
    forall k | b <= k < b + s
      ensures h[k].pts < start
    {
      assert h[b..][k - b] == h[k];
    }
  }

  /** One more add drops exactly the packets at the front of the live list that are older than
      the start of the new one's window. */
  lemma {:induction false} LiveStep(h: seq<Packet>, window: Nat64)
    requires Live(h, window) != []
    ensures var n, c := |h| - 1, Dropped(h, window);
            var b, start := Dropped(h[..n], window), Start(h[n], window);
            && !Lost(h[..n], window)
            && b <= c <= n
            && h[c].pts >= start
            && forall k :: b <= k < c ==> h[k].pts < start
  {
    var n := |h| - 1;
    var g, start := h[..n], Start(h[n], window);
    var b := Dropped(g, window);
    LiveIsSuffix(g, window);
    Extend(h, b);
    StaleInHistory(h, b, start);
  }

  // ---------- when an add empties the list ----------

  /** The start of the window wraps around, and no live packet is as late as where it ends up. */
  ghost predicate Empties(live: seq<Packet>, p: Packet, window: Nat64) {
    Wraps(p, window) && forall k :: 0 <= k < |live| ==> live[k].pts < Start(p, window)
  }

  lemma {:induction false} StaleIsAll(packets: seq<Packet>, start: int)
    ensures Stale(packets, start) == |packets| <==> forall k :: 0 <= k < |packets| ==> packets[k].pts < start
  {
    StaleStops(packets, start);
  }

  /** An add drops its own packet, and with it the whole list, exactly in that case. */
  lemma {:induction false} AddEmpties(live: seq<Packet>, p: Packet, window: Nat64)
    ensures AddTo(live, p, window) == [] <==> Empties(live, p, window)
  {
    var all := live + [p];
    StaleIsAll(all, Start(p, window));
    StartIs(p, window);
    if Stale(all, Start(p, window)) == |all| {
      assert all[|live|] == p;
      assert forall k :: 0 <= k < |live| ==> all[k] == live[k];
    }
  }

  /** The blank packet that stands for an encoder error does it to every list whose packets are
      more than a window before the end of time. */
  lemma {:induction false} BlankEmpties(live: seq<Packet>, window: Nat64)
    requires 0 < window
    requires forall k :: 0 <= k < |live| ==> live[k].pts <= INT64_MAX - window
    ensures AddTo(live, BLANK_PACKET, window) == []
  {
    AddEmpties(live, BLANK_PACKET, window);
  }

  /** From then on nothing is ever live again, whatever is added. */
  lemma {:induction false} LostForGood(h: seq<Packet>, more: seq<Packet>, window: Nat64)
    requires Lost(h, window)
    ensures Lost(h + more, window)
    decreases |more|
  {
    if more == [] {
      assert h + more == h;
    } else {
      var all := h + more;
      LostForGood(h, more[..|more| - 1], window);
      assert all[..|all| - 1] == h + more[..|more| - 1];
    }
  }

  /** So after one encoder error nothing that was added before or is added later is ever live. */
  lemma {:induction false} BlankLosesAll(h: seq<Packet>, more: seq<Packet>, window: Nat64)
    requires 0 < window && forall i :: 0 <= i < |h| ==> h[i].pts <= INT64_MAX - window
    ensures Lost(h + [BLANK_PACKET] + more, window)
  {
    OneMore(h, BLANK_PACKET, window);
    if !Lost(h, window) {
      LiveIsSuffix(h, window);
      BlankEmpties(Live(h, window), window);
    }
    LostForGood(h + [BLANK_PACKET], more, window);
  }

  /** A run loses its packets exactly when some add empties the list. */
  lemma {:induction false} LostExactly(h: seq<Packet>, window: Nat64)
    ensures Lost(h, window) <==> exists i :: 0 <= i < |h| && Empties(Live(h[..i], window), h[i], window)
  {
    if Lost(h, window) {
      var n := |h| - 1;
      var g := h[..n];
      if Lost(g, window) {
        LostExactly(g, window);
        var i :| 0 <= i < |g| && Empties(Live(g[..i], window), g[i], window);
        assert h[..i] == g[..i] && h[i] == g[i];
      } else {
        AddEmpties(Live(g, window), h[n], window);
      }
    } else if i :| 0 <= i < |h| && Empties(Live(h[..i], window), h[i], window) {
      EmptiedIsLost(h, window, i);
    }
  }

  lemma {:induction false} EmptiedNow(g: seq<Packet>, p: Packet, window: Nat64)
    requires Empties(Live(g, window), p, window)
    ensures Lost(g + [p], window)
  {
    AddEmpties(Live(g, window), p, window);
    OneMore(g, p, window);
  }

  lemma {:induction false} EmptiedIsLost(h: seq<Packet>, window: Nat64, i: nat)
    requires i < |h| && Empties(Live(h[..i], window), h[i], window)
    ensures Lost(h, window)
  {
    assert Lost(h[..i] + [h[i]] + h[i + 1..], window) by {
      EmptiedNow(h[..i], h[i], window);
      LostForGood(h[..i] + [h[i]], h[i + 1..], window);
    }
    SplitAround(h, i);
  }

  lemma {:induction false} SplitAround(h: seq<Packet>, i: nat)
    requires i < |h|
    ensures h[..i] + [h[i]] + h[i + 1..] == h
  {
  }

  /** No packet of the history wraps. */
  ghost predicate Plain(h: seq<Packet>, window: Nat64) {
    forall i :: 0 <= i < |h| ==> !Wraps(h[i], window)
  }

  lemma {:induction false} PlainIsKept(h: seq<Packet>, window: Nat64)
    requires Plain(h, window)
    ensures !Lost(h, window)
  {
    LostExactly(h, window);
  }

  // ---------- what is kept ----------

  /** Packet `i` is as late as the start of the window of every packet added from `i` on. */
  ghost predicate Reaches(h: seq<Packet>, window: Nat64, i: nat) {
    forall j :: i <= j < |h| ==> Start(h[j], window) <= h[i].pts
  }

  /** The exact content after any run that has not lost its packets: the live list starts at the
      first packet of the history that is no older than the window of everything added after it. */
  lemma {:induction false} LiveStartsAtFirstReaching(h: seq<Packet>, window: Nat64, i: nat)
    requires Live(h, window) != [] && i <= Dropped(h, window)
    ensures Reaches(h, window, i) <==> i == Dropped(h, window)
  {
    var n := |h| - 1;
    var g := h[..n];
    var b, c := Dropped(g, window), Dropped(h, window);
    LiveStep(h, window);
    if g != [] {
      LiveStartsAtFirstReaching(g, window, b);
      if i < b {
        LiveStartsAtFirstReaching(g, window, i);
        var j :| i <= j < |g| && Start(g[j], window) > g[i].pts;
        assert Start(h[j], window) > h[i].pts;
      }
    }
    if i == c {
      forall j | i <= j < |h|
        ensures Start(h[j], window) <= h[i].pts
      {
        if j < n {
          assert Start(g[j], window) <= g[b].pts;
          assert b == c || h[b].pts < Start(h[n], window);
        }
      }
    }
  }

  /** What a user relies on, in every run that has not lost its packets: the oldest kept packet is
      no more than a window older than the newest, and whatever was dropped was older than the
      window of some packet already added. */
  lemma {:induction false} LiveCoversWindow(h: seq<Packet>, window: Nat64)
    requires h != [] && !Lost(h, window)
    ensures var c := Dropped(h, window);
            && c < |h| && Live(h, window) == h[c..]
            && h[c].pts >= h[|h| - 1].pts - window
            && forall i :: 0 <= i < c ==> exists j :: i <= j < |h| && h[i].pts < Start(h[j], window)
  {
    LiveStep(h, window);
    LiveIsSuffix(h, window);
    StartIs(h[|h| - 1], window);
    forall i | 0 <= i < Dropped(h, window)
      ensures exists j :: i <= j < |h| && h[i].pts < Start(h[j], window)
    {
      LiveStartsAtFirstReaching(h, window, i);
    }
  }

  ghost predicate Ordered(h: seq<Packet>, i: nat, j: nat)
    requires i <= j < |h|
  {
    h[i].pts <= h[j].pts
  }

  ghost predicate Nondecreasing(h: seq<Packet>) {
    forall i: nat, j: nat :: i <= j < |h| ==> Ordered(h, i, j)
  }

  /** The packets of the history that lie within the window of its newest packet. */
  function Within(h: seq<Packet>, start: int): seq<Packet> {
    if h == [] then []
    else (if h[0].pts >= start then [h[0]] else []) + Within(h[1..], start)
  }

  lemma {:induction false} WithinAll(h: seq<Packet>, start: int)
    requires forall i :: 0 <= i < |h| ==> h[i].pts >= start
    ensures Within(h, start) == h
  {
    if h != [] {
      WithinAll(h[1..], start);
    }
  }

  /** Exactly the packets before position `c` are older than `start`. */
  ghost predicate Splits(h: seq<Packet>, start: int, c: nat) {
    && c <= |h|
    && (forall i :: 0 <= i < c ==> h[i].pts < start)
    && (forall i :: c <= i < |h| ==> h[i].pts >= start)
  }

  lemma {:induction false} WithinSuffix(h: seq<Packet>, start: int, c: nat)
    requires Splits(h, start, c)
    ensures Within(h, start) == h[c..]
  {
    if c == 0 {
      WithinAll(h, start);
    } else {
      WithinSuffix(h[1..], start, c - 1);
    }
  }

  lemma {:induction false} DroppedAreOlder(h: seq<Packet>, window: Nat64, i: nat)
    requires Nondecreasing(h) && Plain(h, window) && i < |h|
    ensures h[i].pts < h[|h| - 1].pts - window <==> i < Dropped(h, window)
  {
    var n := |h| - 1;
    PlainIsKept(h, window);
    StartIs(h[n], window);
    if i < Dropped(h, window) {
      LiveStartsAtFirstReaching(h, window, i);
      var j :| i <= j < |h| && Start(h[j], window) > h[i].pts;
      StartIs(h[j], window);
      assert Ordered(h, j, n);
    } else {
      LiveStep(h, window);
      assert Ordered(h, Dropped(h, window), i);
    }
  }

  lemma {:induction false} DroppedAreExactlyOlder(h: seq<Packet>, window: Nat64)
    requires h != [] && Nondecreasing(h) && Plain(h, window)
    ensures Splits(h, h[|h| - 1].pts - window, Dropped(h, window))
  {
    forall i | 0 <= i < |h|
      ensures h[i].pts < h[|h| - 1].pts - window <==> i < Dropped(h, window)
    {
      DroppedAreOlder(h, window, i);
    }
  }

  lemma {:induction false} LiveIsWithin(h: seq<Packet>, window: Nat64, start: int)
    requires Splits(h, start, Dropped(h, window))
    ensures Live(h, window) == Within(h, start)
  {
    LiveIsSuffix(h, window);
    WithinSuffix(h, start, Dropped(h, window));
  }

  lemma {:induction false} OrderedIsPlain(h: seq<Packet>, window: Nat64)
    requires h != [] && Nondecreasing(h) && !Wraps(h[0], window)
    ensures Plain(h, window)
  {
    forall i | 0 <= i < |h|
      ensures !Wraps(h[i], window)
    {
      assert Ordered(h, 0, i);
    }
  }

  lemma {:induction false} FirstWrapsIsLost(h: seq<Packet>, window: Nat64)
    requires h != [] && Wraps(h[0], window)
    ensures Lost(h, window)
  {
    assert h[..0] == [];
    EmptiedIsLost(h, window, 0);
  }

  lemma {:induction false} WithinKeeps(h: seq<Packet>, start: int)
    requires h != [] && h[|h| - 1].pts >= start
    ensures Within(h, start) != []
  {
    if |h| > 1 {
      WithinKeeps(h[1..], start);
    }
  }

  /** With nondecreasing timestamps, trimming one packet at a time keeps exactly the filter of
      the whole history by the window, unless the window of the very first packet wraps. */
  lemma {:induction false} LiveIsFilter(h: seq<Packet>, window: Nat64, start: int)
    requires h != [] && Nondecreasing(h) && start == h[|h| - 1].pts - window
    ensures Live(h, window) == Within(h, start) <==> !Wraps(h[0], window)
  {
    if Wraps(h[0], window) {
      FirstWrapsIsLost(h, window);
      WithinKeeps(h, start);
    } else {
      OrderedIsPlain(h, window);
      DroppedAreExactlyOlder(h, window);
      LiveIsWithin(h, window, start);
    }
  }

  // ---------- what a save writes ----------

  /** Position of the first key frame, or the length when there is none. */
  function FirstKey(packets: seq<Packet>): (k: nat)
    ensures k <= |packets|
    ensures k < |packets| ==> packets[k].key
    ensures forall i :: 0 <= i < k ==> !packets[i].key
  {
    if packets == [] || packets[0].key then 0 else 1 + FirstKey(packets[1..])
  }

  function Shifted(p: Packet, stream: int, offset: Int64): Packet {
    p.(stream := stream, pts := Minus64(p.pts, offset), dts := Minus64(p.dts, offset))
  }

  function ShiftAll(packets: seq<Packet>, stream: int, offset: Int64): (s: seq<Packet>)
    ensures |s| == |packets|
    ensures forall i :: 0 <= i < |s| ==> s[i] == Shifted(packets[i], stream, offset)
  {
    seq(|packets|, i requires 0 <= i < |packets| => Shifted(packets[i], stream, offset))
  }

  /** A video save: the packets from the first key frame on, translated to start at zero. */
  function SavedVideo(packets: seq<Packet>, stream: int): seq<Packet> {
    var k := FirstKey(packets);
    if k == |packets| then [] else ShiftAll(packets[k..], stream, packets[k].pts)
  }

  /** A video save is empty exactly when no live packet is a key frame; otherwise it starts with
      a key frame at time zero. */
  lemma {:induction false} SavedVideoStart(packets: seq<Packet>, stream: int)
    ensures var saved := SavedVideo(packets, stream);
            && |saved| == |packets| - FirstKey(packets)
            && (saved == [] <==> forall i :: 0 <= i < |packets| ==> !packets[i].key)
            && (saved != [] ==> saved[0].key && saved[0].pts == 0)
  {
    var k := FirstKey(packets);
    if k < |packets| {
      assert packets[k].key;
    }
  }

  ghost predicate MovedBy(saved: Packet, p: Packet, stream: int, offset: Int64) {
    && (saved.pts == p.pts - offset <==> FitsInt64(p.pts - offset))
    && (saved.dts == p.dts - offset <==> FitsInt64(p.dts - offset))
    && saved.pts == Minus64(p.pts, offset) && saved.dts == Minus64(p.dts, offset)
    && saved.stream == stream && saved.key == p.key && saved.payload == p.payload
  }

  lemma ShiftedIsMoved(p: Packet, stream: int, offset: Int64)
    ensures MovedBy(Shifted(p, stream, offset), p, stream, offset)
  {
  }

  lemma SavedAt(packets: seq<Packet>, stream: int, i: nat)
    requires i < |packets| - FirstKey(packets)
    ensures var saved, k := SavedVideo(packets, stream), FirstKey(packets);
            |saved| == |packets| - k && saved[i] == Shifted(packets[k + i], stream, packets[k].pts)
  {
    var k := FirstKey(packets);
    assert SavedVideo(packets, stream) == ShiftAll(packets[k..], stream, packets[k].pts);
    assert packets[k..][i] == packets[k + i];
  }

  lemma PrefixStep<T>(before: seq<T>, s: seq<T>, i: nat)
    requires i < |s|
    ensures before + s[..i] + [s[i]] == before + s[..i + 1]
  {
    assert s[..i + 1] == s[..i] + [s[i]];
  }

  /** The saved packets are the live ones from the first key frame on, in order and otherwise
      unchanged, with all presentation and decoding times moved by the same amount wherever the
      moved time fits 64 bits. */
  lemma {:induction false} SavedVideoIsTranslated(packets: seq<Packet>, stream: int, i: nat)
    requires i < |SavedVideo(packets, stream)|
    ensures var k := FirstKey(packets);
            k + i < |packets| && MovedBy(SavedVideo(packets, stream)[i], packets[k + i], stream, packets[k].pts)
  {
    var k := FirstKey(packets);
    SavedAt(packets, stream, i);
    ShiftedIsMoved(packets[k + i], stream, packets[k].pts);
  }

  /** `saved` are the packets from `k` on, each moved by `offset`. */
  ghost predicate AllMoved(saved: seq<Packet>, packets: seq<Packet>, k: nat, stream: int, offset: Int64) {
    && |saved| + k == |packets|
    && forall i :: 0 <= i < |saved| ==> MovedBy(saved[i], packets[k + i], stream, offset)
  }

  lemma {:induction false} SavedVideoIsMoved(packets: seq<Packet>, stream: int)
    requires FirstKey(packets) < |packets|
    ensures var k := FirstKey(packets);
            AllMoved(SavedVideo(packets, stream), packets, k, stream, packets[k].pts)
  {
    var saved, k := SavedVideo(packets, stream), FirstKey(packets);
    SavedVideoStart(packets, stream);
    forall i | 0 <= i < |saved|
      ensures MovedBy(saved[i], packets[k + i], stream, packets[k].pts)
    {
      SavedVideoIsTranslated(packets, stream, i);
    }
  }

  // ---------- how much of the past a save contains ----------

  /** Neighbouring timestamps never step back and never jump by more than `gap`. */
  ghost predicate Steady(h: seq<Packet>, gap: nat) {
    forall i :: 0 < i < |h| ==> SteadyAt(h, gap, i)
  }

  ghost predicate SteadyAt(h: seq<Packet>, gap: nat, i: int)
    requires 0 < i < |h|
  {
    h[i - 1].pts <= h[i].pts <= h[i - 1].pts + gap
  }

  ghost predicate HasKey(h: seq<Packet>, from: int, to: int) {
    exists k :: 0 <= from <= k < to <= |h| && h[k].key
  }

  /** Every `period` consecutive packets contain a key frame. */
  ghost predicate KeyEvery(h: seq<Packet>, period: nat) {
    forall i, to :: 0 <= i <= to <= |h| && to == i + period ==> HasKey(h, i, to)
  }

  lemma {:induction false} MulStep(a: int, c: int)
    ensures a * c == (a - 1) * c + c
  {
  }

  lemma {:induction false} SteadyDistance(h: seq<Packet>, gap: nat, i: nat, j: nat)
    requires Steady(h, gap) && i <= j < |h|
    ensures h[i].pts <= h[j].pts <= h[i].pts + (j - i) * gap
    decreases j
  {
    if i < j {
      SteadyDistance(h, gap, i, j - 1);
      assert SteadyAt(h, gap, j);
      MulStep(j - i, gap);
    }
  }

  lemma {:induction false} SteadyIsNondecreasing(h: seq<Packet>, gap: nat)
    requires Steady(h, gap)
    ensures Nondecreasing(h)
  {
    forall i: nat, j: nat | i <= j < |h|
      ensures Ordered(h, i, j)
    {
      SteadyDistance(h, gap, i, j);
    }
  }

  /** There is a key frame at `c` or soon after, close in time to the packet before `c`. */
  lemma {:induction false} KeyWithin(h: seq<Packet>, gap: nat, period: nat, window: Nat64, c: nat) returns (k: nat)
    requires Steady(h, gap) && KeyEvery(h, period)
    requires period * gap <= window && 0 < c < |h|
    requires h[c - 1].pts < h[|h| - 1].pts - window
    ensures c <= k < |h| && h[k].key && h[k].pts <= h[c - 1].pts + period * gap
  {
    var n := |h| - 1;
    SteadyDistance(h, gap, c - 1, n);
    if n - c + 1 <= period {
      MulLe(n - c + 1, period, gap);
      assert false;
    }
    assert HasKey(h, c, c + period);
    k :| c <= k < c + period && h[k].key;
    SteadyDistance(h, gap, c - 1, k);
    MulLe(k - c + 1, period, gap);
  }

  /** The first key frame of a suffix is no later than any other key frame of it. */
  lemma {:induction false} FirstKeyBefore(h: seq<Packet>, c: nat, k: nat)
    requires Nondecreasing(h) && c <= k < |h| && h[k].key
    ensures var first := FirstKey(h[c..]);
            c + first <= k && h[c].pts <= h[c..][first].pts <= h[k].pts
  {
    var first := FirstKey(h[c..]);
    assert h[c..][k - c] == h[k];
    assert h[c..][first] == h[c + first];
    assert Ordered(h, c, c + first) && Ordered(h, c + first, k);
  }

  /** The first live key frame is less than one key-frame period inside the window. */
  lemma {:induction false} FirstKeyIsEarly(h: seq<Packet>, window: Nat64, gap: nat, period: nat)
    requires Steady(h, gap) && KeyEvery(h, period)
    requires period * gap <= window && 0 < Dropped(h, window) && !Wraps(h[0], window)
    ensures var live := Live(h, window);
            var k := FirstKey(live);
            && k < |live|
            && h[|h| - 1].pts - window <= live[k].pts < h[|h| - 1].pts - window + period * gap
  {
    var n, c := |h| - 1, Dropped(h, window);
    SteadyIsNondecreasing(h, gap);
    OrderedIsPlain(h, window);
    DroppedAreExactlyOlder(h, window);
    PlainIsKept(h, window);
    LiveIsSuffix(h, window);
    var k := KeyWithin(h, gap, period, window, c);
    FirstKeyBefore(h, c, k);
  }

  lemma {:induction false} NewestIsLive(h: seq<Packet>, window: Nat64)
    requires Live(h, window) != []
    ensures Live(h, window)[|Live(h, window)| - 1] == h[|h| - 1]
  {
    LiveIsSuffix(h, window);
  }

  /** Once something has been dropped, a save finds a key frame and its timestamps span more than
      the window less one key-frame period, and never more than the window; unless the window of
      the very first packet wrapped, and then a save finds nothing. */
  lemma {:induction false} ReplayLength(h: seq<Packet>, window: Nat64, gap: nat, period: nat)
    requires Steady(h, gap) && KeyEvery(h, period)
    requires period * gap <= window && 0 < Dropped(h, window)
    ensures var saved := SavedVideo(Live(h, window), 0);
            && (saved != [] <==> !Wraps(h[0], window))
            && (saved != [] ==> window - period * gap < saved[|saved| - 1].pts <= window)
  {
    var live := Live(h, window);
    var k := FirstKey(live);
    if Wraps(h[0], window) {
      FirstWrapsIsLost(h, window);
    } else {
      FirstKeyIsEarly(h, window, gap, period);
      NewestIsLive(h, window);
      SavedAt(live, 0, |live| - k - 1);
    }
  }

  // ---------- how many nodes the pool ever needs ----------

  /** Nodes outside the pool after a run: the live ones, or once the packets are lost those of
      all packets added since, which no list holds any more. */
  function Held(h: seq<Packet>, window: Nat64): nat {
    if h != [] && Lost(h[..|h| - 1], window) then Held(h[..|h| - 1], window) + 1 else |Live(h, window)|
  }

  /** Nodes a run of successful adds has to hold at once at its worst moment: those held before
      an add plus the new one. */
  function Peak(h: seq<Packet>, window: Nat64): nat {
    if h == [] then 0
    else
      var g := h[..|h| - 1];
      Max(Peak(g, window), Held(g, window) + 1)
  }

  /** What one more successful add does to the live list and to the number of nodes needed. */
  lemma {:induction false} OneMore(h: seq<Packet>, p: Packet, window: Nat64)
    ensures Live(h + [p], window) == if Lost(h, window) then [] else AddTo(Live(h, window), p, window)
    ensures Held(h + [p], window) == if Lost(h, window) then Held(h, window) + 1 else |Live(h + [p], window)|
    ensures Peak(h + [p], window) == Max(Peak(h, window), Held(h, window) + 1)
    ensures !Lost(h, window) ==> Held(h, window) == |Live(h, window)|
  {
    assert (h + [p])[..|h|] == h;
    if h != [] && Lost(h[..|h| - 1], window) {
      LostForGood(h[..|h| - 1], [h[|h| - 1]], window);
      assert h[..|h| - 1] + [h[|h| - 1]] == h;
    }
  }

  /** Nothing but live packets is held exactly unless packets were added after the list was lost. */
  lemma {:induction false} HeldIsLive(h: seq<Packet>, window: Nat64)
    ensures Held(h, window) == |Live(h, window)| <==> !(h != [] && Lost(h[..|h| - 1], window))
  {
    if h != [] && Lost(h[..|h| - 1], window) {
      LostForGood(h[..|h| - 1], [h[|h| - 1]], window);
      assert h[..|h| - 1] + [h[|h| - 1]] == h;
    }
  }

  /** Nodes the add number `i` of a run needs: those held before it and its own. */
  function Need(h: seq<Packet>, window: Nat64, i: nat): nat
    requires i <= |h|
  {
    Held(h[..i], window) + 1
  }

  lemma {:induction false} NeedOfPrefix(h: seq<Packet>, window: Nat64, n: nat, i: nat)
    requires i <= n <= |h|
    ensures Need(h[..n], window, i) == Need(h, window, i)
  {
    assert h[..n][..i] == h[..i];
  }

  /** No add of the run needs more nodes than the peak. */
  lemma {:induction false} PeakBounds(h: seq<Packet>, window: Nat64, i: nat)
    requires i < |h|
    ensures Need(h, window, i) <= Peak(h, window)
    decreases |h|
  {
    var n := |h| - 1;
    assert Peak(h, window) == Max(Peak(h[..n], window), Need(h, window, n));
    if i < n {
      PeakBounds(h[..n], window, i);
      NeedOfPrefix(h, window, n, i);
    }
  }

  /** Some add of the run needs as many. */
  lemma {:induction false} PeakIsNeeded(h: seq<Packet>, window: Nat64) returns (i: nat)
    requires h != []
    ensures i < |h| && Need(h, window, i) == Peak(h, window)
    decreases |h|
  {
    var n := |h| - 1;
    i := n;
    if n > 0 && Peak(h[..n], window) > Need(h, window, n) {
      i := PeakIsNeeded(h[..n], window);
      NeedOfPrefix(h, window, n, i);
    } else if n == 0 {
      assert Peak(h[..n], window) == 0;
    }
  }
}
