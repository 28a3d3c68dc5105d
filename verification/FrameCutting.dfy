// What a save has to hand to the audio encoder: the window cut into frames of the encoder's
// frame size, numbered by the samples sent before them, then one flush.

module FrameCutting {
  import opened CLib
  import opened Samples

  datatype AudioParams = AudioParams(format: int, channels: nat, channelLayout: int, sampleRate: nat)

  datatype EncoderInput =
    | Data(samples: seq<Sample>, pts: int, params: AudioParams)
    | Flush

  /** What is owed for the samples of `w` from position `i` on: frames, then one flush. */
  function Cut(w: seq<Sample>, i: nat, frameSize: nat, pts: int, params: AudioParams): seq<EncoderInput>
    requires frameSize > 0
    decreases |w| - i
  {
    if i >= |w| then [Flush]
    else
      var n := Min(frameSize, |w| - i);
      [Data(w[i..i + n], pts, params)] + Cut(w, i + n, frameSize, pts + n, params)
  }

  /** The samples handed over by a sequence of encoder inputs. */
  function Sent(inputs: seq<EncoderInput>): seq<Sample> {
    if inputs == [] then []
    else (if inputs[0].Data? then inputs[0].samples else []) + Sent(inputs[1..])
  }

  lemma SentStep(input: EncoderInput, rest: seq<EncoderInput>)
    requires input.Data?
    ensures Sent([input] + rest) == input.samples + Sent(rest)
  {
    assert ([input] + rest)[1..] == rest;
  }

  /** Nothing lost, nothing repeated: the frames laid end to end are the window. */
  lemma {:induction false} CutSendsAll(w: seq<Sample>, i: nat, frameSize: nat, pts: int, params: AudioParams)
    requires frameSize > 0
    ensures Sent(Cut(w, i, frameSize, pts, params)) == w[Min(i, |w|)..]
    decreases |w| - i
  {
    if i >= |w| {
      assert Sent([Flush]) == [];
    } else {
      var n := Min(frameSize, |w| - i);
      CutSendsAll(w, i + n, frameSize, pts + n, params);
      SentStep(Data(w[i..i + n], pts, params), Cut(w, i + n, frameSize, pts + n, params));
      assert w[i..i + n] + w[i + n..] == w[i..];
    }
  }

  /** One flush, at the very end; before it only frames, all but the last of them full and none
      empty; each frame's pts counts the samples sent before it. */
  lemma {:induction false} CutShape(w: seq<Sample>, i: nat, frameSize: nat, pts: int, params: AudioParams, k: nat)
    requires frameSize > 0 && k < |Cut(w, i, frameSize, pts, params)|
    ensures var c := Cut(w, i, frameSize, pts, params);
            && (c[k].Flush? <==> k == |c| - 1)
            && (c[k].Data? ==>
                  && c[k].params == params
                  && c[k].pts == pts + |Sent(c[..k])|
                  && 1 <= |c[k].samples| <= frameSize
                  && (k + 2 < |c| ==> |c[k].samples| == frameSize))
    decreases |w| - i
  {
    if i < |w| {
      var c, n := Cut(w, i, frameSize, pts, params), Min(frameSize, |w| - i);
      var rest := Cut(w, i + n, frameSize, pts + n, params);
      assert c[1..] == rest;
      if k == 0 {
        assert |rest| >= 1;
      } else {
        CutShape(w, i + n, frameSize, pts + n, params, k - 1);
        SentStep(c[0], rest[..k - 1]);
        assert c[..k] == [c[0]] + rest[..k - 1];
      }
    }
  }

  /** `plan` starts at position `i` with the next frame of `w`, or with the flush behind its end. */
  ghost predicate CutsAt(plan: (int, int) -> seq<EncoderInput>, w: seq<Sample>, i: nat, frameSize: nat, pts: int,
                         params: AudioParams) {
    if i >= |w| then plan(i, pts) == [Flush]
    else
      var n := Min(frameSize, |w| - i);
      plan(i, pts) == [Data(w[i..i + n], pts, params)] + plan(i + n, pts + n)
  }

  /** The cut is the only plan that does so everywhere. */
  lemma {:induction false} CutIsOnly(plan: (int, int) -> seq<EncoderInput>, w: seq<Sample>, i: nat, frameSize: nat,
                                     pts: int, params: AudioParams)
    requires frameSize > 0
    requires forall j: nat, p :: CutsAt(plan, w, j, frameSize, p, params)
    ensures plan(i, pts) == Cut(w, i, frameSize, pts, params)
    decreases |w| - i
  {
    assert CutsAt(plan, w, i, frameSize, pts, params);
    if i < |w| {
      var n := Min(frameSize, |w| - i);
      CutIsOnly(plan, w, i + n, frameSize, pts + n, params);
    }
  }

  // The plan that cuts `w` from `i` on, told by the positions behind `i`.
  function RestPlan(w: seq<Sample>, i: nat, frameSize: nat, params: AudioParams): (int, int) -> seq<EncoderInput>
    requires frameSize > 0
  {
    (j, p) => if j >= 0 then Cut(w, i + j, frameSize, p, params) else []
  }

  lemma RestCuts(w: seq<Sample>, i: nat, j: nat, frameSize: nat, p: int, params: AudioParams)
    requires frameSize > 0 && i <= |w|
    ensures CutsAt(RestPlan(w, i, frameSize, params), w[i..], j, frameSize, p, params)
  {
    var plan := RestPlan(w, i, frameSize, params);
    assert plan(j, p) == Cut(w, i + j, frameSize, p, params);
    if i + j < |w| {
      var n := Min(frameSize, |w| - i - j);
      assert plan(j + n, p + n) == Cut(w, i + j + n, frameSize, p + n, params);
      assert w[i..][j..j + n] == w[i + j..i + j + n];
    }
  }

  /** Cutting from a position on is cutting what is left from there. */
  lemma {:induction false} CutRest(w: seq<Sample>, i: nat, frameSize: nat, params: AudioParams)
    requires frameSize > 0 && i <= |w|
    ensures Cut(w, i, frameSize, 0, params) == Cut(w[i..], 0, frameSize, 0, params)
  {
    var plan := RestPlan(w, i, frameSize, params);
    forall j: nat, p
      ensures CutsAt(plan, w[i..], j, frameSize, p, params)
    {
      RestCuts(w, i, j, frameSize, p, params);
    }
    CutIsOnly(plan, w[i..], 0, frameSize, 0, params);
    assert plan(0, 0) == Cut(w, i, frameSize, 0, params);
  }
}
