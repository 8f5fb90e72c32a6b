/**
 Block processing: the two loops that feed sample buffers through a graph.
 */
module Blocks {
  import opened Samples
  import opened Graphs
  import opened Steps
  import opened Runs
  import opened Runtime
  import opened Streams

  /** The frame of time i: one sample of every input channel, zero past its end and for missing channels. */
  function FrameAt(inputs: seq<seq<Sample>>, i: nat, n: nat): (f: Frame)
    ensures |f| == n
  {
    seq(n, ch requires 0 <= ch < n =>
      if ch < |inputs| && i < |inputs[ch]| then inputs[ch][i] else ZERO)
  }

  function Frames(inputs: seq<seq<Sample>>, n: nat, count: nat): (xs: seq<Frame>)
    ensures |xs| == count
  {
    seq(count, i requires 0 <= i < count => FrameAt(inputs, i, n))
  }

  function Same(p: Params, count: nat): (ps: seq<Params>)
    ensures |ps| == count
  {
    seq(count, _ => p)
  }

  /** What a block run leaves in an output channel: its samples first, the rest untouched. */
  ghost predicate Written(before: seq<Sample>, after: seq<Sample>, ys: seq<Frame>, ch: nat) {
    && |after| == |before|
    && (forall i :: 0 <= i < |before| ==> after[i] == if i < |ys| then At(ys[i], ch) else before[i])
  }

  lemma WrittenGrows(before: seq<Sample>, now: seq<Sample>, after: seq<Sample>, ys: seq<Frame>, y: Frame, ch: nat)
    requires Written(before, now, ys, ch)
    requires after == if |ys| < |before| then now[|ys| := At(y, ch)] else now
    ensures Written(before, after, ys + [y], ch)
  {
  }

  lemma PrefixGrows(g: Graph, s: Store, ps: seq<Params>, xs: seq<Frame>, i: nat)
    requires WellFormed(g) && BuffersDistinct(g) && AllShaped(s, Buffers(g)) && |ps| == |xs| && i < |xs|
    ensures var r := Iterate(g, s, ps[..i], xs[..i]);
      var q := Step(g, r.1, ps[i], xs[i]);
      Iterate(g, s, ps[..i + 1], xs[..i + 1]) == (r.0 + [q.0], q.1)
  {
    hide Step, Iterate, WellFormed, BuffersDistinct, Buffers;
    assert ps[..i + 1][..i] == ps[..i] && xs[..i + 1][..i] == xs[..i];
    IterateGrows(g, s, ps[..i + 1], xs[..i + 1]);
  }

  /** Packs time i of a one-channel block. */
  method PackMono(input: array<Sample>, i: nat, inFrame: array<Sample>)
    requires input != inFrame
    modifies inFrame
    ensures inFrame[..] == FrameAt([input[..]], i, inFrame.Length)
  {
    for ch := 0 to inFrame.Length
      invariant forall c :: 0 <= c < ch ==> inFrame[c] == FrameAt([input[..]], i, inFrame.Length)[c]
    {
      inFrame[ch] := if ch == 0 && i < input.Length then input[i] else ZERO;
    }
  }

  /**
   Runs count samples of one channel; the input and output buffers may be one
   and the same array. From a state that remembers a past, the samples written
   are the continuation of the denoted stream (Runs.IterateContinues).
   */
  method ProcessBuffer(graph: Node, state: State, input: array<Sample>, output: array<Sample>, count: nat)
    requires Ready(graph, state, NIn(Shape(graph)))
    requires input !in Scratch(graph) && output !in Scratch(graph)
    modifies state`delays, state`delayPos, state`feedback, output, Scratch(graph)
    ensures Ready(graph, state, NIn(Shape(graph)))
    ensures var g := Shape(graph);
      var r := Iterate(g, old(state.Contents()), Same(state.params, count), Frames([old(input[..])], NIn(g), count));
      state.Contents() == r.1 && Written(old(output[..]), output[..], r.0, 0)
  {
    hide Step, Iterate, Quiet, Separate, WellFormed, BuffersDistinct, Buffers, NIn, NOut, AllShaped, Scratch, Shape, Written;
    ghost var g, s0, p, before, x0 := Shape(graph), state.Contents(), state.params, output[..], input[..];
    var ni, no := NIn(Shape(graph)), NOut(Shape(graph));
    ghost var ps, xs := Same(p, count), Frames([x0], ni, count);
    ScratchAllocated(graph);
    var inFrame := new Sample[ni](_ => ZERO);
    var outFrame := new Sample[no](_ => ZERO);
    ghost var r: (seq<Frame>, Store) := ([], s0);
    NothingWritten(g, s0, before);
    for i := 0 to count
      invariant Ready(graph, state, ni) && r == Iterate(g, s0, ps[..i], xs[..i])
      invariant state.Contents() == r.1
      invariant output.Length == |before| && Written(before, output[..], r.0, 0)
      invariant forall k :: i <= k < input.Length ==> input[k] == x0[k]
    {
      PrefixGrows(g, s0, ps, xs, i);
      ghost var q, now := Step(g, r.1, p, xs[i]), output[..];
      MonoPeriod(graph, state, input, output, x0, i, inFrame, outFrame);
      WrittenGrows(before, now, output[..], r.0, q.0, 0);
      r := (r.0 + [q.0], q.1);
    }
    assert ps[..count] == ps && xs[..count] == xs;
  }

  /** One sample period of a one-channel block. */
  method MonoPeriod(graph: Node, state: State, input: array<Sample>, output: array<Sample>,
      ghost x0: seq<Sample>, i: nat, inFrame: array<Sample>, outFrame: array<Sample>)
    requires Ready(graph, state, NIn(Shape(graph)))
    requires inFrame != outFrame && inFrame != input && inFrame != output && outFrame != input && outFrame != output
    requires {inFrame, outFrame, input, output} !! Scratch(graph)
    requires inFrame.Length == NIn(Shape(graph)) && outFrame.Length == NOut(Shape(graph))
    requires input.Length == |x0| && forall k :: i <= k < input.Length ==> input[k] == x0[k]
    modifies state`delays, state`delayPos, state`feedback, output, Scratch(graph), inFrame, outFrame
    ensures Ready(graph, state, NIn(Shape(graph)))
    ensures forall k :: i < k < input.Length ==> input[k] == x0[k]
    ensures var q := Step(Shape(graph), old(state.Contents()), state.params, FrameAt([x0], i, inFrame.Length));
      && state.Contents() == q.1
      && output[..] == if i < output.Length then old(output[..])[i := At(q.0, 0)] else old(output[..])
  {
    hide Step, Quiet, Separate, WellFormed, BuffersDistinct, Buffers, NIn, NOut, AllShaped, Scratch, Shape;
    ScratchAllocated(graph);
    PackMono(input, i, inFrame);
    assert inFrame[..] == FrameAt([x0], i, inFrame.Length);
    Tick(graph, state, inFrame[..], outFrame);
    if i < output.Length {
      output[i] := if outFrame.Length > 0 then outFrame[0] else ZERO;
    }
  }

  lemma NothingWritten(g: Graph, s: Store, before: seq<Sample>)
    requires WellFormed(g) && BuffersDistinct(g) && AllShaped(s, Buffers(g))
    ensures Iterate(g, s, [], []) == ([], s) && forall ch: nat :: Written(before, before, [], ch)
  {
    hide Step, WellFormed, BuffersDistinct, Buffers;
  }

  /** Packs time i; channels the block does not supply keep the zero they were created with. */
  method PackMulti(input: seq<array<Sample>>, ghost x0: seq<seq<Sample>>, i: nat, inFrame: array<Sample>)
    requires inFrame !in input && |x0| == |input|
    requires forall ch :: 0 <= ch < |input| ==> input[ch].Length == |x0[ch]|
    requires forall ch :: 0 <= ch < |input| && i < input[ch].Length ==> input[ch][i] == x0[ch][i]
    requires forall ch :: |input| <= ch < inFrame.Length ==> inFrame[ch] == ZERO
    modifies inFrame
    ensures inFrame[..] == FrameAt(x0, i, inFrame.Length)
  {
    var ch := 0;
    while ch < inFrame.Length && ch < |input|
      invariant 0 <= ch <= inFrame.Length && ch <= |input|
      invariant forall c :: 0 <= c < ch ==> inFrame[c] == FrameAt(x0, i, inFrame.Length)[c]
      invariant forall c :: |input| <= c < inFrame.Length ==> inFrame[c] == ZERO
    {
      inFrame[ch] := if i < input[ch].Length then input[ch][i] else ZERO;
      ch := ch + 1;
    }
  }

  /** The last of the first k channels whose buffer is b, or -1. */
  function Last(output: seq<array<Sample>>, k: nat, b: array<Sample>): (ch: int)
    requires k <= |output|
    ensures -1 <= ch < k && (ch >= 0 ==> output[ch] == b)
    ensures forall c :: ch < c < k ==> output[c] != b
  {
    if k == 0 then -1 else if output[k - 1] == b then k - 1 else Last(output, k - 1, b)
  }

  /** For each channel, the graph output that its buffer ends up with: channels that share one write it in turn. */
  function Winners(output: seq<array<Sample>>, no: nat): (ws: seq<int>)
    ensures |ws| == |output| && forall ch :: 0 <= ch < |ws| ==> -1 <= ws[ch] < no
  {
    seq(|output|, ch requires 0 <= ch < |output| => Last(output, Lesser(no, |output|), output[ch]))
  }

  ghost predicate Distinct<T>(s: seq<T>) {
    forall i, j :: 0 <= i < j < |s| ==> s[i] != s[j]
  }

  /** Buffers of their own get their own channel's output. */
  lemma DistinctWinners(output: seq<array<Sample>>, no: nat, ch: nat)
    requires Distinct(output) && ch < |output|
    ensures Winners(output, no)[ch] == if ch < no then ch else -1
  {
  }

  /** Frame y at time i, in every channel that gets a sample of it and is long enough. */
  ghost function Put(now: seq<seq<Sample>>, i: nat, y: Frame, ws: seq<int>): (r: seq<seq<Sample>>)
    requires |ws| == |now|
    ensures |r| == |now|
  {
    seq(|now|, ch requires 0 <= ch < |now| => if ws[ch] >= 0 && i < |now[ch]| then now[ch][i := At(y, ws[ch])] else now[ch])
  }

  /** Unpacks time i into every output channel that is long enough. */
  method UnpackFrame(outFrame: array<Sample>, output: seq<array<Sample>>, i: nat)
    requires outFrame !in output
    modifies output
    ensures Snapshot(output) == Put(old(Snapshot(output)), i, outFrame[..], Winners(output, outFrame.Length))
    ensures forall ch, k :: 0 <= ch < |output| && i < k < output[ch].Length ==> output[ch][k] == old(output[ch][k])
  {
    hide Last, Unpacked;
    ghost var before, y := Snapshot(output), outFrame[..];
    forall c | 0 <= c < |output| { NoneUnpacked(output, before[c], output[c], i, y); }
    var ch := 0;
    while ch < outFrame.Length && ch < |output|
      invariant 0 <= ch <= outFrame.Length && ch <= |output|
      invariant forall c :: 0 <= c < |output| ==> output[c][..] == Unpacked(output, ch, before[c], output[c], i, y)
    {
      forall c | 0 <= c < |output| { UnpackedNext(output, ch, before[c], output[c], i, y); }
      if i < output[ch].Length {
        output[ch][i] := outFrame[ch];
      }
      ch := ch + 1;
    }
    AllUnpacked(output, before, Snapshot(output), i, y);
  }

  lemma NoneUnpacked(output: seq<array<Sample>>, before: seq<Sample>, b: array<Sample>, i: nat, y: Frame)
    ensures Unpacked(output, 0, before, b, i, y) == before
  {
  }

  lemma UnpackedNext(output: seq<array<Sample>>, k: nat, before: seq<Sample>, b: array<Sample>, i: nat, y: Frame)
    requires k < |output| && k < |y|
    ensures var u := Unpacked(output, k, before, b, i, y);
      && |u| == |before|
      && Unpacked(output, k + 1, before, b, i, y) == if output[k] == b && i < |before| then u[i := y[k]] else u
  {
  }

  lemma AllUnpacked(output: seq<array<Sample>>, before: seq<seq<Sample>>, after: seq<seq<Sample>>, i: nat, y: Frame)
    requires |before| == |after| == |output|
    requires forall c :: 0 <= c < |output| ==> after[c] == Unpacked(output, Lesser(|y|, |output|), before[c], output[c], i, y)
    ensures after == Put(before, i, y, Winners(output, |y|))
  {
    hide Last;
  }

  /** A buffer after the first k channels have been unpacked. */
  ghost function Unpacked(output: seq<array<Sample>>, k: nat, before: seq<Sample>, b: array<Sample>, i: nat, y: Frame): seq<Sample>
    requires k <= |output|
  {
    var w := Last(output, k, b);
    if w >= 0 && i < |before| then before[i := At(y, w)] else before
  }

  /** From time i on, the inputs still hold what they held at the start. */
  ghost predicate Unread(input: seq<array<Sample>>, x0: seq<seq<Sample>>, i: nat)
    reads input
  {
    && |x0| == |input|
    && (forall ch :: 0 <= ch < |input| ==> input[ch].Length == |x0[ch]|)
    && (forall ch, k :: 0 <= ch < |input| && i <= k < input[ch].Length ==> input[ch][k] == x0[ch][k])
  }

  /** One sample period: pack, tick, unpack. */
  method OnePeriod(graph: Node, state: State, input: seq<array<Sample>>, output: seq<array<Sample>>,
      ghost x0: seq<seq<Sample>>, i: nat, inFrame: array<Sample>, outFrame: array<Sample>)
    requires Ready(graph, state, NIn(Shape(graph)))
    requires forall c :: c in input || c in output ==> c !in Scratch(graph)
    requires Unread(input, x0, i)
    requires inFrame != outFrame && {inFrame, outFrame} !! Scratch(graph)
    requires inFrame !in input && inFrame !in output && outFrame !in input && outFrame !in output
    requires inFrame.Length == NIn(Shape(graph)) && outFrame.Length == NOut(Shape(graph))
    requires forall ch :: |input| <= ch < inFrame.Length ==> inFrame[ch] == ZERO
    modifies state`delays, state`delayPos, state`feedback, output, Scratch(graph), inFrame, outFrame
    ensures Ready(graph, state, NIn(Shape(graph))) && Unread(input, x0, i + 1)
    ensures forall ch :: |input| <= ch < inFrame.Length ==> inFrame[ch] == ZERO
    ensures var q := Step(Shape(graph), old(state.Contents()), state.params, FrameAt(x0, i, inFrame.Length));
      state.Contents() == q.1 && Snapshot(output) == Put(old(Snapshot(output)), i, q.0, Winners(output, outFrame.Length))
  {
    hide Step, Ready, NIn, NOut, Scratch, Shape, Put, Winners, FrameAt;
    ScratchAllocated(graph);
    MissingAreZero(x0, i, inFrame.Length);
    PackMulti(input, x0, i, inFrame);
    Tick(graph, state, inFrame[..], outFrame);
    UnpackFrame(outFrame, output, i);
  }

  lemma MissingAreZero(inputs: seq<seq<Sample>>, i: nat, n: nat)
    ensures forall ch :: |inputs| <= ch < n ==> FrameAt(inputs, i, n)[ch] == ZERO
  {
  }

  /**
   Runs count samples of many channels. Any output may also be an input: time i is
   read everywhere before it is written anywhere; and outputs may share a buffer.
   */
  method ProcessBufferMc(graph: Node, state: State, input: seq<array<Sample>>, output: seq<array<Sample>>, count: nat)
    requires Ready(graph, state, NIn(Shape(graph)))
    requires forall c :: c in input || c in output ==> c !in Scratch(graph)
    modifies state`delays, state`delayPos, state`feedback, output, Scratch(graph)
    ensures Ready(graph, state, NIn(Shape(graph)))
    ensures var g := Shape(graph);
      var r := Iterate(g, old(state.Contents()), Same(state.params, count), Frames(old(Snapshot(input)), NIn(g), count));
      && state.Contents() == r.1
      && AllWritten(old(Snapshot(output)), Snapshot(output), r.0, Winners(output, NOut(g)))
  {
    hide Step, Iterate, Quiet, Separate, WellFormed, BuffersDistinct, Buffers, NIn, NOut, AllShaped, Scratch, Shape, Written, AllWritten, Put, Snapshot, Frames, Same, Winners;
    var ni, no := NIn(Shape(graph)), NOut(Shape(graph));
    ScratchAllocated(graph);
    ghost var x0, before := Snapshot(input), Snapshot(output);
    var inFrame := new Sample[ni](_ => ZERO);
    var outFrame := new Sample[no](_ => ZERO);
    assert Snapshot(output) == before;
    Periods(graph, state, input, output, x0, count, inFrame, outFrame);
  }

  /** The loop over sample periods, in frames that no one else holds. */
  method Periods(graph: Node, state: State, input: seq<array<Sample>>, output: seq<array<Sample>>,
      ghost x0: seq<seq<Sample>>, count: nat, inFrame: array<Sample>, outFrame: array<Sample>)
    requires Ready(graph, state, NIn(Shape(graph)))
    requires forall c :: c in input || c in output ==> c !in Scratch(graph)
    requires Unread(input, x0, 0)
    requires inFrame != outFrame && {inFrame, outFrame} !! Scratch(graph)
    requires inFrame !in input && inFrame !in output && outFrame !in input && outFrame !in output
    requires inFrame.Length == NIn(Shape(graph)) && outFrame.Length == NOut(Shape(graph))
    requires forall ch :: |input| <= ch < inFrame.Length ==> inFrame[ch] == ZERO
    modifies state`delays, state`delayPos, state`feedback, output, Scratch(graph), inFrame, outFrame
    ensures Ready(graph, state, NIn(Shape(graph)))
    ensures var g := Shape(graph);
      var r := Iterate(g, old(state.Contents()), Same(state.params, count), Frames(x0, NIn(g), count));
      state.Contents() == r.1 && AllWritten(old(Snapshot(output)), Snapshot(output), r.0, Winners(output, NOut(g)))
  {
    hide Step, Iterate, Quiet, Separate, WellFormed, BuffersDistinct, Buffers, NIn, NOut, AllShaped, Scratch, Shape, Written, AllWritten, Put, Snapshot, Unread, Winners;
    ghost var g, s0, p := Shape(graph), state.Contents(), state.params;
    ghost var ni, ws, before := NIn(Shape(graph)), Winners(output, NOut(Shape(graph))), Snapshot(output);
    ghost var ps, xs := Same(p, count), Frames(x0, ni, count);
    ghost var r: (seq<Frame>, Store) := ([], s0);
    NothingWritten(g, s0, []);
    AllStart(before, ws);
    for i := 0 to count
      invariant Ready(graph, state, ni) && r == Iterate(g, s0, ps[..i], xs[..i])
      invariant state.Contents() == r.1
      invariant AllWritten(before, Snapshot(output), r.0, ws)
      invariant Unread(input, x0, i)
      invariant forall ch :: |input| <= ch < ni ==> inFrame[ch] == ZERO
    {
      PrefixGrows(g, s0, ps, xs, i);
      ghost var q := Step(g, r.1, p, xs[i]);
      ghost var now := Snapshot(output);
      OnePeriod(graph, state, input, output, x0, i, inFrame, outFrame);
      AllGrow(before, now, Snapshot(output), r.0, q.0, ws);
      r := (r.0 + [q.0], q.1);
    }
    assert ps[..count] == ps && xs[..count] == xs;
  }

  /** What the buffers hold. */
  ghost function Snapshot(bufs: seq<array<Sample>>): (r: seq<seq<Sample>>)
    reads bufs
    ensures |r| == |bufs| && forall ch :: 0 <= ch < |bufs| ==> r[ch] == bufs[ch][..]
  {
    seq(|bufs|, ch requires 0 <= ch < |bufs| reads bufs => bufs[ch][..])
  }

  /** Every channel holds the samples so far of the output that it gets; one that gets none is as before. */
  ghost predicate AllWritten(before: seq<seq<Sample>>, now: seq<seq<Sample>>, ys: seq<Frame>, ws: seq<int>) {
    && |now| == |before| == |ws|
    && (forall ch :: 0 <= ch < |before| ==> ChannelWritten(before[ch], now[ch], ys, ws[ch]))
  }

  ghost predicate ChannelWritten(before: seq<Sample>, now: seq<Sample>, ys: seq<Frame>, w: int) {
    if w >= 0 then Written(before, now, ys, w) else now == before
  }

  lemma AllStart(before: seq<seq<Sample>>, ws: seq<int>)
    requires |ws| == |before|
    ensures AllWritten(before, before, [], ws)
  {
  }

  lemma AllGrow(before: seq<seq<Sample>>, now: seq<seq<Sample>>, after: seq<seq<Sample>>, ys: seq<Frame>, y: Frame, ws: seq<int>)
    requires AllWritten(before, now, ys, ws) && after == Put(now, |ys|, y, ws)
    ensures AllWritten(before, after, ys + [y], ws)
  {
    hide Written;
    forall ch: nat | ch < |before| ensures ChannelWritten(before[ch], after[ch], ys + [y], ws[ch]) {
      assert ChannelWritten(before[ch], now[ch], ys, ws[ch]);
      if ws[ch] >= 0 {
        WrittenLength(before[ch], now[ch], ys, ws[ch]);
        WrittenGrows(before[ch], now[ch], after[ch], ys, y, ws[ch]);
      }
    }
  }

  lemma WrittenLength(before: seq<Sample>, now: seq<Sample>, ys: seq<Frame>, ch: nat)
    requires Written(before, now, ys, ch)
    ensures |now| == |before|
  {
  }

  // ---- Where a stream is cut into blocks does not matter.

  function Heads(inputs: seq<seq<Sample>>, m: nat): (r: seq<seq<Sample>>)
    ensures |r| == |inputs|
  {
    seq(|inputs|, ch requires 0 <= ch < |inputs| => inputs[ch][..Lesser(m, |inputs[ch]|)])
  }

  function Tails(inputs: seq<seq<Sample>>, m: nat): (r: seq<seq<Sample>>)
    ensures |r| == |inputs|
  {
    seq(|inputs|, ch requires 0 <= ch < |inputs| => inputs[ch][Lesser(m, |inputs[ch]|)..])
  }

  /** Blocks of m and then n samples give the samples and the state of one block of m + n. */
  lemma {:induction false} CutAnywhere(g: Graph, s: Store, p: Params, inputs: seq<seq<Sample>>, m: nat, n: nat)
    requires WellFormed(g) && BuffersDistinct(g) && AllShaped(s, Buffers(g))
    ensures var first := Iterate(g, s, Same(p, m), Frames(Heads(inputs, m), NIn(g), m));
      var second := Iterate(g, first.1, Same(p, n), Frames(Tails(inputs, m), NIn(g), n));
      Iterate(g, s, Same(p, m + n), Frames(inputs, NIn(g), m + n)) == (first.0 + second.0, second.1)
  {
    hide Step, Iterate, WellFormed, BuffersDistinct, Buffers, NIn;
    var w := NIn(g);
    var xs, hs, ts := Frames(inputs, w, m + n), Frames(Heads(inputs, m), w, m), Frames(Tails(inputs, m), w, n);
    forall i: nat | i < m ensures xs[i] == hs[i] {}
    forall i: nat | i < n ensures xs[m + i] == ts[i] {}
    assert xs == hs + ts && Same(p, m + n) == Same(p, m) + Same(p, n);
    BlocksCompose(g, s, Same(p, m), hs, Same(p, n), ts);
  }

  /** The samples and the state after blocks of these lengths, one after another. */
  ghost function InBlocks(g: Graph, s: Store, p: Params, inputs: seq<seq<Sample>>, counts: seq<nat>): (r: (seq<Frame>, Store))
    requires WellFormed(g) && BuffersDistinct(g) && AllShaped(s, Buffers(g))
    decreases |counts|
  {
    if counts == [] then ([], s)
    else
      var m := counts[0];
      var first := Iterate(g, s, Same(p, m), Frames(Heads(inputs, m), NIn(g), m));
      var rest := InBlocks(g, first.1, p, Tails(inputs, m), counts[1..]);
      (first.0 + rest.0, rest.1)
  }

  function Sum(counts: seq<nat>): nat { if counts == [] then 0 else counts[0] + Sum(counts[1..]) }

  /** However a stream is cut into blocks, samples and final state are those of one block. */
  lemma {:induction false} AnyBlocks(g: Graph, s: Store, p: Params, inputs: seq<seq<Sample>>, counts: seq<nat>)
    requires WellFormed(g) && BuffersDistinct(g) && AllShaped(s, Buffers(g))
    ensures InBlocks(g, s, p, inputs, counts) == Iterate(g, s, Same(p, Sum(counts)), Frames(inputs, NIn(g), Sum(counts)))
    decreases |counts|
  {
    hide WellFormed, BuffersDistinct, Buffers, NIn, AllShaped, Iterate, Frames, Same, Heads, Tails;
    if counts == [] {
      NoBlocks(g, s, p, inputs);
    } else {
      var m := counts[0];
      var first := Iterate(g, s, Same(p, m), Frames(Heads(inputs, m), NIn(g), m));
      AnyBlocks(g, first.1, p, Tails(inputs, m), counts[1..]);
      CutAnywhere(g, s, p, inputs, m, Sum(counts[1..]));
    }
  }

  lemma NoBlocks(g: Graph, s: Store, p: Params, inputs: seq<seq<Sample>>)
    requires WellFormed(g) && BuffersDistinct(g) && AllShaped(s, Buffers(g))
    ensures Iterate(g, s, Same(p, 0), Frames(inputs, NIn(g), 0)) == ([], s)
  {
    hide WellFormed, BuffersDistinct, Buffers, NIn, AllShaped;
    assert Same(p, 0) == [] && Frames(inputs, NIn(g), 0) == [];
  }

  /** The host's next block of samples, in buffers of its own or in ones used before. */
  method Fill(bufs: seq<array<Sample>>, next: seq<seq<Sample>>)
    requires |next| == |bufs| && Distinct(bufs) && forall ch :: 0 <= ch < |bufs| ==> bufs[ch].Length == |next[ch]|
    modifies bufs
    ensures Snapshot(bufs) == next
  {
    for ch := 0 to |bufs|
      invariant forall c :: 0 <= c < ch ==> bufs[c][..] == next[c]
    {
      for i := 0 to bufs[ch].Length
        invariant bufs[ch][..i] == next[ch][..i]
        invariant forall c :: 0 <= c < ch ==> bufs[c][..] == next[c]
        modifies bufs[ch]
      {
        bufs[ch][i] := next[ch][i];
      }
      assert bufs[ch][..] == next[ch];
    }
  }

  /**
   Two block calls on consecutive parts of a stream, in the same buffers or in
   others: mid is what the first call leaves in its outputs, and start what the
   second finds in its own. Together they write the samples, and leave the state, of
   one run over the whole stream.
   */
  method ProcessTwice(graph: Node, state: State, input: seq<array<Sample>>, output: seq<array<Sample>>, m: nat,
      input2: seq<array<Sample>>, output2: seq<array<Sample>>, n: nat, next: seq<seq<Sample>>, ghost xs: seq<seq<Sample>>)
    returns (ghost mid: seq<seq<Sample>>, ghost start: seq<seq<Sample>>)
    requires Ready(graph, state, NIn(Shape(graph)))
    requires forall c :: c in input || c in output || c in input2 || c in output2 ==> c !in Scratch(graph)
    requires Snapshot(input) == Heads(xs, m) && next == Tails(xs, m)
    requires |next| == |input2| && Distinct(input2) && forall ch :: 0 <= ch < |input2| ==> input2[ch].Length == |next[ch]|
    modifies state`delays, state`delayPos, state`feedback, output, input2, output2, Scratch(graph)
    ensures Ready(graph, state, NIn(Shape(graph)))
    ensures var g := Shape(graph);
      var r := Iterate(g, old(state.Contents()), Same(state.params, m + n), Frames(xs, NIn(g), m + n));
      && state.Contents() == r.1
      && AllWritten(old(Snapshot(output)), mid, r.0[..m], Winners(output, NOut(g)))
      && AllWritten(start, Snapshot(output2), r.0[m..], Winners(output2, NOut(g)))
  {
    hide Step, Iterate, Quiet, Separate, WellFormed, BuffersDistinct, Buffers, NIn, NOut, AllShaped, Scratch, Shape, AllWritten, Winners;
    ScratchAllocated(graph);
    CutAnywhere(Shape(graph), state.Contents(), state.params, xs, m, n);
    ProcessBufferMc(graph, state, input, output, m);
    mid := Snapshot(output);
    assert Ready(graph, state, NIn(Shape(graph)));
    Fill(input2, next);
    start := Snapshot(output2);
    ProcessBufferMc(graph, state, input2, output2, n);
  }

  /** The graph, its scratch buffers and an empty state, as a host sets them up. */
  method Start(g: Graph) returns (graph: Node, state: State)
    requires WellFormed(g) && BuffersDistinct(g) && FeedbackDistinct(g)
    ensures Shape(graph) == g && fresh(state) && fresh(Scratch(graph)) && Ready(graph, state, NIn(g))
    ensures state.params == map[] && Fresh(g, state.Contents())
  {
    state := new State();
    graph := Build(g);
    EmptyIsFresh(g);
    ZeroIsQuiet(graph, NIn(g));
    hide Separate, Quiet, WellFormed, BuffersDistinct, Buffers, NIn;
    FreshRemembers(g, state.Contents());
  }

  lemma EmptyIsFresh(g: Graph)
    ensures Fresh(g, Store(map[], map[], map[]))
  {
  }

  // ---- What buffers hold, sample by sample.

  /** What is read: sample i of a channel, or zero past its end and for channels that are not there, under the same parameters throughout. */
  lemma FramesAre(inputs: seq<seq<Sample>>, n: nat, count: nat, p: Params, i: nat, ch: nat)
    requires i < count && ch < n
    ensures |Frames(inputs, n, count)| == count && |Frames(inputs, n, count)[i]| == n
    ensures Frames(inputs, n, count)[i][ch] == if ch < |inputs| && i < |inputs[ch]| then inputs[ch][i] else ZERO
    ensures Same(p, count)[i] == p
  {
  }

  /** What is written: in buffers of their own, each channel's samples as far as stream, buffer and outputs go. */
  lemma {:induction false} SamplesWritten(output: seq<array<Sample>>, before: seq<seq<Sample>>, after: seq<seq<Sample>>,
      ys: seq<Frame>, no: nat, ch: nat, i: nat)
    requires |before| == |after| == |output| && AllWritten(before, after, ys, Winners(output, no))
    requires forall c, d :: 0 <= c < d < |output| ==> output[c] != output[d]
    requires forall t :: 0 <= t < |ys| ==> |ys[t]| == no
    requires ch < |output| && i < |before[ch]|
    ensures |after[ch]| == |before[ch]|
    ensures after[ch][i] == if ch < no && i < |ys| then ys[i][ch] else before[ch][i]
  {
    DistinctWinners(output, no, ch);
    assert ChannelWritten(before[ch], after[ch], ys, Winners(output, no)[ch]);
  }

  /** Every buffer holds its channel's samples, and beyond them what it held before. */
  ghost predicate EachSample(before: seq<seq<Sample>>, after: seq<seq<Sample>>, ys: seq<Frame>, no: nat)
    requires forall t :: 0 <= t < |ys| ==> |ys[t]| == no
  {
    && |after| == |before|
    && (forall ch :: 0 <= ch < |before| ==> |after[ch]| == |before[ch]|)
    && (forall ch, i :: 0 <= ch < |before| && 0 <= i < |before[ch]| ==>
         after[ch][i] == if ch < no && i < |ys| then ys[i][ch] else before[ch][i])
  }

  lemma {:induction false} AllSamples(output: seq<array<Sample>>, before: seq<seq<Sample>>, after: seq<seq<Sample>>, ys: seq<Frame>, no: nat)
    requires |before| == |after| == |output| && AllWritten(before, after, ys, Winners(output, no)) && Distinct(output)
    requires forall t :: 0 <= t < |ys| ==> |ys[t]| == no
    ensures EachSample(before, after, ys, no)
  {
    hide AllWritten, Winners;
    forall ch: nat, i: nat | ch < |before| && i < |before[ch]|
      ensures |after[ch]| == |before[ch]| && after[ch][i] == if ch < no && i < |ys| then ys[i][ch] else before[ch][i]
    {
      SamplesWritten(output, before, after, ys, no, ch, i);
    }
    SameLengths(before, after, ys, Winners(output, no));
  }

  lemma SameLengths(before: seq<seq<Sample>>, after: seq<seq<Sample>>, ys: seq<Frame>, ws: seq<int>)
    requires AllWritten(before, after, ys, ws)
    ensures forall ch :: 0 <= ch < |before| ==> |after[ch]| == |before[ch]|
  {
    forall ch: nat | ch < |before| ensures |after[ch]| == |before[ch]| {
      assert ChannelWritten(before[ch], after[ch], ys, ws[ch]);
    }
  }

  /** In a shared buffer, the last of its channels that the graph has wins. */
  lemma {:induction false} LastChannelWins(output: seq<array<Sample>>, before: seq<seq<Sample>>, after: seq<seq<Sample>>,
      ys: seq<Frame>, no: nat, ch: nat, last: nat, i: nat)
    requires |before| == |after| == |output| && AllWritten(before, after, ys, Winners(output, no))
    requires forall t :: 0 <= t < |ys| ==> |ys[t]| == no
    requires ch < |output| && i < |before[ch]| && last < |output| && last < no && output[last] == output[ch]
    requires forall c :: last < c < |output| && c < no ==> output[c] != output[ch]
    ensures |after[ch]| == |before[ch]| && after[ch][i] == if i < |ys| then ys[i][last] else before[ch][i]
  {
    assert Winners(output, no)[ch] == last;
    assert ChannelWritten(before[ch], after[ch], ys, Winners(output, no)[ch]);
  }

  /** A freshly built graph writes exactly its stream function. */
  method PlayGraph(g: Graph, input: seq<array<Sample>>, output: seq<array<Sample>>, count: nat)
    requires WellFormed(g) && BuffersDistinct(g) && FeedbackDistinct(g)
    modifies output
    ensures AllWritten(old(Snapshot(output)), Snapshot(output),
      Run(g, Same(map[], count), Frames(old(Snapshot(input)), NIn(g), count)), Winners(output, NOut(g)))
    ensures Distinct(output) ==> EachSample(old(Snapshot(output)), Snapshot(output),
      Run(g, Same(map[], count), Frames(old(Snapshot(input)), NIn(g), count)), NOut(g))
  {
    hide Step, Iterate, Run, Quiet, Separate, WellFormed, BuffersDistinct, FeedbackDistinct, Buffers, NIn, NOut, AllShaped, Scratch, Shape, AllWritten, Winners, Snapshot, Fresh, EachSample;
    var graph, state := Start(g);
    ghost var s0, xs := state.Contents(), Frames(Snapshot(input), NIn(g), count);
    RunIsDenotation(g, s0, Same(map[], count), xs);
    ghost var before, ys := Snapshot(output), Run(g, Same(map[], count), xs);
    ProcessBufferMc(graph, state, input, output, count);
    if Distinct(output) {
      AllSamples(output, before, Snapshot(output), ys, NOut(g));
    }
  }
}
