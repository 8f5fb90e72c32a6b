/**
 The runtime: the state object, the tree of nodes with the scratch buffers each
 allocated once, and `Tick`, which overwrites them sample after sample.
 */
module Runtime {
  import opened Samples
  import opened Graphs
  import opened Streams
  import opened Steps

  class State {
    var delays: map<int, seq<Sample>>
    var delayPos: map<int, int>
    var feedback: map<int, Sample>
    var params: Params

    constructor ()
      ensures Contents() == Store(map[], map[], map[]) && params == map[]
    {
      delays, delayPos, feedback, params := map[], map[], map[], map[];
    }

    ghost function Contents(): Store
      reads this
    {
      Store(feedback, delays, delayPos)
    }

    method DelayWriteRead(id: int, len: int, x: Sample, d: int) returns (y: Sample)
      requires len >= 1 && Shaped(Contents(), id, len)
      modifies this`delays, this`delayPos
      ensures (y, Contents()) == Steps.DelayWriteRead(old(Contents()), id, len, x, d)
    {
      if id !in delays || delays[id] == [] {
        delays := delays[id := Zeros(len)];
        delayPos := delayPos[id := 0];
      }
      var wp := if id in delayPos then delayPos[id] else 0;
      delays := delays[id := delays[id][wp := x]];
      assert delays == old(delays)[id := Buffer(old(Contents()), id, len)[wp := x]];
      y := delays[id][(wp - Clamp(d, 0, len - 1) + len) % len];
      delayPos := delayPos[id := (wp + 1) % len];
      assert delayPos == old(delayPos)[id := (wp + 1) % len];
    }

    method GetFeedback(id: int) returns (v: Sample)
      ensures v == Steps.GetFeedback(Contents(), id)
    {
      v := if id in feedback then feedback[id] else ZERO;
    }

    method SetFeedback(id: int, v: Sample)
      modifies this`feedback
      ensures feedback == old(feedback)[id := v]
    {
      feedback := feedback[id := v];
    }

    method ParamGet(name: string, init: Sample) returns (v: Sample)
      ensures v == Param(params, name, init)
    {
      v := if name in params then params[name] else init;
    }

    method ParamSet(name: string, v: Sample)
      modifies this`params
      ensures params == old(params)[name := v]
    {
      params := params[name := v];
    }
  }

  datatype Node =
    | LeafNode(leaf: Leaf)
    | SeqNode(a: Node, b: Node, scratch: array<Sample>)
    | ParNode(a: Node, b: Node, aOut: array<Sample>, bOut: array<Sample>)
    | SplitNode(a: Node, b: Node, aOut: array<Sample>, expanded: array<Sample>)
    | MergeNode(a: Node, b: Node, aOut: array<Sample>, summed: array<Sample>)
    | RecNode(a: Node, b: Node, id: int, ext: array<Sample>, aOut: array<Sample>, bOut: array<Sample>)
    | GroupNode(body: Node)

  /** The graph a node tree implements. */
  function Shape(n: Node): Graph {
    match n
    case LeafNode(l) => Prim(l)
    case SeqNode(a, b, _) => Seq(Shape(a), Shape(b))
    case ParNode(a, b, _, _) => Par(Shape(a), Shape(b))
    case SplitNode(a, b, _, _) => Split(Shape(a), Shape(b))
    case MergeNode(a, b, _, _) => Merge(Shape(a), Shape(b))
    case RecNode(a, b, id, _, _, _) => Rec(Shape(a), Shape(b), id)
    case GroupNode(body) => Group(Shape(body))
  }

  /** The scratch buffers a node itself owns. */
  ghost function Own(n: Node): set<array<Sample>> {
    match n
    case LeafNode(_) => {}
    case SeqNode(_, _, scratch) => {scratch}
    case ParNode(_, _, aOut, bOut) => {aOut, bOut}
    case SplitNode(_, _, aOut, expanded) => {aOut, expanded}
    case MergeNode(_, _, aOut, summed) => {aOut, summed}
    case RecNode(_, _, _, ext, aOut, bOut) => {ext, aOut, bOut}
    case GroupNode(_) => {}
  }

  ghost function Scratch(n: Node): set<array<Sample>> {
    Own(n) +
    if n.LeafNode? then {}
    else if n.GroupNode? then Scratch(n.body)
    else Scratch(n.a) + Scratch(n.b)
  }

  /** Scratch buffers are shared by no two nodes and have the lengths their nodes expect. */
  ghost predicate Separate(n: Node) {
    && Sized(n)
    && (if n.LeafNode? then true
        else if n.GroupNode? then Separate(n.body)
        else
          Separate(n.a) && Separate(n.b) && Scratch(n.a) !! Scratch(n.b) &&
          Own(n) !! Scratch(n.a) && Own(n) !! Scratch(n.b))
  }

  ghost predicate Sized(n: Node) {
    match n
    case LeafNode(_) => true
    case SeqNode(a, b, scratch) => scratch.Length == NOut(Shape(a))
    case ParNode(a, b, aOut, bOut) =>
      aOut != bOut && aOut.Length == NOut(Shape(a)) && bOut.Length == NOut(Shape(b))
    case SplitNode(a, b, aOut, expanded) =>
      aOut != expanded && aOut.Length == NOut(Shape(a)) && expanded.Length == NIn(Shape(b))
    case MergeNode(a, b, aOut, summed) =>
      aOut != summed && aOut.Length == NOut(Shape(a)) && summed.Length == NIn(Shape(b))
    case RecNode(a, b, _, ext, aOut, bOut) =>
      ext != aOut && ext != bOut && aOut != bOut &&
      ext.Length == NIn(Shape(a)) && aOut.Length == NOut(Shape(a)) && bOut.Length == NOut(Shape(b))
    case GroupNode(_) => true
  }

  predicate TwoSided(n: Node) { !n.LeafNode? && !n.GroupNode? }

  /** The input widths that a node fed with width w gives its operands. */
  function LeftWidth(n: Node, w: nat): nat
    requires TwoSided(n)
  {
    match n
    case ParNode(a, _, _, _) => Lesser(w, NIn(Shape(a)))
    case RecNode(_, _, _, ext, _, _) => ext.Length
    case _ => w
  }

  function RightWidth(n: Node, w: nat): nat
    requires TwoSided(n)
  {
    match n
    case SeqNode(_, _, scratch) => scratch.Length
    case ParNode(a, _, _, _) => w - Lesser(w, NIn(Shape(a)))
    case SplitNode(_, _, _, expanded) => expanded.Length
    case MergeNode(_, _, _, summed) => summed.Length
    case RecNode(_, _, _, _, aOut, _) => aOut.Length
  }

  /**
   With inputs of width w, no loop holds stale external inputs: a loop's input
   buffer is zero from the width it is fed up to its feedback channels.
   */
  ghost predicate Quiet(n: Node, w: nat)
    reads Scratch(n)
  {
    if n.LeafNode? then true
    else if n.GroupNode? then Quiet(n.body, w)
    else
      && Quiet(n.a, LeftWidth(n, w)) && Quiet(n.b, RightWidth(n, w))
      && (n.RecNode? ==> PadQuiet(n.ext, w, n.ext.Length - NOut(Shape(n.b))))
  }

  ghost predicate PadQuiet(ext: array<Sample>, w: nat, end: int)
    requires end <= ext.Length
    reads ext
  {
    forall i :: w <= i < end ==> ext[i] == ZERO
  }

  method TickLeaf(l: Leaf, s: State, inp: Frame, out: array<Sample>)
    requires LeafWellFormed(l) && AllShaped(s.Contents(), Buffers(Prim(l)))
    requires out.Length == LeafOuts(l)
    modifies s`delays, s`delayPos, s`feedback, out
    ensures (out[..], s.Contents()) == StepLeaf(l, old(s.Contents()), s.params, inp)
  {
    if l.VarDelay? || l.FixedDelay? || l.RwTable? {
      assert l.id in Buffers(Prim(l));
    }
    var x := if inp == [] then ZERO else inp[0];
    if l.Mem? {
      var y := s.GetFeedback(l.id);
      out[0] := y;
      assert out[..] == [y];
      s.SetFeedback(l.id, x);
    } else if l.VarDelay? {
      var y := s.DelayWriteRead(l.id, l.len, x, DelayArg(inp));
      out[0] := y;
      assert out[..] == [y];
    } else if l.FixedDelay? {
      var y := s.DelayWriteRead(l.id, l.len, x, l.len);
      out[0] := y;
      assert out[..] == [y];
    } else if l.RwTable? {
      if l.id !in s.delays || s.delays[l.id] == [] {
        s.delays := s.delays[l.id := Zeros(l.len)];
      }
      s.delays := s.delays[l.id := s.delays[l.id][TableIndex(inp, 0, l.len) := At(inp, 1)]];
      var y := s.delays[l.id][TableIndex(inp, 2, l.len)];
      out[0] := y;
      assert s.delays == old(s.delays)[l.id := s.delays[l.id]];
      assert out[..] == [y];
    } else if !l.Cut? {
      var y := Instant(l, s.params, inp);
      out[0] := y[0];
      assert out[..] == y;
    }
  }

  /** What a tick needs: a well-formed graph, shaped state, buffers of its own, quiet loops. */
  ghost predicate Ready(n: Node, s: State, w: nat)
    reads s, Scratch(n)
  {
    && WellFormed(Shape(n)) && BuffersDistinct(Shape(n)) && AllShaped(s.Contents(), Buffers(Shape(n)))
    && Separate(n) && Quiet(n, w)
  }

  /** One tick over the node tree: exactly one Step of the graph it implements. */
  method Tick(n: Node, s: State, inp: Frame, out: array<Sample>)
    requires Ready(n, s, |inp|)
    requires out !in Scratch(n) && out.Length == NOut(Shape(n))
    modifies s`delays, s`delayPos, s`feedback, out, Scratch(n)
    ensures Ready(n, s, |inp|)
    ensures (out[..], s.Contents()) == Step(Shape(n), old(s.Contents()), s.params, inp)
    decreases n, 1
  {
    match n
    case LeafNode(l) => TickLeaf(l, s, inp, out);
    case SeqNode(_, _, _) => TickSeq(n, s, inp, out);
    case ParNode(_, _, _, _) => TickPar(n, s, inp, out);
    case SplitNode(_, _, _, _) => TickSplit(n, s, inp, out);
    case MergeNode(_, _, _, _) => TickMerge(n, s, inp, out);
    case RecNode(_, _, _, _, _, _) => TickRec(n, s, inp, out);
    case GroupNode(body) => Tick(body, s, inp, out);
  }

  lemma {:induction false} ScratchAllocated(n: Node)
    ensures forall c :: c in Scratch(n) ==> allocated(c)
    decreases n
  {
    match n
    case LeafNode(_) =>
    case SeqNode(a, b, _) => ScratchAllocated(a); ScratchAllocated(b);
    case ParNode(a, b, _, _) => ScratchAllocated(a); ScratchAllocated(b);
    case SplitNode(a, b, _, _) => ScratchAllocated(a); ScratchAllocated(b);
    case MergeNode(a, b, _, _) => ScratchAllocated(a); ScratchAllocated(b);
    case RecNode(a, b, _, _, _, _) => ScratchAllocated(a); ScratchAllocated(b);
    case GroupNode(body) => ScratchAllocated(body);
  }

  /** What a two-sided node needs, unfolded once. */
  ghost predicate Sides(n: Node, s: State, w: nat)
    requires TwoSided(n)
    reads s, Scratch(n.a), Scratch(n.b)
  {
    && Ready(n.a, s, LeftWidth(n, w)) && Ready(n.b, s, RightWidth(n, w))
    && Buffers(Shape(n.a)).Keys !! Buffers(Shape(n.b)).Keys
    && Scratch(n.a) !! Scratch(n.b) && Own(n) !! Scratch(n.a) && Own(n) !! Scratch(n.b)
  }

  lemma Unpack(n: Node, s: State, w: nat)
    requires TwoSided(n) && Ready(n, s, w)
    ensures Sides(n, s, w) && Sized(n)
    ensures Scratch(n) == Own(n) + Scratch(n.a) + Scratch(n.b)
    ensures forall c :: c in Scratch(n.a) ==> allocated(c)
    ensures forall c :: c in Scratch(n.b) ==> allocated(c)
    ensures n.RecNode? ==> PadQuiet(n.ext, w, n.ext.Length - n.bOut.Length)
  {
    ScratchAllocated(n.a);
    ScratchAllocated(n.b);
    Operands(Shape(n), s.Contents());
  }

  /** The graph of a two-sided node, unfolded once. */
  lemma ShapeOf(n: Node, g: Graph)
    requires TwoSided(n) && WellFormed(Shape(n)) && g == Shape(n)
    ensures Steps.TwoSided(g) && g.a == Shape(n.a) && g.b == Shape(n.b)
    ensures (n.SeqNode? <==> g.Seq?) && (n.ParNode? <==> g.Par?) && (n.SplitNode? <==> g.Split?)
    ensures (n.MergeNode? <==> g.Merge?) && (n.RecNode? <==> g.Rec?)
    ensures g.Rec? ==> g.id == n.id && NOut(g.b) <= NIn(g.a)
    ensures g.Split? && NIn(g.b) > 0 ==> NOut(g.a) > 0
    ensures g.Merge? && NOut(g.a) > 0 ==> NIn(g.b) > 0
    ensures NOut(g) == if g.Par? then NOut(g.a) + NOut(g.b) else if g.Rec? then NOut(g.a) else NOut(g.b)
  {
  }

  lemma Repack(n: Node, s: State, w: nat)
    requires TwoSided(n) && WellFormed(Shape(n)) && BuffersDistinct(Shape(n))
    requires AllShaped(s.Contents(), Buffers(Shape(n))) && Separate(n)
    requires Quiet(n.a, LeftWidth(n, w)) && Quiet(n.b, RightWidth(n, w))
    requires n.RecNode? ==> PadQuiet(n.ext, w, n.ext.Length - n.bOut.Length)
    ensures Ready(n, s, w)
  {
  }

  method TickSeq(n: Node, s: State, inp: Frame, out: array<Sample>)
    requires n.SeqNode? && Ready(n, s, |inp|)
    requires out !in Scratch(n) && out.Length == NOut(Shape(n))
    modifies s`delays, s`delayPos, s`feedback, out, Scratch(n)
    ensures Ready(n, s, |inp|)
    ensures (out[..], s.Contents()) == Step(Shape(n), old(s.Contents()), s.params, inp)
    decreases n, 0
  {
    hide Step, Quiet, Scratch, Separate, Shape, WellFormed, BuffersDistinct, Buffers, FeedbackIds, NOut, NIn, AllShaped;
    ghost var g, s0 := Shape(n), s.Contents();
    Unpack(n, s, |inp|);
    ShapeOf(n, g);
    Tick(n.a, s, inp, n.scratch);
    ghost var ra := Step(g.a, s0, s.params, inp);
    AfterLeft(g, s0, s.params, inp);
    assert Quiet(n.b, n.scratch.Length);
    Tick(n.b, s, n.scratch[..], out);
    ghost var rb := Step(g.b, ra.1, s.params, ra.0);
    assert (out[..], s.Contents()) == rb;
    SeqStep(g, s0, s.params, inp, ra, rb);
    assert Quiet(n.a, |inp|) && Quiet(n.b, n.scratch.Length);
    Repack(n, s, |inp|);
  }

  method TickPar(n: Node, s: State, inp: Frame, out: array<Sample>)
    requires n.ParNode? && Ready(n, s, |inp|)
    requires out !in Scratch(n) && out.Length == NOut(Shape(n))
    modifies s`delays, s`delayPos, s`feedback, out, Scratch(n)
    ensures Ready(n, s, |inp|)
    ensures (out[..], s.Contents()) == Step(Shape(n), old(s.Contents()), s.params, inp)
    decreases n, 0
  {
    hide Step, Quiet, Scratch, Separate, Shape, WellFormed, BuffersDistinct, Buffers, FeedbackIds, NOut, NIn, AllShaped;
    ghost var g, s0 := Shape(n), s.Contents();
    Unpack(n, s, |inp|);
    ShapeOf(n, g);
    var ai := NIn(Shape(n.a));
    var aIn := inp[..Lesser(ai, |inp|)];
    var bIn := if |inp| > ai then inp[ai..] else [];
    assert aIn == Take(inp, ai) && bIn == Drop(inp, ai);
    assert |aIn| == LeftWidth(n, |inp|) && |bIn| == RightWidth(n, |inp|);
    Tick(n.a, s, aIn, n.aOut);
    ghost var ra := Step(g.a, s0, s.params, aIn);
    AfterLeft(g, s0, s.params, aIn);
    assert Quiet(n.b, |bIn|);
    Tick(n.b, s, bIn, n.bOut);
    ghost var rb := Step(g.b, ra.1, s.params, bIn);
    Concat(n.aOut, n.bOut, out);
    ParStep(g, s0, s.params, inp, ra, rb);
    assert Quiet(n.a, |aIn|) && Quiet(n.b, |bIn|);
    Repack(n, s, |inp|);
  }

  method Concat(aOut: array<Sample>, bOut: array<Sample>, out: array<Sample>)
    requires out.Length == aOut.Length + bOut.Length && out != aOut && out != bOut
    modifies out
    ensures out[..] == aOut[..] + bOut[..]
  {
    for i := 0 to aOut.Length
      invariant out[..i] == aOut[..i]
    {
      out[i] := aOut[i];
    }
    for i := 0 to bOut.Length
      invariant out[..aOut.Length + i] == aOut[..] + bOut[..i]
    {
      out[aOut.Length + i] := bOut[i];
    }
  }

  method TickSplit(n: Node, s: State, inp: Frame, out: array<Sample>)
    requires n.SplitNode? && Ready(n, s, |inp|)
    requires out !in Scratch(n) && out.Length == NOut(Shape(n))
    modifies s`delays, s`delayPos, s`feedback, out, Scratch(n)
    ensures Ready(n, s, |inp|)
    ensures (out[..], s.Contents()) == Step(Shape(n), old(s.Contents()), s.params, inp)
    decreases n, 0
  {
    hide Step, Quiet, Scratch, Separate, Shape, WellFormed, BuffersDistinct, Buffers, FeedbackIds, NOut, NIn, AllShaped;
    ghost var g, s0 := Shape(n), s.Contents();
    Unpack(n, s, |inp|);
    ShapeOf(n, g);
    Tick(n.a, s, inp, n.aOut);
    ghost var ra := Step(g.a, s0, s.params, inp);
    AfterLeft(g, s0, s.params, inp);
    FanOut(n.aOut, n.expanded);
    assert Quiet(n.b, n.expanded.Length);
    Tick(n.b, s, n.expanded[..], out);
    ghost var rb := Step(g.b, ra.1, s.params, Fan(ra.0, NIn(g.b)));
    SplitStep(g, s0, s.params, inp, ra, rb);
    assert Quiet(n.a, |inp|) && Quiet(n.b, n.expanded.Length);
    Repack(n, s, |inp|);
  }

  method FanOut(aOut: array<Sample>, expanded: array<Sample>)
    requires expanded.Length > 0 ==> aOut.Length > 0
    requires aOut != expanded
    modifies expanded
    ensures expanded[..] == Fan(aOut[..], expanded.Length)
  {
    for i := 0 to expanded.Length
      invariant forall j :: 0 <= j < i ==> expanded[j] == aOut[j % aOut.Length]
    {
      expanded[i] := aOut[i % aOut.Length];
    }
  }

  method TickMerge(n: Node, s: State, inp: Frame, out: array<Sample>)
    requires n.MergeNode? && Ready(n, s, |inp|)
    requires out !in Scratch(n) && out.Length == NOut(Shape(n))
    modifies s`delays, s`delayPos, s`feedback, out, Scratch(n)
    ensures Ready(n, s, |inp|)
    ensures (out[..], s.Contents()) == Step(Shape(n), old(s.Contents()), s.params, inp)
    decreases n, 0
  {
    hide Step, Quiet, Scratch, Separate, Shape, WellFormed, BuffersDistinct, Buffers, FeedbackIds, NOut, NIn, AllShaped;
    ghost var g, s0 := Shape(n), s.Contents();
    Unpack(n, s, |inp|);
    ShapeOf(n, g);
    Tick(n.a, s, inp, n.aOut);
    ghost var ra := Step(g.a, s0, s.params, inp);
    AfterLeft(g, s0, s.params, inp);
    SumInto(n.aOut, n.summed);
    assert Quiet(n.b, n.summed.Length);
    Tick(n.b, s, n.summed[..], out);
    ghost var rb := Step(g.b, ra.1, s.params, Fold(ra.0, NIn(g.b)));
    MergeStep(g, s0, s.params, inp, ra, rb);
    assert Quiet(n.a, |inp|) && Quiet(n.b, n.summed.Length);
    Repack(n, s, |inp|);
  }

  method SumInto(aOut: array<Sample>, summed: array<Sample>)
    requires aOut.Length > 0 ==> summed.Length > 0
    requires aOut != summed
    modifies summed
    ensures summed[..] == Fold(aOut[..], summed.Length)
  {
    var bi := summed.Length;
    for i := 0 to bi
      invariant forall j :: 0 <= j < i ==> summed[j] == ZERO
    {
      summed[i] := ZERO;
    }
    for i := 0 to aOut.Length
      invariant forall j :: 0 <= j < bi ==> summed[j] == StridedSum(aOut[..], bi, j, i)
    {
      summed[i % bi] := FLOAT.add(summed[i % bi], aOut[i]);
    }
  }

  method TickRec(n: Node, s: State, inp: Frame, out: array<Sample>)
    requires n.RecNode? && Ready(n, s, |inp|)
    requires out !in Scratch(n) && out.Length == NOut(Shape(n))
    modifies s`delays, s`delayPos, s`feedback, out, Scratch(n)
    ensures Ready(n, s, |inp|)
    ensures (out[..], s.Contents()) == Step(Shape(n), old(s.Contents()), s.params, inp)
    decreases n, 0
  {
    hide Step, Quiet, Scratch, Separate, Shape, WellFormed, BuffersDistinct, Buffers, FeedbackIds, NOut, NIn, AllShaped;
    ghost var g, s0 := Shape(n), s.Contents();
    Unpack(n, s, |inp|);
    ShapeOf(n, g);
    LoadExt(s, n.id, inp, n.ext, n.bOut.Length);
    assert Quiet(n.a, n.ext.Length) && Quiet(n.b, n.aOut.Length);
    ghost var z := n.ext[..];
    Tick(n.a, s, n.ext[..], n.aOut);
    ghost var ra := Step(g.a, s0, s.params, z);
    AfterLeft(g, s0, s.params, z);
    assert Quiet(n.b, n.aOut.Length);
    Tick(n.b, s, n.aOut[..], n.bOut);
    ghost var rb := Step(g.b, ra.1, s.params, ra.0);
    Finish(s, n.id, n.bOut, n.aOut, out);
    Steps.RecStep(g, s0, s.params, inp, ra, rb);
    assert n.ext[..] == z && PadQuiet(n.ext, |inp|, n.ext.Length - n.bOut.Length);
    assert Quiet(n.a, n.ext.Length) && Quiet(n.b, n.aOut.Length);
    Repack(n, s, |inp|);
  }

  /** The loop's feedback into its cells, and its output out. */
  method Finish(s: State, id: int, bOut: array<Sample>, aOut: array<Sample>, out: array<Sample>)
    requires aOut.Length == out.Length && aOut != out && bOut != out
    modifies s`feedback, out
    ensures s.Contents() == WriteFeedback(old(s.Contents()), id, old(bOut[..]), bOut.Length)
    ensures out[..] == old(aOut[..])
  {
    StoreFeedback(s, id, bOut);
    Copy(aOut, out);
  }

  /** External inputs, then feedback, into the loop's input buffer. */
  method LoadExt(s: State, id: int, inp: Frame, ext: array<Sample>, fbOuts: nat)
    requires fbOuts <= ext.Length && PadQuiet(ext, |inp|, ext.Length - fbOuts)
    modifies ext
    ensures ext[..] == Pad(inp, ext.Length - fbOuts) + ReadFeedback(s.Contents(), id, fbOuts)
  {
    var realIn := ext.Length - fbOuts;
    var i := 0;
    while i < realIn && i < |inp|
      invariant 0 <= i <= realIn && i <= |inp|
      invariant forall j :: 0 <= j < i ==> ext[j] == inp[j]
      invariant PadQuiet(ext, |inp|, realIn)
    {
      ext[i] := inp[i];
      i := i + 1;
    }
    assert ext[..realIn] == Pad(inp, realIn);
    i := 0;
    while i < fbOuts
      invariant 0 <= i <= fbOuts
      invariant ext[..realIn + i] == Pad(inp, realIn) + ReadFeedback(s.Contents(), id, i)
    {
      ext[realIn + i] := s.GetFeedback(id + i);
      i := i + 1;
    }
    assert ext[..] == ext[..realIn + fbOuts];
  }

  method StoreFeedback(s: State, id: int, bOut: array<Sample>)
    modifies s`feedback
    ensures s.Contents() == WriteFeedback(old(s.Contents()), id, bOut[..], bOut.Length)
  {
    for i := 0 to bOut.Length
      invariant s.Contents() == WriteFeedback(old(s.Contents()), id, bOut[..], i)
    {
      s.SetFeedback(id + i, bOut[i]);
    }
  }

  method Copy(aOut: array<Sample>, out: array<Sample>)
    requires aOut != out && aOut.Length == out.Length
    modifies out
    ensures out[..] == aOut[..]
  {
    var i := 0;
    while i < aOut.Length && i < out.Length
      invariant 0 <= i <= aOut.Length
      invariant out[..i] == aOut[..i]
    {
      out[i] := aOut[i];
      i := i + 1;
    }
  }

  // ---- Construction: every scratch buffer allocated once, zeroed.

  ghost predicate Zeroed(c: array<Sample>)
    reads c
  {
    forall i :: 0 <= i < c.Length ==> c[i] == ZERO
  }

  ghost predicate AllZero(n: Node)
    reads Scratch(n)
  {
    && (forall c :: c in Own(n) ==> Zeroed(c))
    && (if n.LeafNode? then true else if n.GroupNode? then AllZero(n.body) else AllZero(n.a) && AllZero(n.b))
  }

  lemma {:induction false} ZeroIsQuiet(n: Node, w: nat)
    requires AllZero(n) && Separate(n) && WellFormed(Shape(n))
    ensures Quiet(n, w)
    decreases n
  {
    if n.GroupNode? {
      ZeroIsQuiet(n.body, w);
    } else if TwoSided(n) {
      ZeroIsQuiet(n.a, LeftWidth(n, w));
      ZeroIsQuiet(n.b, RightWidth(n, w));
      if n.RecNode? {
        assert Zeroed(n.ext);
      }
    }
  }

  method NewBuffer(n: nat) returns (c: array<Sample>)
    ensures fresh(c) && c.Length == n && Zeroed(c)
  {
    c := new Sample[n](_ => ZERO);
  }

  lemma Assembled(n: Node)
    requires TwoSided(n) && Sized(n) && Separate(n.a) && Separate(n.b) && AllZero(n.a) && AllZero(n.b)
    requires Scratch(n.a) !! Scratch(n.b) && Own(n) !! Scratch(n.a) && Own(n) !! Scratch(n.b)
    requires forall c :: c in Own(n) ==> Zeroed(c)
    ensures Separate(n) && AllZero(n) && Scratch(n) == Own(n) + Scratch(n.a) + Scratch(n.b)
  {
  }

  /** A combinator over two built operands, with scratch buffers of its own. */
  method Join(g: Graph, a: Node, b: Node) returns (n: Node)
    requires Steps.TwoSided(g) && Shape(a) == g.a && Shape(b) == g.b
    ensures TwoSided(n) && n.a == a && n.b == b && Shape(n) == g && Sized(n)
    ensures fresh(Own(n)) && forall c :: c in Own(n) ==> Zeroed(c)
  {
    hide NOut, NIn;
    var aOut := NewBuffer(NOut(g.a));
    if g.Seq? {
      n := SeqNode(a, b, aOut);
    } else {
      var right := NewBuffer(if g.Par? || g.Rec? then NOut(g.b) else NIn(g.b));
      if g.Par? {
        n := ParNode(a, b, aOut, right);
      } else if g.Split? {
        n := SplitNode(a, b, aOut, right);
      } else if g.Merge? {
        n := MergeNode(a, b, aOut, right);
      } else {
        var ext := NewBuffer(NIn(g.a));
        n := RecNode(a, b, g.id, ext, aOut, right);
      }
    }
  }

  /** The node tree of a graph, with all its scratch buffers. */
  method Build(g: Graph) returns (n: Node)
    ensures Shape(n) == g && Separate(n) && AllZero(n) && fresh(Scratch(n))
    decreases g
  {
    if g.Prim? {
      n := LeafNode(g.leaf);
    } else if g.Group? {
      var body := Build(g.body);
      n := GroupNode(body);
    } else {
      var a := Build(g.a);
      ScratchAllocated(a);
      var b := Build(g.b);
      ScratchAllocated(b);
      n := Join(g, a, b);
      Assembled(n);
    }
  }
}
