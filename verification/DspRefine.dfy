/**
 The stateful graph computes the stream function it denotes.

 `Remembers` says what a store must hold after a stream prefix: every delay
 buffer its recent inputs, every table its last writes, every feedback cell the
 previous sample of its loop. One tick from such a store outputs the next frame
 of the denoted stream and leaves such a store again.
 */
module Refinement {
  import opened Samples
  import opened Graphs
  import opened Streams
  import opened Steps
  import Modulo

  /** The ring buffer is the plain history of inputs, addressed backwards from the write position. */
  ghost predicate HoldsDelay(s: Store, id: int, len: int, xs: seq<Frame>)
    requires len >= 1
  {
    && |Buffer(s, id, len)| == len
    && WritePos(s, id) == |xs| % len
    && (forall d {:trigger Delayed(xs, d)} :: 0 <= d < len ==>
          Buffer(s, id, len)[(|xs| - 1 - d) % len] == Delayed(xs, d))
  }

  ghost predicate HoldsTable(s: Store, id: int, len: int, xs: seq<Frame>)
    requires len >= 1
  {
    && |Buffer(s, id, len)| == len
    && (forall r :: 0 <= r < len ==> Buffer(s, id, len)[r] == LastWrite(xs, len, r))
  }

  ghost predicate LeafRemembers(l: Leaf, xs: seq<Frame>, s: Store)
    requires LeafWellFormed(l)
  {
    && (l.Mem? ==> GetFeedback(s, l.id) == Delayed(xs, 0))
    && (l.VarDelay? || l.FixedDelay? ==> HoldsDelay(s, l.id, l.len, xs))
    && (l.RwTable? ==> HoldsTable(s, l.id, l.len, xs))
  }

  /** The inputs that the body of a loop has seen. */
  ghost function BodyInputs(g: Graph, ps: seq<Params>, xs: seq<Frame>): (zs: seq<Frame>)
    requires g.Rec? && WellFormed(g) && |ps| == |xs|
    ensures |zs| == |xs|
  {
    LoopIn(xs, Run(g.b, ps, Run(g, ps, xs)), NIn(g.a) - NOut(g.b), NOut(g.b))
  }

  /** The feedback frame a loop holds after a stream prefix. */
  ghost function Held(g: Graph, ps: seq<Params>, xs: seq<Frame>): (f: Frame)
    requires g.Rec? && WellFormed(g) && |ps| == |xs|
    ensures |f| == NOut(g.b)
  {
    if xs == [] then Zeros(NOut(g.b)) else Run(g.b, ps, Run(g, ps, xs))[|xs| - 1]
  }

  ghost predicate Remembers(g: Graph, ps: seq<Params>, xs: seq<Frame>, s: Store)
    requires WellFormed(g) && |ps| == |xs|
    decreases g
  {
    match g
    case Prim(l) => LeafRemembers(l, xs, s)
    case Seq(a, b) => Remembers(a, ps, xs, s) && Remembers(b, ps, Run(a, ps, xs), s)
    case Par(a, b) => Remembers(a, ps, Takes(xs, NIn(a)), s) && Remembers(b, ps, Drops(xs, NIn(a)), s)
    case Split(a, b) => Remembers(a, ps, xs, s) && Remembers(b, ps, Fans(Run(a, ps, xs), NIn(b)), s)
    case Merge(a, b) => Remembers(a, ps, xs, s) && Remembers(b, ps, Folds(Run(a, ps, xs), NIn(b)), s)
    case Rec(a, b, id) =>
      && Remembers(a, ps, BodyInputs(g, ps, xs), s)
      && Remembers(b, ps, Run(g, ps, xs), s)
      && ReadFeedback(s, id, NOut(b)) == Held(g, ps, xs)
    case Group(body) => Remembers(body, ps, xs, s)
  }

  // ---- Frame: what a graph remembers sits in its own cells and buffers.

  lemma {:induction false} RemembersFrame(g: Graph, ps: seq<Params>, xs: seq<Frame>, s: Store, t: Store,
      cells: set<int>, bufs: set<int>)
    requires WellFormed(g) && |ps| == |xs| && Remembers(g, ps, xs, s)
    requires SameOutside(s, t, cells, bufs) && FeedbackIds(g) !! cells && Buffers(g).Keys !! bufs
    ensures Remembers(g, ps, xs, t)
    decreases g
  {
    hide FeedbackIds, Buffers, Run, NIn, NOut, Takes, Drops, Fans, Folds, LoopIn, SameOutside, LeafRemembers, LeafWellFormed, ReadFeedback;
    if g.Prim? {
      LeafFrame(g.leaf, xs, s, t, cells, bufs);
    } else {
      PartsOwn(g);
      match g
      case Seq(a, b) =>
        RemembersFrame(a, ps, xs, s, t, cells, bufs);
        RemembersFrame(b, ps, Run(a, ps, xs), s, t, cells, bufs);
      case Par(a, b) =>
        RemembersFrame(a, ps, Takes(xs, NIn(a)), s, t, cells, bufs);
        RemembersFrame(b, ps, Drops(xs, NIn(a)), s, t, cells, bufs);
      case Split(a, b) =>
        RemembersFrame(a, ps, xs, s, t, cells, bufs);
        RemembersFrame(b, ps, Fans(Run(a, ps, xs), NIn(b)), s, t, cells, bufs);
      case Merge(a, b) =>
        RemembersFrame(a, ps, xs, s, t, cells, bufs);
        RemembersFrame(b, ps, Folds(Run(a, ps, xs), NIn(b)), s, t, cells, bufs);
      case Rec(a, b, id) =>
        RemembersFrame(a, ps, BodyInputs(g, ps, xs), s, t, cells, bufs);
        RemembersFrame(b, ps, Run(g, ps, xs), s, t, cells, bufs);
        FeedbackFrame(id, NOut(b), s, t, cells, bufs);
      case Group(body) => RemembersFrame(body, ps, xs, s, t, cells, bufs);
    }
  }

  /** What the parts of a graph own, the graph owns. */
  lemma PartsOwn(g: Graph)
    ensures g.Group? ==> FeedbackIds(g.body) == FeedbackIds(g) && Buffers(g.body) == Buffers(g)
    ensures !g.Group? && !g.Prim? ==>
      && FeedbackIds(g.a) <= FeedbackIds(g) && Buffers(g.a).Keys <= Buffers(g).Keys
      && FeedbackIds(g.b) <= FeedbackIds(g) && Buffers(g.b).Keys <= Buffers(g).Keys
    ensures g.Rec? ==> IdRange(g.id, NOut(g.b)) <= FeedbackIds(g)
  {
    hide NOut;
  }

  lemma LeafFrame(l: Leaf, xs: seq<Frame>, s: Store, t: Store, cells: set<int>, bufs: set<int>)
    requires LeafWellFormed(l) && LeafRemembers(l, xs, s)
    requires SameOutside(s, t, cells, bufs) && FeedbackIds(Prim(l)) !! cells && Buffers(Prim(l)).Keys !! bufs
    ensures LeafRemembers(l, xs, t)
  {
    hide SameOutside;
    if l.Mem? {
      SameOutsideAt(s, t, cells, bufs, l.id);
    } else if HasMemory(l) {
      assert l.id in Buffers(Prim(l));
      SameOutsideAt(s, t, cells, bufs, l.id);
    }
  }

  lemma SameOutsideAt(s: Store, t: Store, cells: set<int>, bufs: set<int>, id: int)
    requires SameOutside(s, t, cells, bufs)
    ensures id !in cells ==> SameCell(s, t, id)
    ensures id !in bufs ==> SameBuffer(s, t, id)
  {
  }

  lemma FeedbackFrame(id: int, n: nat, s: Store, t: Store, cells: set<int>, bufs: set<int>)
    requires SameOutside(s, t, cells, bufs) && IdRange(id, n) !! cells
    ensures ReadFeedback(s, id, n) == ReadFeedback(t, id, n)
  {
    hide SameOutside;
    forall i | 0 <= i < n ensures ReadFeedback(s, id, n)[i] == ReadFeedback(t, id, n)[i] {
      assert id + i in IdRange(id, n);
      SameOutsideAt(s, t, cells, bufs, id + i);
    }
  }

  // ---- Leaves.

  lemma DelayStep(s: Store, id: int, len: int, xs: seq<Frame>, x: Frame, d: int)
    requires len >= 1 && Shaped(s, id, len) && HoldsDelay(s, id, len, xs)
    ensures var r := DelayWriteRead(s, id, len, At(x, 0), d);
      r.0 == Delayed(xs + [x], Clamp(d, 0, len - 1)) && HoldsDelay(r.1, id, len, xs + [x])
  {
    var r := DelayWriteRead(s, id, len, At(x, 0), d);
    var t := |xs|;
    var ys := xs + [x];
    var before, after := Buffer(s, id, len), Buffer(r.1, id, len);
    Modulo.StepForward(t, len);
    forall e {:trigger Delayed(ys, e)} | 0 <= e < len
      ensures after[(|ys| - 1 - e) % len] == Delayed(ys, e)
    {
      Modulo.StepBack(t, len, e);
      if e > 0 {
        assert before[(|xs| - 1 - (e - 1)) % len] == Delayed(xs, e - 1);
      }
    }
    var c := Clamp(d, 0, len - 1);
    Modulo.StepBack(t, len, c);
    assert r.0 == Delayed(ys, c);
  }

  lemma {:induction false} LeafStep(l: Leaf, ps: seq<Params>, xs: seq<Frame>, s: Store, p: Params, x: Frame)
    requires LeafWellFormed(l) && |ps| == |xs| && AllShaped(s, Buffers(Prim(l)))
    requires LeafRemembers(l, xs, s)
    ensures var r := StepLeaf(l, s, p, x);
      r.0 == LeafOut(l, p, xs + [x]) && LeafRemembers(l, xs + [x], r.1)
  {
    if l.VarDelay? || l.FixedDelay? {
      DelayLeafStep(l, xs, s, p, x);
    } else if l.RwTable? {
      TableStep(l, xs, s, p, x);
    }
  }

  lemma DelayLeafStep(l: Leaf, xs: seq<Frame>, s: Store, p: Params, x: Frame)
    requires (l.VarDelay? || l.FixedDelay?) && LeafWellFormed(l) && AllShaped(s, Buffers(Prim(l)))
    requires LeafRemembers(l, xs, s)
    ensures var r := StepLeaf(l, s, p, x);
      r.0 == LeafOut(l, p, xs + [x]) && LeafRemembers(l, xs + [x], r.1)
  {
    hide HoldsDelay, DelayWriteRead;
    assert l.id in Buffers(Prim(l));
    DelayStep(s, l.id, l.len, xs, x, if l.VarDelay? then DelayArg(x) else l.len);
  }

  lemma TableStep(l: Leaf, xs: seq<Frame>, s: Store, p: Params, x: Frame)
    requires l.RwTable? && LeafWellFormed(l) && AllShaped(s, Buffers(Prim(l)))
    requires LeafRemembers(l, xs, s)
    ensures var r := StepLeaf(l, s, p, x);
      r.0 == LeafOut(l, p, xs + [x]) && LeafRemembers(l, xs + [x], r.1)
  {
    var ys := xs + [x];
    assert l.id in Buffers(Prim(l));
    assert ys[..|ys| - 1] == xs;
  }

  // ---- Streams grown by one frame.

  lemma RunGrows(g: Graph, ps: seq<Params>, xs: seq<Frame>, p: Params, x: Frame)
    requires WellFormed(g) && |ps| == |xs|
    ensures Run(g, ps + [p], xs + [x]) == Run(g, ps, xs) + [Run(g, ps + [p], xs + [x])[|xs|]]
  {
    hide Run, NOut, WellFormed;
    Causal(g, ps + [p], xs + [x], |xs|);
    assert (ps + [p])[..|ps|] == ps && (xs + [x])[..|xs|] == xs;
  }

  /** The next frame of the denoted stream. */
  ghost function Next(g: Graph, ps: seq<Params>, xs: seq<Frame>, p: Params, x: Frame): (y: Frame)
    requires WellFormed(g) && |ps| == |xs|
    ensures |y| == NOut(g)
  {
    Run(g, ps + [p], xs + [x])[|xs|]
  }

  // ---- The main step.

  lemma {:induction false} StepFollowsRun(g: Graph, ps: seq<Params>, xs: seq<Frame>, s: Store, p: Params, x: Frame)
    requires WellFormed(g) && BuffersDistinct(g) && FeedbackDistinct(g) && |ps| == |xs|
    requires AllShaped(s, Buffers(g)) && Remembers(g, ps, xs, s)
    ensures Step(g, s, p, x).0 == Next(g, ps, xs, p, x)
    ensures Remembers(g, ps + [p], xs + [x], Step(g, s, p, x).1)
    decreases g, 1
  {
    match g
    case Prim(l) =>
      LeafStep(l, ps, xs, s, p, x);
      assert (xs + [x])[..|xs| + 1] == xs + [x];
    case Seq(_, _) => SeqFollows(g, ps, xs, s, p, x);
    case Par(_, _) => ParFollows(g, ps, xs, s, p, x);
    case Split(_, _) => SplitFollows(g, ps, xs, s, p, x);
    case Merge(_, _) => MergeFollows(g, ps, xs, s, p, x);
    case Rec(_, _, _) => RecFollows(g, ps, xs, s, p, x);
    case Group(body) => StepFollowsRun(body, ps, xs, s, p, x);
  }

  lemma {:induction false} SeqFollows(g: Graph, ps: seq<Params>, xs: seq<Frame>, s: Store, p: Params, x: Frame)
    requires g.Seq? && WellFormed(g) && BuffersDistinct(g) && FeedbackDistinct(g) && |ps| == |xs|
    requires AllShaped(s, Buffers(g)) && Remembers(g, ps, xs, s)
    ensures Step(g, s, p, x).0 == Next(g, ps, xs, p, x)
    ensures Remembers(g, ps + [p], xs + [x], Step(g, s, p, x).1)
    decreases g, 0
  {
    var a, b := g.a, g.b;
    Halves(s, a, b);
    StepFollowsRun(a, ps, xs, s, p, x);
    var ys, y := Run(a, ps, xs), Next(a, ps, xs, p, x);
    RunGrows(a, ps, xs, p, x);
    RightStep(a, b, ps, xs, ys, s, p, x, y);
  }

  lemma {:induction false} ParFollows(g: Graph, ps: seq<Params>, xs: seq<Frame>, s: Store, p: Params, x: Frame)
    requires g.Par? && WellFormed(g) && BuffersDistinct(g) && FeedbackDistinct(g) && |ps| == |xs|
    requires AllShaped(s, Buffers(g)) && Remembers(g, ps, xs, s)
    ensures Step(g, s, p, x).0 == Next(g, ps, xs, p, x)
    ensures Remembers(g, ps + [p], xs + [x], Step(g, s, p, x).1)
    decreases g, 0
  {
    var a, b := g.a, g.b;
    Halves(s, a, b);
    var n := NIn(a);
    assert Takes(xs + [x], n) == Takes(xs, n) + [Take(x, n)];
    assert Drops(xs + [x], n) == Drops(xs, n) + [Drop(x, n)];
    StepFollowsRun(a, ps, Takes(xs, n), s, p, Take(x, n));
    RightStep(a, b, ps, Takes(xs, n), Drops(xs, n), s, p, Take(x, n), Drop(x, n));
  }

  lemma {:induction false} SplitFollows(g: Graph, ps: seq<Params>, xs: seq<Frame>, s: Store, p: Params, x: Frame)
    requires g.Split? && WellFormed(g) && BuffersDistinct(g) && FeedbackDistinct(g) && |ps| == |xs|
    requires AllShaped(s, Buffers(g)) && Remembers(g, ps, xs, s)
    ensures Step(g, s, p, x).0 == Next(g, ps, xs, p, x)
    ensures Remembers(g, ps + [p], xs + [x], Step(g, s, p, x).1)
    decreases g, 0
  {
    var a, b := g.a, g.b;
    Halves(s, a, b);
    StepFollowsRun(a, ps, xs, s, p, x);
    var ys, y := Run(a, ps, xs), Next(a, ps, xs, p, x);
    RunGrows(a, ps, xs, p, x);
    assert Fans(ys + [y], NIn(b)) == Fans(ys, NIn(b)) + [Fan(y, NIn(b))];
    RightStep(a, b, ps, xs, Fans(ys, NIn(b)), s, p, x, Fan(y, NIn(b)));
  }

  lemma {:induction false} MergeFollows(g: Graph, ps: seq<Params>, xs: seq<Frame>, s: Store, p: Params, x: Frame)
    requires g.Merge? && WellFormed(g) && BuffersDistinct(g) && FeedbackDistinct(g) && |ps| == |xs|
    requires AllShaped(s, Buffers(g)) && Remembers(g, ps, xs, s)
    ensures Step(g, s, p, x).0 == Next(g, ps, xs, p, x)
    ensures Remembers(g, ps + [p], xs + [x], Step(g, s, p, x).1)
    decreases g, 0
  {
    var a, b := g.a, g.b;
    Halves(s, a, b);
    StepFollowsRun(a, ps, xs, s, p, x);
    var ys, y := Run(a, ps, xs), Next(a, ps, xs, p, x);
    RunGrows(a, ps, xs, p, x);
    assert Folds(ys + [y], NIn(b)) == Folds(ys, NIn(b)) + [Fold(y, NIn(b))];
    RightStep(a, b, ps, xs, Folds(ys, NIn(b)), s, p, x, Fold(y, NIn(b)));
  }

  /** The right operand's turn: it has seen ys, the left operand has just ticked on x, and z arrives. */
  lemma {:induction false} RightStep(a: Graph, b: Graph, ps: seq<Params>, xs: seq<Frame>, zs: seq<Frame>, s: Store, p: Params, x: Frame, z: Frame)
    requires WellFormed(a) && BuffersDistinct(a) && FeedbackDistinct(a)
    requires WellFormed(b) && BuffersDistinct(b) && FeedbackDistinct(b)
    requires FeedbackIds(a) !! FeedbackIds(b) && Buffers(a).Keys !! Buffers(b).Keys
    requires |ps| == |xs| == |zs| && AllShaped(s, Buffers(a)) && AllShaped(s, Buffers(b))
    requires Remembers(b, ps, zs, s)
    requires Remembers(a, ps + [p], xs + [x], Step(a, s, p, x).1)
    ensures var t := Step(a, s, p, x).1;
      && AllShaped(t, Buffers(b))
      && Step(b, t, p, z).0 == Next(b, ps, zs, p, z)
      && Remembers(b, ps + [p], zs + [z], Step(b, t, p, z).1)
      && Remembers(a, ps + [p], xs + [x], Step(b, t, p, z).1)
    decreases b, 2
  {
    hide Step, Remembers, WellFormed, BuffersDistinct, FeedbackDistinct, FeedbackIds, Buffers, Run, Next, SameOutside, AllShaped;
    var t := Step(a, s, p, x).1;
    ShapedFrame(s, t, FeedbackIds(a), Buffers(a).Keys, Buffers(b));
    RemembersFrame(b, ps, zs, s, t, FeedbackIds(a), Buffers(a).Keys);
    StepFollowsRun(b, ps, zs, t, p, z);
    RemembersFrame(a, ps + [p], xs + [x], t, Step(b, t, p, z).1, FeedbackIds(b), Buffers(b).Keys);
  }

  lemma {:induction false} RecFollows(g: Graph, ps: seq<Params>, xs: seq<Frame>, s: Store, p: Params, x: Frame)
    requires g.Rec? && WellFormed(g) && BuffersDistinct(g) && FeedbackDistinct(g) && |ps| == |xs|
    requires AllShaped(s, Buffers(g)) && Remembers(g, ps, xs, s)
    ensures Step(g, s, p, x).0 == Next(g, ps, xs, p, x)
    ensures Remembers(g, ps + [p], xs + [x], Step(g, s, p, x).1)
    decreases g, 0
  {
    var a, b, id := g.a, g.b, g.id;
    var ext, m := NIn(a) - NOut(b), NOut(b);
    var zs, z := BodyInputs(g, ps, xs), Pad(x, ext) + Held(g, ps, xs);
    Halves(s, a, b);
    StepFollowsRun(a, ps, zs, s, p, z);
    var ys, y := Run(g, ps, xs), Next(a, ps, zs, p, z);
    LoopGrows(g, ps, xs, p, x, z, y);
    RightStep(a, b, ps, zs, ys, s, p, z, y);
    var t := Step(b, Step(a, s, p, z).1, p, y).1;
    WriteBack(g, ps + [p], zs + [z], ys + [y], t, Next(b, ps, ys, p, y));
  }

  /** Storing the new feedback frame disturbs neither operand and can be read back. */
  lemma WriteBack(g: Graph, ps: seq<Params>, zs: seq<Frame>, ys: seq<Frame>, t: Store, f: Frame)
    requires g.Rec? && WellFormed(g) && FeedbackDistinct(g) && |ps| == |zs| == |ys| && |f| == NOut(g.b)
    requires Remembers(g.a, ps, zs, t) && Remembers(g.b, ps, ys, t)
    ensures var u := WriteFeedback(t, g.id, f, NOut(g.b));
      Remembers(g.a, ps, zs, u) && Remembers(g.b, ps, ys, u) && ReadFeedback(u, g.id, NOut(g.b)) == f
  {
    assert FeedbackIds(g.a) !! IdRange(g.id, NOut(g.b)) && FeedbackIds(g.b) !! IdRange(g.id, NOut(g.b));
    hide Remembers, NOut, FeedbackIds, Buffers, WellFormed;
    var m := NOut(g.b);
    var u := WriteFeedback(t, g.id, f, m);
    assert SameOutside(t, u, IdRange(g.id, m), {});
    RemembersFrame(g.a, ps, zs, t, u, IdRange(g.id, m), {});
    RemembersFrame(g.b, ps, ys, t, u, IdRange(g.id, m), {});
    assert ReadFeedback(u, g.id, m) == f;
  }

  /** The last feedback frame is not used yet, and each input frame meets the one before it. */
  lemma LoopInGrows(xs: seq<Frame>, x: Frame, fs: seq<Frame>, f: Frame, ext: nat, m: nat)
    requires |fs| == |xs| && |f| == m && forall t :: 0 <= t < |fs| ==> |fs[t]| == m
    ensures LoopIn(xs + [x], fs, ext, m) ==
            LoopIn(xs, fs, ext, m) + [Pad(x, ext) + if xs == [] then Zeros(m) else fs[|xs| - 1]]
    ensures LoopIn(xs + [x], fs + [f], ext, m) == LoopIn(xs + [x], fs, ext, m)
  {
  }

  /** A loop grown by one frame outputs what its body does on the held feedback. */
  lemma LoopRunGrows(g: Graph, ps: seq<Params>, xs: seq<Frame>, p: Params, x: Frame, z: Frame)
    requires g.Rec? && WellFormed(g) && |ps| == |xs|
    requires z == Pad(x, NIn(g.a) - NOut(g.b)) + Held(g, ps, xs)
    ensures Run(g, ps + [p], xs + [x]) == Run(g, ps, xs) + [Next(g.a, ps, BodyInputs(g, ps, xs), p, z)]
  {
    assert WellFormed(g.a) && WellFormed(g.b) && NOut(g.b) <= NIn(g.a);
    hide Run, NOut, NIn, WellFormed, LoopIn, Pad;
    var ps', xs' := ps + [p], xs + [x];
    assert ps'[..|ps|] == ps && xs'[..|xs|] == xs;
    var fs := Run(g.b, ps, Run(g, ps, xs));
    LoopInGrows(xs, x, fs, Zeros(NOut(g.b)), NIn(g.a) - NOut(g.b), NOut(g.b));
    RecUnfold(g, ps', xs', fs);
    RunGrows(g, ps, xs, p, x);
  }

  /** A loop grown by one frame: its body sees the held feedback, and holds the next one. */
  lemma LoopGrows(g: Graph, ps: seq<Params>, xs: seq<Frame>, p: Params, x: Frame, z: Frame, y: Frame)
    requires g.Rec? && WellFormed(g) && |ps| == |xs|
    requires z == Pad(x, NIn(g.a) - NOut(g.b)) + Held(g, ps, xs)
    requires y == Next(g.a, ps, BodyInputs(g, ps, xs), p, z)
    ensures Run(g, ps + [p], xs + [x]) == Run(g, ps, xs) + [y]
    ensures BodyInputs(g, ps + [p], xs + [x]) == BodyInputs(g, ps, xs) + [z]
    ensures Held(g, ps + [p], xs + [x]) == Next(g.b, ps, Run(g, ps, xs), p, y)
  {
    LoopRunGrows(g, ps, xs, p, x, z);
    assert WellFormed(g.b) && NOut(g.b) <= NIn(g.a);
    hide Run, NOut, NIn, WellFormed, LoopIn, Pad;
    var ys := Run(g, ps, xs);
    RunGrows(g.b, ps, ys, p, y);
    LoopInGrows(xs, x, Run(g.b, ps, ys), Next(g.b, ps, ys, p, y), NIn(g.a) - NOut(g.b), NOut(g.b));
  }
}
