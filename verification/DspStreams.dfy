/**
 The reference meaning of a graph: a function from input streams to output
 streams that mentions no state, no ids and no buffers.

 A stream prefix is a sequence of frames, one per sample period, and `ps` gives
 the user-interface parameters in force at each of them.
 */
module Streams {
  import opened Samples
  import opened Graphs

  function Take(x: Frame, n: nat): Frame { x[..Lesser(n, |x|)] }

  function Drop(x: Frame, n: nat): Frame { x[Lesser(n, |x|)..] }

  function Takes(xs: seq<Frame>, n: nat): (ys: seq<Frame>)
    ensures |ys| == |xs|
  {
    seq(|xs|, t requires 0 <= t < |xs| => Take(xs[t], n))
  }

  function Drops(xs: seq<Frame>, n: nat): (ys: seq<Frame>)
    ensures |ys| == |xs|
  {
    seq(|xs|, t requires 0 <= t < |xs| => Drop(xs[t], n))
  }

  function Zip(xs: seq<Frame>, ys: seq<Frame>): (zs: seq<Frame>)
    requires |xs| == |ys|
    ensures |zs| == |xs|
  {
    seq(|xs|, t requires 0 <= t < |xs| => xs[t] + ys[t])
  }

  /** Fan-out: input i of the right side is output i mod n of the left side. */
  function Fan(y: Frame, n: nat): (z: Frame)
    requires n > 0 ==> |y| > 0
    ensures |z| == n
  {
    seq(n, i requires 0 <= i < n => y[i % |y|])
  }

  function Fans(ys: seq<Frame>, n: nat): (zs: seq<Frame>)
    requires n > 0 ==> forall t :: 0 <= t < |ys| ==> |ys[t]| > 0
    ensures |zs| == |ys| && forall t :: 0 <= t < |zs| ==> |zs[t]| == n
  {
    seq(|ys|, t requires 0 <= t < |ys| => Fan(ys[t], n))
  }

  /** The sum of the first k channels whose index is j modulo n, added left to right from zero. */
  function StridedSum(y: Frame, n: nat, j: nat, k: nat): Sample
    requires n > 0 && k <= |y|
  {
    if k == 0 then ZERO
    else if (k - 1) % n == j then FLOAT.add(StridedSum(y, n, j, k - 1), y[k - 1])
    else StridedSum(y, n, j, k - 1)
  }

  function Fold(y: Frame, n: nat): (z: Frame)
    requires |y| > 0 ==> n > 0
    ensures |z| == n
  {
    if n == 0 then [] else seq(n, j requires 0 <= j < n => StridedSum(y, n, j, |y|))
  }

  function Folds(ys: seq<Frame>, n: nat): (zs: seq<Frame>)
    requires n == 0 ==> forall t :: 0 <= t < |ys| ==> |ys[t]| == 0
    ensures |zs| == |ys| && forall t :: 0 <= t < |zs| ==> |zs[t]| == n
  {
    seq(|ys|, t requires 0 <= t < |ys| => Fold(ys[t], n))
  }

  /** External inputs padded with zeros to width n. */
  function Pad(x: Frame, n: nat): (z: Frame)
    ensures |z| == n
  {
    seq(n, i requires 0 <= i < n => At(x, i))
  }

  /** The loop body's input: `ext` external channels, then the previous feedback frame. */
  function LoopIn(xs: seq<Frame>, fs: seq<Frame>, ext: nat, n: nat): (zs: seq<Frame>)
    requires |xs| <= |fs| + 1
    requires forall t :: 0 <= t < |fs| ==> |fs[t]| == n
    ensures |zs| == |xs| && forall t :: 0 <= t < |zs| ==> |zs[t]| == ext + n
  {
    seq(|xs|, t requires 0 <= t < |xs| =>
      Pad(xs[t], ext) + if t == 0 then Zeros(n) else fs[t - 1])
  }

  /** A sample of channel 0 from d periods before the last frame, or zero before the start. */
  function Delayed(h: seq<Frame>, d: nat): Sample {
    if d < |h| then At(h[|h| - 1 - d], 0) else ZERO
  }

  /** The requested delay, in samples, of a variable delay line. */
  function DelayArg(x: Frame): int {
    if |x| > 1 then FLOAT.toInt(x[1]) else 0
  }

  function TableIndex(x: Frame, c: nat, len: int): int {
    if |x| > c then Clamp(FLOAT.toInt(x[c]), 0, len - 1) else 0
  }

  /** The value most recently written at index r, or zero. */
  function LastWrite(xs: seq<Frame>, len: int, r: int): Sample {
    if xs == [] then ZERO
    else if TableIndex(xs[|xs| - 1], 0, len) == r then At(xs[|xs| - 1], 1)
    else LastWrite(xs[..|xs| - 1], len, r)
  }

  function Param(p: Params, name: string, init: Sample): Sample {
    if name in p then p[name] else init
  }

  predicate HasMemory(l: Leaf) {
    l.Mem? || l.VarDelay? || l.FixedDelay? || l.RwTable?
  }

  /** The output of a leaf that keeps nothing between samples. */
  function Instant(l: Leaf, p: Params, x: Frame): (y: Frame)
    requires LeafWellFormed(l) && !HasMemory(l)
    ensures |y| == LeafOuts(l)
  {
    match l
    case Const(v) => [v]
    case Wire => [At(x, 0)]
    case Cut => []
    case Binary(op) => [Apply2(op, At(x, 0), At(x, 1))]
    case Unary(op) => [Apply1(op, At(x, 0))]
    case Select2 => [if FLOAT.nonZero(At(x, 0)) then At(x, 2) else At(x, 1)]
    case ReadTable(table) => [table[TableIndex(x, 0, |table|)]]
    case Slider(name, init, lo, hi) => [FLOAT.clamp(Param(p, name, init), lo, hi)]
    case Button(name) => [Param(p, name, ZERO)]
    case Checkbox(name) => [if FLOAT.nonZero(Param(p, name, ZERO)) then FLOAT.one else ZERO]
  }

  /** What a leaf outputs after the input frames h, the last of them arriving now. */
  function LeafOut(l: Leaf, p: Params, h: seq<Frame>): (y: Frame)
    requires LeafWellFormed(l) && h != []
    ensures |y| == LeafOuts(l)
  {
    var x := h[|h| - 1];
    if l.Mem? then [Delayed(h, 1)]
    else if l.VarDelay? then [Delayed(h, Clamp(DelayArg(x), 0, l.len - 1))]
    else if l.FixedDelay? then [Delayed(h, l.len - 1)]
    else if l.RwTable? then [LastWrite(h, l.len, TableIndex(x, 2, l.len))]
    else Instant(l, p, x)
  }

  /** The output of a graph over a whole stream prefix. */
  function Run(g: Graph, ps: seq<Params>, xs: seq<Frame>): (ys: seq<Frame>)
    requires WellFormed(g) && |ps| == |xs|
    ensures |ys| == |xs|
    ensures forall t :: 0 <= t < |ys| ==> |ys[t]| == NOut(g)
    decreases g, |xs|
  {
    match g
    case Seq(a, b) => Run(b, ps, Run(a, ps, xs))
    case Par(a, b) => Zip(Run(a, ps, Takes(xs, NIn(a))), Run(b, ps, Drops(xs, NIn(a))))
    case Split(a, b) => Run(b, ps, Fans(Run(a, ps, xs), NIn(b)))
    case Merge(a, b) => Run(b, ps, Folds(Run(a, ps, xs), NIn(b)))
    case Rec(a, b, _) =>
      if xs == [] then []
      else
        var before := ps[..|ps| - 1];
        var fs := Run(b, before, Run(g, before, xs[..|xs| - 1]));
        Run(a, ps, LoopIn(xs, fs, NIn(a) - NOut(b), NOut(b)))
    case Group(body) => Run(body, ps, xs)
    case Prim(l) => seq(|xs|, t requires 0 <= t < |xs| => LeafOut(l, ps[t], xs[..t + 1]))
  }

  // ---- Causality: the past of the output depends only on the past of the input.

  lemma {:induction false} Causal(g: Graph, ps: seq<Params>, xs: seq<Frame>, k: nat)
    requires WellFormed(g) && |ps| == |xs| && k <= |xs|
    ensures Run(g, ps[..k], xs[..k]) == Run(g, ps, xs)[..k]
    decreases g, |xs|, 1
  {
    match g
    case Seq(a, b) =>
      Causal(a, ps, xs, k);
      Causal(b, ps, Run(a, ps, xs), k);
    case Par(a, b) =>
      Causal(a, ps, Takes(xs, NIn(a)), k);
      Causal(b, ps, Drops(xs, NIn(a)), k);
      assert Takes(xs[..k], NIn(a)) == Takes(xs, NIn(a))[..k];
      assert Drops(xs[..k], NIn(a)) == Drops(xs, NIn(a))[..k];
    case Split(a, b) =>
      Causal(a, ps, xs, k);
      var ys := Run(a, ps, xs);
      assert Fans(ys[..k], NIn(b)) == Fans(ys, NIn(b))[..k];
      Causal(b, ps, Fans(ys, NIn(b)), k);
    case Merge(a, b) =>
      Causal(a, ps, xs, k);
      var ys := Run(a, ps, xs);
      assert Folds(ys[..k], NIn(b)) == Folds(ys, NIn(b))[..k];
      Causal(b, ps, Folds(ys, NIn(b)), k);
    case Rec(a, b, _) => CausalRec(g, ps, xs, k);
    case Group(body) => Causal(body, ps, xs, k);
    case Prim(_) => Prefixes(xs, k);
  }

  lemma Prefixes(xs: seq<Frame>, k: nat)
    requires k <= |xs|
    ensures forall t {:trigger xs[..t + 1]} :: 0 <= t < k ==> xs[..k][..t + 1] == xs[..t + 1]
  {
  }

  lemma {:induction false} CausalRec(g: Graph, ps: seq<Params>, xs: seq<Frame>, k: nat)
    requires g.Rec? && WellFormed(g) && |ps| == |xs| && k <= |xs|
    ensures Run(g, ps[..k], xs[..k]) == Run(g, ps, xs)[..k]
    decreases g, |xs|, 0
  {
    hide Run, WellFormed, NIn, NOut, LoopIn;
    RecShape(g);
    if k == |xs| {
      assert ps[..k] == ps && xs[..k] == xs;
    } else if k == 0 {
      NoFrames(g, ps[..0], xs[..0]);
    } else {
      var n := |xs| - 1;
      var ext, m := NIn(g.a) - NOut(g.b), NOut(g.b);
      var ys := Run(g, ps[..n], xs[..n]);
      var fs := Run(g.b, ps[..n], ys);
      Prefixed(ps, n, k - 1);
      Prefixed(xs, n, k - 1);
      Prefixed(ps, k, k - 1);
      Prefixed(xs, k, k - 1);
      Causal(g, ps[..n], xs[..n], k - 1);
      Causal(g.b, ps[..n], ys, k - 1);
      Causal(g.a, ps, LoopIn(xs, fs, ext, m), k);
      RecUnfold(g, ps, xs, fs);
      RecUnfold(g, ps[..k], xs[..k], fs[..k - 1]);
      LoopInPrefix(xs, fs, ext, m, k);
    }
  }

  lemma RecShape(g: Graph)
    requires g.Rec? && WellFormed(g)
    ensures WellFormed(g.a) && WellFormed(g.b) && NOut(g.b) <= NIn(g.a) && NOut(g) == NOut(g.a)
  {
  }

  lemma NoFrames(g: Graph, ps: seq<Params>, xs: seq<Frame>)
    requires WellFormed(g) && ps == [] && xs == []
    ensures Run(g, ps, xs) == []
  {
    hide WellFormed;
  }

  lemma Prefixed<T>(s: seq<T>, n: nat, k: nat)
    requires k <= n <= |s|
    ensures s[..n][..k] == s[..k]
  {
  }

  lemma LoopInPrefix(xs: seq<Frame>, fs: seq<Frame>, ext: nat, m: nat, k: nat)
    requires 0 < k <= |xs| && |fs| == |xs| - 1 && forall t :: 0 <= t < |fs| ==> |fs[t]| == m
    ensures LoopIn(xs[..k], fs[..k - 1], ext, m) == LoopIn(xs, fs, ext, m)[..k]
  {
    hide Pad;
  }

  /** The definition of Run on a non-empty stream through Rec. */
  lemma RecUnfold(g: Graph, ps: seq<Params>, xs: seq<Frame>, fs: seq<Frame>)
    requires g.Rec? && WellFormed(g) && |ps| == |xs| > 0
    requires fs == Run(g.b, ps[..|ps| - 1], Run(g, ps[..|ps| - 1], xs[..|xs| - 1]))
    ensures Run(g, ps, xs) == Run(g.a, ps, LoopIn(xs, fs, NIn(g.a) - NOut(g.b), NOut(g.b)))
  {
  }

  lemma SeqRun(g: Graph, ps: seq<Params>, xs: seq<Frame>)
    requires g.Seq? && WellFormed(g) && WellFormed(g.a) && WellFormed(g.b) && |ps| == |xs|
    ensures Run(g, ps, xs) == Run(g.b, ps, Run(g.a, ps, xs))
  {
    hide WellFormed, NIn, NOut, Takes, Drops, Zip, Fans, Folds, LoopIn, LeafOut;
    match g
    case Seq(a, b) => assert Run(Seq(a, b), ps, xs) == Run(b, ps, Run(a, ps, xs));
  }

  lemma ParRun(g: Graph, ps: seq<Params>, xs: seq<Frame>)
    requires g.Par? && WellFormed(g) && WellFormed(g.a) && WellFormed(g.b) && |ps| == |xs|
    ensures Run(g, ps, xs) == Zip(Run(g.a, ps, Takes(xs, NIn(g.a))), Run(g.b, ps, Drops(xs, NIn(g.a))))
  {
    hide WellFormed, NIn, NOut, Takes, Drops, Zip, Fans, Folds, LoopIn, LeafOut;
    match g
    case Par(a, b) => assert Run(Par(a, b), ps, xs) == Zip(Run(a, ps, Takes(xs, NIn(a))), Run(b, ps, Drops(xs, NIn(a))));
  }

  lemma SplitRun(g: Graph, ps: seq<Params>, xs: seq<Frame>)
    requires g.Split? && WellFormed(g) && WellFormed(g.a) && WellFormed(g.b) && |ps| == |xs|
    requires NIn(g.b) > 0 ==> NOut(g.a) > 0
    ensures Run(g, ps, xs) == Run(g.b, ps, Fans(Run(g.a, ps, xs), NIn(g.b)))
  {
    hide WellFormed, NIn, NOut, Fans, Folds, Takes, Drops, Zip, LoopIn, LeafOut;
    match g
    case Split(a, b) => assert Run(Split(a, b), ps, xs) == Run(b, ps, Fans(Run(a, ps, xs), NIn(b)));
  }

  lemma MergeRun(g: Graph, ps: seq<Params>, xs: seq<Frame>)
    requires g.Merge? && WellFormed(g) && WellFormed(g.a) && WellFormed(g.b) && |ps| == |xs|
    requires NOut(g.a) > 0 ==> NIn(g.b) > 0
    ensures Run(g, ps, xs) == Run(g.b, ps, Folds(Run(g.a, ps, xs), NIn(g.b)))
  {
    hide WellFormed, NIn, NOut, Fans, Folds, Takes, Drops, Zip, LoopIn, LeafOut;
    match g
    case Merge(a, b) => assert Run(Merge(a, b), ps, xs) == Run(b, ps, Folds(Run(a, ps, xs), NIn(b)));
  }

  lemma PrimRun(l: Leaf, ps: seq<Params>, xs: seq<Frame>, t: nat)
    requires WellFormed(Prim(l)) && LeafWellFormed(l) && |ps| == |xs| && t < |xs|
    ensures Run(Prim(l), ps, xs)[t] == LeafOut(l, ps[t], xs[..t + 1])
  {
    hide WellFormed, LeafWellFormed, LeafOut, NIn, NOut, Zip, Takes, Drops, Fans, Folds, LoopIn;
  }

  // ---- The feedback equations of Rec, and that they determine it.

  /** y_t = A(x_t, f_{t-1}) with f_t = B(y_t) and f_{-1} = 0, over a whole prefix. */
  ghost predicate SolvesLoop(a: Graph, b: Graph, ps: seq<Params>, xs: seq<Frame>, ys: seq<Frame>)
    requires WellFormed(a) && WellFormed(b) && NOut(b) <= NIn(a) && |ps| == |xs| == |ys|
  {
    ys == Run(a, ps, LoopIn(xs, Run(b, ps, ys), NIn(a) - NOut(b), NOut(b)))
  }

  lemma {:induction false} RecSolvesLoop(a: Graph, b: Graph, id: int, ps: seq<Params>, xs: seq<Frame>)
    requires WellFormed(Rec(a, b, id)) && |ps| == |xs|
    ensures SolvesLoop(a, b, ps, xs, Run(Rec(a, b, id), ps, xs))
  {
    hide Run, WellFormed, NIn, NOut, LoopIn;
    var g := Rec(a, b, id);
    RecShape(g);
    var ext, m := NIn(a) - NOut(b), NOut(b);
    var ys := Run(g, ps, xs);
    if xs == [] {
      NoFrames(a, ps, LoopIn(xs, Run(b, ps, ys), ext, m));
    } else {
      var n := |xs| - 1;
      Causal(g, ps, xs, n);
      Causal(b, ps, ys, n);
      RecUnfold(g, ps, xs, Run(b, ps, ys)[..n]);
      LoopInUnused(xs, Run(b, ps, ys), ext, m);
    }
  }

  /** The last feedback frame has not been used yet. */
  lemma LoopInUnused(xs: seq<Frame>, fs: seq<Frame>, ext: nat, m: nat)
    requires |fs| == |xs| > 0 && forall t :: 0 <= t < |fs| ==> |fs[t]| == m
    ensures LoopIn(xs, fs, ext, m) == LoopIn(xs, fs[..|xs| - 1], ext, m)
  {
    hide Pad;
  }

  lemma SolvesIs(a: Graph, b: Graph, ps: seq<Params>, xs: seq<Frame>, ys: seq<Frame>)
    requires WellFormed(a) && WellFormed(b) && NOut(b) <= NIn(a) && |ps| == |xs| == |ys| && SolvesLoop(a, b, ps, xs, ys)
    ensures ys == Run(a, ps, LoopIn(xs, Run(b, ps, ys), NIn(a) - NOut(b), NOut(b)))
  {
    hide Run, WellFormed, NIn, NOut, LoopIn;
  }

  lemma {:induction false} LoopHasOneSolution(a: Graph, b: Graph, id: int, ps: seq<Params>, xs: seq<Frame>, ys: seq<Frame>)
    requires WellFormed(Rec(a, b, id)) && |ps| == |xs| == |ys|
    requires SolvesLoop(a, b, ps, xs, ys)
    ensures ys == Run(Rec(a, b, id), ps, xs)
    decreases |xs|
  {
    hide Run, WellFormed, NIn, NOut, LoopIn, SolvesLoop;
    var n := |xs| - 1;
    RecShape(Rec(a, b, id));
    SolvesIs(a, b, ps, xs, ys);
    if n >= 0 {
      var ext, m := NIn(a) - NOut(b), NOut(b);
      var fs := Run(b, ps, ys);
      SolutionPrefix(a, b, ps, xs, ys, n);
      LoopHasOneSolution(a, b, id, ps[..n], xs[..n], ys[..n]);
      Causal(b, ps, ys, n);
      LoopInUnused(xs, fs, ext, m);
      RecUnfold(Rec(a, b, id), ps, xs, fs[..n]);
    }
  }

  lemma SolutionPrefix(a: Graph, b: Graph, ps: seq<Params>, xs: seq<Frame>, ys: seq<Frame>, n: nat)
    requires WellFormed(a) && WellFormed(b) && NOut(b) <= NIn(a) && |ps| == |xs| == |ys| && n <= |xs|
    requires SolvesLoop(a, b, ps, xs, ys)
    ensures SolvesLoop(a, b, ps[..n], xs[..n], ys[..n])
  {
    hide Run, WellFormed, NIn, NOut;
    var ext, m := NIn(a) - NOut(b), NOut(b);
    var fs := Run(b, ps, ys);
    Causal(a, ps, LoopIn(xs, fs, ext, m), n);
    Causal(b, ps, ys, n);
    assert LoopIn(xs[..n], fs[..n], ext, m) == LoopIn(xs, fs, ext, m)[..n];
  }
}
