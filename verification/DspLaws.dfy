/**
 Algebraic laws of the combinators, as equalities of stream functions, and their
 transfer to stateful graphs whose nodes carry different state ids.
 */
module Laws {
  import opened Samples
  import opened Graphs
  import opened Streams
  import opened Steps
  import opened Runs

  // ---- Ids never matter to the meaning.

  /** The same graph up to the numbering of its state. */
  predicate SameShape(g: Graph, h: Graph) {
    match (g, h)
    case (Prim(l), Prim(k)) =>
      l == k || (l.Mem? && k.Mem?) || (l.VarDelay? && k.VarDelay? && l.len == k.len) ||
      (l.FixedDelay? && k.FixedDelay? && l.len == k.len) || (l.RwTable? && k.RwTable? && l.len == k.len)
    case (Seq(a, b), Seq(c, d)) => SameShape(a, c) && SameShape(b, d)
    case (Par(a, b), Par(c, d)) => SameShape(a, c) && SameShape(b, d)
    case (Split(a, b), Split(c, d)) => SameShape(a, c) && SameShape(b, d)
    case (Merge(a, b), Merge(c, d)) => SameShape(a, c) && SameShape(b, d)
    case (Rec(a, b, _), Rec(c, d, _)) => SameShape(a, c) && SameShape(b, d)
    case (Group(a), Group(c)) => SameShape(a, c)
    case _ => false
  }

  lemma {:induction false} SameShapeArity(g: Graph, h: Graph)
    requires SameShape(g, h)
    ensures NIn(g) == NIn(h) && NOut(g) == NOut(h) && (WellFormed(g) <==> WellFormed(h))
    decreases g
  {
    if g.Group? {
      SameShapeArity(g.body, h.body);
    } else if !g.Prim? {
      SameShapeArity(g.a, h.a);
      SameShapeArity(g.b, h.b);
    }
  }

  lemma {:induction false} RunIgnoresIds(g: Graph, h: Graph, ps: seq<Params>, xs: seq<Frame>)
    requires SameShape(g, h) && WellFormed(g) && WellFormed(h) && |ps| == |xs|
    ensures Run(g, ps, xs) == Run(h, ps, xs)
    decreases g, |xs|, 1
  {
    if g.Group? {
      RunIgnoresIds(g.body, h.body, ps, xs);
    } else if !g.Prim? {
      SameShapeArity(g.a, h.a);
      SameShapeArity(g.b, h.b);
      match g
      case Seq(a, b) =>
        RunIgnoresIds(a, h.a, ps, xs);
        RunIgnoresIds(b, h.b, ps, Run(a, ps, xs));
      case Par(a, b) =>
        RunIgnoresIds(a, h.a, ps, Takes(xs, NIn(a)));
        RunIgnoresIds(b, h.b, ps, Drops(xs, NIn(a)));
      case Split(a, b) =>
        RunIgnoresIds(a, h.a, ps, xs);
        RunIgnoresIds(b, h.b, ps, Fans(Run(a, ps, xs), NIn(b)));
      case Merge(a, b) =>
        RunIgnoresIds(a, h.a, ps, xs);
        RunIgnoresIds(b, h.b, ps, Folds(Run(a, ps, xs), NIn(b)));
      case Rec(_, _, _) =>
        if xs != [] { LoopIgnoresIds(g, h, ps, xs); }
    }
  }

  lemma {:induction false} LoopIgnoresIds(g: Graph, h: Graph, ps: seq<Params>, xs: seq<Frame>)
    requires g.Rec? && SameShape(g, h) && WellFormed(g) && WellFormed(h) && |ps| == |xs| > 0
    requires NIn(g.a) == NIn(h.a) && NOut(g.b) == NOut(h.b)
    ensures Run(g, ps, xs) == Run(h, ps, xs)
    decreases g, |xs|, 0
  {
    hide Run, NIn, NOut, LoopIn;
    var n := |xs| - 1;
    RunIgnoresIds(g, h, ps[..n], xs[..n]);
    var ys := Run(g, ps[..n], xs[..n]);
    RunIgnoresIds(g.b, h.b, ps[..n], ys);
    var fs := Run(g.b, ps[..n], ys);
    RunIgnoresIds(g.a, h.a, ps, LoopIn(xs, fs, NIn(g.a) - NOut(g.b), NOut(g.b)));
    RecUnfold(g, ps, xs, fs);
    RecUnfold(h, ps, xs, fs);
  }

  /** Graphs with one meaning, each running on a state it has never touched, output the same samples. */
  lemma {:induction false} FreshRunsAgree(g: Graph, h: Graph, s: Store, t: Store, ps: seq<Params>, xs: seq<Frame>)
    requires WellFormed(g) && BuffersDistinct(g) && FeedbackDistinct(g) && Fresh(g, s)
    requires WellFormed(h) && BuffersDistinct(h) && FeedbackDistinct(h) && Fresh(h, t)
    requires |ps| == |xs| && Run(g, ps, xs) == Run(h, ps, xs)
    ensures AllShaped(s, Buffers(g)) && AllShaped(t, Buffers(h))
    ensures Iterate(g, s, ps, xs).0 == Iterate(h, t, ps, xs).0
  {
    hide Run, Iterate, WellFormed, BuffersDistinct, FeedbackDistinct, Fresh, Buffers;
    RunIsDenotation(g, s, ps, xs);
    RunIsDenotation(h, t, ps, xs);
  }

  // ---- Seq and Par.

  lemma {:induction false} SeqAssociative(a: Graph, b: Graph, c: Graph, ps: seq<Params>, xs: seq<Frame>)
    requires WellFormed(a) && WellFormed(b) && WellFormed(c) && |ps| == |xs|
    ensures WellFormed(Seq(Seq(a, b), c)) && WellFormed(Seq(a, Seq(b, c)))
    ensures Run(Seq(Seq(a, b), c), ps, xs) == Run(Seq(a, Seq(b, c)), ps, xs)
  {
    assert WellFormed(Seq(a, b)) && WellFormed(Seq(b, c));
  }

  lemma ParShape(g: Graph)
    requires g.Par? && WellFormed(g.a) && WellFormed(g.b)
    ensures WellFormed(g) && NIn(g) == NIn(g.a) + NIn(g.b)
  {
  }

  /** The three-way cut of a stream, made left first or right first. */
  lemma CutTwice(xs: seq<Frame>, m: nat, n: nat)
    ensures Takes(Takes(xs, m + n), m) == Takes(xs, m)
    ensures Drops(Takes(xs, m + n), m) == Takes(Drops(xs, m), n)
    ensures Drops(Drops(xs, m), n) == Drops(xs, m + n)
  {
    forall t: nat | t < |xs|
      ensures Takes(Takes(xs, m + n), m)[t] == Takes(xs, m)[t]
      ensures Drops(Takes(xs, m + n), m)[t] == Takes(Drops(xs, m), n)[t]
      ensures Drops(Drops(xs, m), n)[t] == Drops(xs, m + n)[t]
    {
      var x := xs[t];
      assert Take(Take(x, m + n), m) == Take(x, m);
      assert Drop(Take(x, m + n), m) == Take(Drop(x, m), n);
      assert Drop(Drop(x, m), n) == Drop(x, m + n);
    }
  }

  lemma ZipAssociative(xs: seq<Frame>, ys: seq<Frame>, zs: seq<Frame>)
    requires |xs| == |ys| == |zs|
    ensures Zip(Zip(xs, ys), zs) == Zip(xs, Zip(ys, zs))
  {
    forall t: nat | t < |xs| ensures Zip(Zip(xs, ys), zs)[t] == Zip(xs, Zip(ys, zs))[t] {
      assert (xs[t] + ys[t]) + zs[t] == xs[t] + (ys[t] + zs[t]);
    }
  }

  lemma {:induction false} ParAssociative(a: Graph, b: Graph, c: Graph, ps: seq<Params>, xs: seq<Frame>)
    requires WellFormed(a) && WellFormed(b) && WellFormed(c) && |ps| == |xs|
    ensures WellFormed(Par(Par(a, b), c)) && WellFormed(Par(a, Par(b, c)))
    ensures Run(Par(Par(a, b), c), ps, xs) == Run(Par(a, Par(b, c)), ps, xs)
  {
    hide Run, WellFormed, NIn, NOut, Takes, Drops, Zip;
    var m, n := NIn(a), NIn(b);
    CutTwice(xs, m, n);
    ParShape(Par(a, b));
    ParRun(Par(a, b), ps, Takes(xs, m + n));
    ParShape(Par(Par(a, b), c));
    ParRun(Par(Par(a, b), c), ps, xs);
    ParShape(Par(b, c));
    ParRun(Par(b, c), ps, Drops(xs, m));
    ParShape(Par(a, Par(b, c)));
    ParRun(Par(a, Par(b, c)), ps, xs);
    ZipAssociative(Run(a, ps, Takes(xs, m)), Run(b, ps, Takes(Drops(xs, m), n)), Run(c, ps, Drops(xs, m + n)));
  }

  lemma UnzipZip(xs: seq<Frame>, ys: seq<Frame>, m: nat)
    requires |xs| == |ys| && forall t :: 0 <= t < |xs| ==> |xs[t]| == m
    ensures Takes(Zip(xs, ys), m) == xs && Drops(Zip(xs, ys), m) == ys
  {
    forall t: nat | t < |xs| ensures Takes(Zip(xs, ys), m)[t] == xs[t] && Drops(Zip(xs, ys), m)[t] == ys[t] {
      assert Take(xs[t] + ys[t], m) == xs[t] && Drop(xs[t] + ys[t], m) == ys[t];
    }
  }

  /** (a, b) : (c, d) is (a : c), (b : d) when a's outputs are exactly c's inputs. */
  lemma {:induction false} Interchange(a: Graph, b: Graph, c: Graph, d: Graph, ps: seq<Params>, xs: seq<Frame>)
    requires WellFormed(a) && WellFormed(b) && WellFormed(c) && WellFormed(d) && |ps| == |xs|
    requires NOut(a) == NIn(c)
    ensures WellFormed(Seq(Par(a, b), Par(c, d))) && WellFormed(Par(Seq(a, c), Seq(b, d)))
    ensures Run(Seq(Par(a, b), Par(c, d)), ps, xs) == Run(Par(Seq(a, c), Seq(b, d)), ps, xs)
  {
    ParShape(Par(a, b));
    ParRun(Par(a, b), ps, xs);
    ParShape(Par(c, d));
    ParRun(Par(c, d), ps, Run(Par(a, b), ps, xs));
    assert WellFormed(Seq(a, c)) && WellFormed(Seq(b, d));
    ParShape(Par(Seq(a, c), Seq(b, d)));
    ParRun(Par(Seq(a, c), Seq(b, d)), ps, xs);
    UnzipZip(Run(a, ps, Takes(xs, NIn(a))), Run(b, ps, Drops(xs, NIn(a))), NIn(c));
  }

  // ---- Delays.

  lemma DelayRun(i: int, m: int, ps: seq<Params>, xs: seq<Frame>)
    requires m >= 1 && |ps| == |xs|
    ensures WellFormed(Prim(FixedDelay(i, m)))
    ensures |Run(Prim(FixedDelay(i, m)), ps, xs)| == |xs|
    ensures forall t: nat :: t < |xs| ==> Run(Prim(FixedDelay(i, m)), ps, xs)[t] == [Delayed(xs[..t + 1], m - 1)]
  {
    hide Delayed;
  }

  lemma DelayedTwice(xs: seq<Frame>, ys: seq<Frame>, a: nat, b: nat, t: nat)
    requires |ys| == |xs| && t < |xs|
    requires forall u: nat :: u < |xs| ==> ys[u] == [Delayed(xs[..u + 1], a)]
    ensures Delayed(ys[..t + 1], b) == Delayed(xs[..t + 1], a + b)
  {
    if b <= t {
      var u := t - b;
      assert ys[..t + 1][u] == ys[u];
    }
  }

  /** A line of length m then one of length n delays by (m - 1) + (n - 1) samples. */
  lemma {:induction false} DelaysAdd(i: int, j: int, k: int, m: int, n: int, ps: seq<Params>, xs: seq<Frame>)
    requires m >= 1 && n >= 1 && |ps| == |xs|
    ensures WellFormed(Prim(FixedDelay(i, m))) && WellFormed(Prim(FixedDelay(j, n)))
    ensures Run(Prim(FixedDelay(j, n)), ps, Run(Prim(FixedDelay(i, m)), ps, xs)) ==
            Run(Prim(FixedDelay(k, m + n - 1)), ps, xs)
  {
    hide Run, WellFormed, Delayed;
    DelayRun(i, m, ps, xs);
    var ys := Run(Prim(FixedDelay(i, m)), ps, xs);
    DelayRun(j, n, ps, ys);
    DelayRun(k, m + n - 1, ps, xs);
    var zs, us := Run(Prim(FixedDelay(j, n)), ps, ys), Run(Prim(FixedDelay(k, m + n - 1)), ps, xs);
    forall t: nat | t < |xs| ensures zs[t] == us[t] {
      DelayedTwice(xs, ys, m - 1, n - 1, t);
    }
  }

  /** A memory is a line of length two. */
  lemma {:induction false} MemIsDelay(i: int, j: int, ps: seq<Params>, xs: seq<Frame>)
    requires |ps| == |xs|
    ensures Run(Prim(Mem(i)), ps, xs) == Run(Prim(FixedDelay(j, 2)), ps, xs)
  {
    var ys, zs := Run(Prim(Mem(i)), ps, xs), Run(Prim(FixedDelay(j, 2)), ps, xs);
    forall t | 0 <= t < |xs| ensures ys[t] == zs[t] {}
  }

  // ---- Fan-out and fan-in.

  lemma FanCopies(xs: seq<Frame>)
    requires forall t :: 0 <= t < |xs| ==> |xs[t]| == 1
    ensures Takes(Fans(xs, 2), 1) == xs && Drops(Fans(xs, 2), 1) == xs
  {
    forall t: nat | t < |xs| ensures Takes(Fans(xs, 2), 1)[t] == xs[t] && Drops(Fans(xs, 2), 1)[t] == xs[t] {
      var z := Fan(xs[t], 2);
      assert z[0] == xs[t][0] && z[1] == xs[t][0];
      assert Take(z, 1) == xs[t] && Drop(z, 1) == xs[t];
    }
  }

  /** A wire split into two one-input graphs feeds both. */
  lemma {:induction false} SplitCopies(a: Graph, b: Graph, ps: seq<Params>, xs: seq<Frame>)
    requires WellFormed(a) && WellFormed(b) && NIn(a) == NIn(b) == 1 && |ps| == |xs|
    requires forall t :: 0 <= t < |xs| ==> |xs[t]| == 1
    ensures WellFormed(Split(Prim(Wire), Par(a, b)))
    ensures Run(Split(Prim(Wire), Par(a, b)), ps, xs) == Zip(Run(a, ps, xs), Run(b, ps, xs))
  {
    var ys := Run(Prim(Wire), ps, xs);
    forall t: nat | t < |xs| ensures ys[t] == xs[t] {
      assert ys[t] == LeafOut(Wire, ps[t], xs[..t + 1]);
    }
    assert ys == xs;
    FanCopies(xs);
    ParShape(Par(a, b));
    ParRun(Par(a, b), ps, Fans(xs, 2));
    SplitRun(Split(Prim(Wire), Par(a, b)), ps, xs);
  }

  /** Two one-output graphs merged into a wire are added, left to right from zero. */
  lemma {:induction false} MergeAdds(a: Graph, b: Graph, ps: seq<Params>, xs: seq<Frame>, t: nat)
    requires WellFormed(a) && WellFormed(b) && NOut(a) == NOut(b) == 1 && |ps| == |xs| && t < |xs|
    ensures WellFormed(Merge(Par(a, b), Prim(Wire)))
    ensures var l, r := Run(a, ps, Takes(xs, NIn(a)))[t], Run(b, ps, Drops(xs, NIn(a)))[t];
      Run(Merge(Par(a, b), Prim(Wire)), ps, xs)[t] == [FLOAT.add(FLOAT.add(ZERO, l[0]), r[0])]
  {
    ParShape(Par(a, b));
    assert WellFormed(Merge(Par(a, b), Prim(Wire))) && NOut(Par(a, b)) == 2;
    hide WellFormed, NIn, NOut, Run, Fold, Folds;
    ParRun(Par(a, b), ps, xs);
    MergedIntoWire(Par(a, b), ps, xs, t);
    TwoFolded(Run(Par(a, b), ps, xs)[t]);
  }

  lemma MergedIntoWire(g: Graph, ps: seq<Params>, xs: seq<Frame>, t: nat)
    requires WellFormed(g) && |ps| == |xs| && t < |xs|
    ensures WellFormed(Merge(g, Prim(Wire)))
    ensures Run(Merge(g, Prim(Wire)), ps, xs)[t] == Fold(Run(g, ps, xs)[t], 1)
  {
    hide Run, Fold, Folds, LeafOut, WellFormed, NIn, NOut;
    MergeWireShape(g);
    MergeRun(Merge(g, Prim(Wire)), ps, xs);
    var zs := Folds(Run(g, ps, xs), 1);
    PrimRun(Wire, ps, zs, t);
    WireOut(ps[t], zs, t);
    FoldsAt(Run(g, ps, xs), t);
  }

  lemma MergeWireShape(g: Graph)
    requires WellFormed(g)
    ensures WellFormed(Merge(g, Prim(Wire))) && WellFormed(Prim(Wire)) && NIn(Prim(Wire)) == 1
  {
  }

  lemma WireOut(p: Params, zs: seq<Frame>, t: nat)
    requires t < |zs| && |zs[t]| == 1
    ensures LeafOut(Wire, p, zs[..t + 1]) == zs[t]
  {
  }

  lemma FoldsAt(ys: seq<Frame>, t: nat)
    requires t < |ys|
    ensures Folds(ys, 1)[t] == Fold(ys[t], 1)
  {
    hide Fold;
  }

  lemma TwoFolded(y: Frame)
    requires |y| == 2
    ensures Fold(y, 1) == [FLOAT.add(FLOAT.add(ZERO, y[0]), y[1])]
  {
    assert StridedSum(y, 1, 0, 0) == ZERO;
    assert StridedSum(y, 1, 0, 1) == FLOAT.add(ZERO, y[0]);
    assert StridedSum(y, 1, 0, 2) == FLOAT.add(FLOAT.add(ZERO, y[0]), y[1]);
  }

  // ---- Tables.

  /** A table index is a channel as an integer, kept within the table. */
  lemma TableIndexIs(x: Frame, c: nat, len: int)
    requires len >= 1
    ensures var d := if c < |x| then FLOAT.toInt(x[c]) else 0;
      TableIndex(x, c, len) == if d < 0 then 0 else if d > len - 1 then len - 1 else d
  {
  }

  /** A constant table gives the sample at its first channel's index. */
  lemma ReadTableGives(table: seq<Sample>, p: Params, h: seq<Frame>)
    requires table != [] && h != []
    ensures 0 <= TableIndex(h[|h| - 1], 0, |table|) < |table|
    ensures LeafOut(ReadTable(table), p, h) == [table[TableIndex(h[|h| - 1], 0, |table|)]]
  {
  }

  /** A written table gives what was written last, now included, at the index that its third channel asks for. */
  lemma {:induction false} RwTableGives(id: int, len: int, p: Params, h: seq<Frame>, w: nat)
    requires len >= 1 && w < |h|
    ensures var r := TableIndex(h[|h| - 1], 2, len);
      && (TableIndex(h[w], 0, len) == r && (forall v :: w < v < |h| ==> TableIndex(h[v], 0, len) != r) ==>
          LeafOut(RwTable(id, len), p, h) == [At(h[w], 1)])
      && ((forall v :: 0 <= v < |h| ==> TableIndex(h[v], 0, len) != r) ==> LeafOut(RwTable(id, len), p, h) == [ZERO])
  {
    hide TableIndex;
    var r := TableIndex(h[|h| - 1], 2, len);
    if TableIndex(h[w], 0, len) == r && forall v :: w < v < |h| ==> TableIndex(h[v], 0, len) != r {
      LastWriteAt(h, len, r, w);
    }
    if forall v :: 0 <= v < |h| ==> TableIndex(h[v], 0, len) != r {
      NoWrite(h, len, r);
    }
  }

  lemma {:induction false} LastWriteAt(h: seq<Frame>, len: int, r: int, w: nat)
    requires w < |h| && TableIndex(h[w], 0, len) == r && forall v :: w < v < |h| ==> TableIndex(h[v], 0, len) != r
    ensures LastWrite(h, len, r) == At(h[w], 1)
    decreases |h|
  {
    hide TableIndex;
    if w < |h| - 1 { LastWriteAt(h[..|h| - 1], len, r, w); }
  }

  lemma {:induction false} NoWrite(h: seq<Frame>, len: int, r: int)
    requires forall v :: 0 <= v < |h| ==> TableIndex(h[v], 0, len) != r
    ensures LastWrite(h, len, r) == ZERO
    decreases |h|
  {
    hide TableIndex;
    if h != [] { NoWrite(h[..|h| - 1], len, r); }
  }
}
