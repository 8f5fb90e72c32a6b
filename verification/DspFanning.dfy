/**
 What a split and a merge do to channels: the right side of a split sees the left
 side's channels over and over, and a merge adds them up row by row.
 */
module Fanning {
  import Arithmetic
  import opened Samples
  import opened Graphs
  import opened Streams
  import opened Laws

  // ---- One frame.

  /** Fanned out, a frame comes first, and then again from its start. */
  lemma FanRepeats(y: Frame, n: nat, i: nat)
    requires i < n && y != []
    ensures Fan(y, n)[i] == if i < |y| then y[i] else Fan(y, n)[i - |y|]
  {
    if i >= |y| { WrapsOnce(i, |y|); }
  }

  lemma WrapsOnce(i: nat, m: nat)
    requires 0 < m <= i
    ensures i % m == (i - m) % m
  {
    Arithmetic.DivMod(i, m);
    Arithmetic.QuotientUnique(i - m, m, i / m - 1, i % m);
  }

  /** Nothing folds to silence. */
  lemma FoldNothing(n: nat)
    ensures Fold([], n) == Zeros(n)
  {
  }

  /** Each row of at most n channels more is added to the sums so far, channel by channel. */
  lemma {:induction false} FoldAddsRow(y: Frame, z: Frame, n: nat, j: nat)
    requires j < n && |y| % n == 0 && |z| <= n
    ensures Fold(y + z, n)[j] == if j < |z| then FLOAT.add(Fold(y, n)[j], z[j]) else Fold(y, n)[j]
  {
    RowSum(y, z, n, j, |z|);
  }

  lemma {:induction false} RowSum(y: Frame, z: Frame, n: nat, j: nat, k: nat)
    requires j < n && |y| % n == 0 && k <= |z| <= n
    ensures StridedSum(y + z, n, j, |y| + k) ==
      if j < k then FLOAT.add(StridedSum(y, n, j, |y|), z[j]) else StridedSum(y, n, j, |y|)
    decreases k
  {
    if k == 0 {
      SumOfPrefix(y, z, n, j, |y|);
    } else {
      RowSum(y, z, n, j, k - 1);
      RowIndex(|y|, k - 1, n);
    }
  }

  lemma RowIndex(m: nat, k: nat, n: nat)
    requires k < n && m % n == 0
    ensures (m + k) % n == k
  {
    var q := m / n;
    assert m == q * n;
    assert (q * n + k) % n == k by { Arithmetic.QuotientUnique(m + k, n, q, k); }
  }

  lemma {:induction false} SumOfPrefix(y: Frame, z: Frame, n: nat, j: nat, k: nat)
    requires n > 0 && k <= |y|
    ensures StridedSum(y + z, n, j, k) == StridedSum(y, n, j, k)
    decreases k
  {
    if k > 0 { SumOfPrefix(y, z, n, j, k - 1); }
  }

  // ---- Whole streams: a row of n wires on the right shows what arrives there.

  /** n wires side by side. */
  function Wires(n: nat): Graph
    requires n > 0
  {
    if n == 1 then Prim(Wire) else Par(Wires(n - 1), Prim(Wire))
  }

  lemma {:induction false} WiresShape(n: nat)
    requires n > 0
    ensures WellFormed(Wires(n)) && NIn(Wires(n)) == n && NOut(Wires(n)) == n
    decreases n
  {
    if n > 1 { WiresShape(n - 1); }
  }

  /** They change nothing. */
  lemma {:induction false} WiresRun(n: nat, ps: seq<Params>, xs: seq<Frame>)
    requires n > 0 && |ps| == |xs| && forall t :: 0 <= t < |xs| ==> |xs[t]| == n
    ensures WellFormed(Wires(n)) && Run(Wires(n), ps, xs) == xs
    decreases n
  {
    hide Run, NIn, NOut, WellFormed;
    WiresShape(n);
    if n == 1 {
      LoneWire(ps, xs);
    } else {
      WiresShape(n - 1);
      var ls, rs := Takes(xs, n - 1), Drops(xs, n - 1);
      WiresRun(n - 1, ps, ls);
      LoneWire(ps, rs);
      ParRun(Wires(n), ps, xs);
      Rejoined(xs, n - 1);
    }
  }

  /** Cut at any channel and put together again, a stream is the same. */
  lemma Rejoined(xs: seq<Frame>, n: nat)
    ensures Zip(Takes(xs, n), Drops(xs, n)) == xs
  {
    forall t: nat | t < |xs| ensures Zip(Takes(xs, n), Drops(xs, n))[t] == xs[t] {}
  }

  lemma LoneWire(ps: seq<Params>, xs: seq<Frame>)
    requires |ps| == |xs| && forall t :: 0 <= t < |xs| ==> |xs[t]| == 1
    ensures WellFormed(Prim(Wire)) && NIn(Prim(Wire)) == 1 && Run(Prim(Wire), ps, xs) == xs
  {
    hide Run, LeafOut;
    assert WellFormed(Prim(Wire)) && NIn(Prim(Wire)) == 1;
    forall t: nat | t < |xs| ensures Run(Prim(Wire), ps, xs)[t] == xs[t] {
      PrimRun(Wire, ps, xs, t);
      WireOut(ps[t], xs, t);
    }
  }

  /** What n wires get from a split. */
  lemma {:induction false} SplitShows(a: Graph, n: nat, ps: seq<Params>, xs: seq<Frame>)
    requires WellFormed(a) && NOut(a) > 0 && n > 0 && |ps| == |xs|
    ensures WellFormed(Split(a, Wires(n)))
    ensures Run(Split(a, Wires(n)), ps, xs) == Fans(Run(a, ps, xs), n)
  {
    hide Run, NIn, NOut, WellFormed, Fans;
    WiresShape(n);
    Sides(a, Wires(n), 0);
    SplitRun(Split(a, Wires(n)), ps, xs);
    WiresRun(n, ps, Fans(Run(a, ps, xs), n));
  }

  /** The left side's channels first, then the same again, to any number of inputs. */
  lemma {:induction false} SplitRepeats(a: Graph, n: nat, ps: seq<Params>, xs: seq<Frame>, t: nat, i: nat)
    requires WellFormed(a) && NOut(a) > 0 && i < n && |ps| == |xs| && t < |xs|
    ensures WellFormed(Split(a, Wires(n))) && NOut(Split(a, Wires(n))) == n
    ensures var ys, zs := Run(a, ps, xs), Run(Split(a, Wires(n)), ps, xs);
      zs[t][i] == if i < NOut(a) then ys[t][i] else zs[t][i - NOut(a)]
  {
    hide Run, NIn, NOut, WellFormed, Fan;
    WiresShape(n);
    Sides(a, Wires(n), 0);
    SplitShows(a, n, ps, xs);
    FanRepeats(Run(a, ps, xs)[t], n, i);
  }

  /** Whatever stands on the right of a split gets what wires would get. */
  lemma {:induction false} SplitFeeds(a: Graph, b: Graph, ps: seq<Params>, xs: seq<Frame>)
    requires WellFormed(a) && WellFormed(b) && NOut(a) > 0 && NIn(b) > 0 && |ps| == |xs|
    ensures WellFormed(Split(a, b)) && WellFormed(Split(a, Wires(NIn(b))))
    ensures Run(Split(a, b), ps, xs) == Run(b, ps, Run(Split(a, Wires(NIn(b))), ps, xs))
  {
    hide Run, Fans, WellFormed, NIn, NOut;
    WiresShape(NIn(b));
    Sides(a, b, 0);
    Sides(a, Wires(NIn(b)), 0);
    SplitShows(a, NIn(b), ps, xs);
    SplitRun(Split(a, b), ps, xs);
  }

  /** What n wires get from a merge. */
  lemma {:induction false} MergeShows(a: Graph, n: nat, ps: seq<Params>, xs: seq<Frame>)
    requires WellFormed(a) && n > 0 && |ps| == |xs|
    ensures WellFormed(Merge(a, Wires(n)))
    ensures Run(Merge(a, Wires(n)), ps, xs) == Folds(Run(a, ps, xs), n)
  {
    hide Run, NIn, NOut, WellFormed, Folds;
    WiresShape(n);
    Sides(a, Wires(n), 0);
    MergeRun(Merge(a, Wires(n)), ps, xs);
    WiresRun(n, ps, Folds(Run(a, ps, xs), n));
  }

  /** At most n channels merged into n inputs: each is added to zero, and inputs without a channel are silent. */
  lemma {:induction false} MergeFew(a: Graph, n: nat, ps: seq<Params>, xs: seq<Frame>, t: nat, j: nat)
    requires WellFormed(a) && NOut(a) <= n && j < n && |ps| == |xs| && t < |xs|
    ensures WellFormed(Merge(a, Wires(n))) && NOut(Merge(a, Wires(n))) == n
    ensures Run(Merge(a, Wires(n)), ps, xs)[t][j] == if j < NOut(a) then FLOAT.add(ZERO, Run(a, ps, xs)[t][j]) else ZERO
  {
    hide Run, NIn, NOut, WellFormed, Fold;
    WiresShape(n);
    Sides(a, Wires(n), 0);
    MergeShows(a, n, ps, xs);
    var y := Run(a, ps, xs)[t];
    assert [] + y == y;
    FoldAddsRow([], y, n, j);
    FoldNothing(n);
  }

  /** Any number of full rows of n channels, and then one more row of at most n: it is added to what the rows before gave. */
  lemma {:induction false} MergeAddsRow(a: Graph, c: Graph, n: nat, ps: seq<Params>, xs: seq<Frame>, t: nat, j: nat)
    requires WellFormed(a) && WellFormed(c) && j < n && NOut(a) % n == 0 && NOut(c) <= n && |ps| == |xs| && t < |xs|
    ensures WellFormed(Merge(Par(a, c), Wires(n))) && NOut(Merge(Par(a, c), Wires(n))) == n
    ensures WellFormed(Merge(a, Wires(n))) && NOut(Merge(a, Wires(n))) == n
    ensures var before, row := Run(Merge(a, Wires(n)), ps, Takes(xs, NIn(a))), Run(c, ps, Drops(xs, NIn(a)));
      Run(Merge(Par(a, c), Wires(n)), ps, xs)[t][j] ==
        if j < NOut(c) then FLOAT.add(before[t][j], row[t][j]) else before[t][j]
  {
    hide Run, NIn, NOut, WellFormed, Fold;
    WiresShape(n);
    Sides(a, c, 0);
    Sides(a, Wires(n), 0);
    Sides(Par(a, c), Wires(n), 0);
    MergeShows(a, n, ps, Takes(xs, NIn(a)));
    MergeShows(Par(a, c), n, ps, xs);
    ParRun(Par(a, c), ps, xs);
    FoldAddsRow(Run(a, ps, Takes(xs, NIn(a)))[t], Run(c, ps, Drops(xs, NIn(a)))[t], n, j);
  }

  /** Whatever stands on the right of a merge gets what wires would get. */
  lemma {:induction false} MergeFeeds(a: Graph, b: Graph, ps: seq<Params>, xs: seq<Frame>)
    requires WellFormed(a) && WellFormed(b) && NIn(b) > 0 && |ps| == |xs|
    ensures WellFormed(Merge(a, b)) && WellFormed(Merge(a, Wires(NIn(b))))
    ensures Run(Merge(a, b), ps, xs) == Run(b, ps, Run(Merge(a, Wires(NIn(b))), ps, xs))
  {
    hide Run, Folds, WellFormed, NIn, NOut;
    WiresShape(NIn(b));
    Sides(a, b, 0);
    Sides(a, Wires(NIn(b)), 0);
    MergeShows(a, NIn(b), ps, xs);
    MergeRun(Merge(a, b), ps, xs);
  }

  /** Beside each other, graphs get their own channels, in order, and give their own. */
  lemma {:induction false} ParSplitsChannels(a: Graph, b: Graph, ps: seq<Params>, xs: seq<Frame>, t: nat)
    requires WellFormed(a) && WellFormed(b) && |ps| == |xs| && t < |xs|
    ensures WellFormed(Par(a, b)) && Run(Par(a, b), ps, xs)[t] ==
      Run(a, ps, Takes(xs, NIn(a)))[t] + Run(b, ps, Drops(xs, NIn(a)))[t]
    ensures Takes(xs, NIn(a))[t] + Drops(xs, NIn(a))[t] == xs[t]
    ensures NIn(a) <= |xs[t]| ==> |Takes(xs, NIn(a))[t]| == NIn(a)
    ensures |xs[t]| <= NIn(a) ==> Drops(xs, NIn(a))[t] == []
  {
    hide Run, NIn, NOut, WellFormed;
    Sides(a, b, 0);
    ParRun(Par(a, b), ps, xs);
  }
}
