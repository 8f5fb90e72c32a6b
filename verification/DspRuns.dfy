/**
 Whole runs of a graph: the output of any number of ticks from a fresh state is
 the denoted stream, blocks can be cut anywhere, and the condition on feedback
 cells cannot be dropped.
 */
module Runs {
  import opened Samples
  import opened Graphs
  import opened Streams
  import opened Steps
  import opened Refinement

  /** A state in which the graph has never ticked. */
  ghost predicate Fresh(g: Graph, s: Store) {
    && (forall i :: i in FeedbackIds(g) ==> GetFeedback(s, i) == ZERO)
    && (forall i :: i in Buffers(g) ==> Unused(s, i) && i !in s.delayPos)
  }

  /** Ticking once per frame, in order. */
  function Iterate(g: Graph, s: Store, ps: seq<Params>, xs: seq<Frame>): (r: (seq<Frame>, Store))
    requires WellFormed(g) && BuffersDistinct(g) && AllShaped(s, Buffers(g)) && |ps| == |xs|
    ensures |r.0| == |xs| && AllShaped(r.1, Buffers(g))
    ensures forall t :: 0 <= t < |r.0| ==> |r.0[t]| == NOut(g)
    decreases |xs|
  {
    if xs == [] then ([], s)
    else
      var n := |xs| - 1;
      var r := Iterate(g, s, ps[..n], xs[..n]);
      var q := Step(g, r.1, ps[n], xs[n]);
      (r.0 + [q.0], q.1)
  }

  lemma {:induction false} FreshRemembers(g: Graph, s: Store)
    requires WellFormed(g) && Fresh(g, s)
    ensures AllShaped(s, Buffers(g)) && Remembers(g, [], [], s)
    decreases g
  {
    match g
    case Prim(l) =>
      if l.Mem? {
        assert l.id in FeedbackIds(g);
      } else if HasMemory(l) {
        assert l.id in Buffers(g);
      }
    case Seq(a, b) => FreshRemembers(a, s); FreshRemembers(b, s);
    case Par(a, b) => FreshRemembers(a, s); FreshRemembers(b, s);
    case Split(a, b) => FreshRemembers(a, s); FreshRemembers(b, s);
    case Merge(a, b) => FreshRemembers(a, s); FreshRemembers(b, s);
    case Rec(a, b, id) =>
      FreshRemembers(a, s);
      FreshRemembers(b, s);
      var f := ReadFeedback(s, id, NOut(b));
      forall i | 0 <= i < NOut(b) ensures f[i] == ZERO {
        assert id + i in FeedbackIds(g);
      }
    case Group(body) => FreshRemembers(body, s);
  }

  /** The last tick of a run. */
  lemma IterateGrows(g: Graph, s: Store, ps: seq<Params>, xs: seq<Frame>)
    requires WellFormed(g) && BuffersDistinct(g) && AllShaped(s, Buffers(g)) && |ps| == |xs| > 0
    ensures var n := |xs| - 1;
      var r := Iterate(g, s, ps[..n], xs[..n]);
      var q := Step(g, r.1, ps[n], xs[n]);
      Iterate(g, s, ps, xs) == (r.0 + [q.0], q.1)
  {
  }

  lemma LastOfSuffix<T>(ys: seq<T>, y: T, k: nat)
    requires k <= |ys|
    ensures (ys + [y])[k..] == ys[k..] + [y]
  {
  }

  /** From any state that remembers a past, the next frames are the rest of the denoted stream. */
  lemma {:induction false} IterateContinues(g: Graph, qs: seq<Params>, zs: seq<Frame>, s: Store, ps: seq<Params>, xs: seq<Frame>)
    requires WellFormed(g) && BuffersDistinct(g) && FeedbackDistinct(g) && AllShaped(s, Buffers(g))
    requires |qs| == |zs| && |ps| == |xs| && Remembers(g, qs, zs, s)
    ensures Iterate(g, s, ps, xs).0 == Run(g, qs + ps, zs + xs)[|zs|..]
    ensures Remembers(g, qs + ps, zs + xs, Iterate(g, s, ps, xs).1)
    decreases |xs|
  {
    hide Step, Run, Remembers, WellFormed, BuffersDistinct, Buffers, NOut, FeedbackIds;
    if xs == [] {
      assert qs + ps == qs && zs + xs == zs;
    } else {
      var n := |xs| - 1;
      IterateContinues(g, qs, zs, s, ps[..n], xs[..n]);
      var qs', zs' := qs + ps[..n], zs + xs[..n];
      assert qs + ps == qs' + [ps[n]] && zs + xs == zs' + [xs[n]];
      StepFollowsRun(g, qs', zs', Iterate(g, s, ps[..n], xs[..n]).1, ps[n], xs[n]);
      RunGrows(g, qs', zs', ps[n], xs[n]);
      IterateGrows(g, s, ps, xs);
      LastOfSuffix(Run(g, qs', zs'), Next(g, qs', zs', ps[n], xs[n]), |zs|);
    }
  }

  /** The run of a freshly built graph is exactly its denotation. */
  lemma {:induction false} RunIsDenotation(g: Graph, s: Store, ps: seq<Params>, xs: seq<Frame>)
    requires WellFormed(g) && BuffersDistinct(g) && FeedbackDistinct(g)
    requires Fresh(g, s) && |ps| == |xs|
    ensures AllShaped(s, Buffers(g)) && Iterate(g, s, ps, xs).0 == Run(g, ps, xs)
    ensures Remembers(g, ps, xs, Iterate(g, s, ps, xs).1)
  {
    hide Step, Run, Iterate, Remembers, WellFormed, BuffersDistinct, Buffers, NOut, Fresh;
    FreshRemembers(g, s);
    IterateContinues(g, [], [], s, ps, xs);
    assert [] + ps == ps && [] + xs == xs;
  }

  /** Cutting a stream into two blocks changes neither the samples nor the final state. */
  lemma {:induction false} BlocksCompose(g: Graph, s: Store, ps: seq<Params>, xs: seq<Frame>, qs: seq<Params>, zs: seq<Frame>)
    requires WellFormed(g) && BuffersDistinct(g) && AllShaped(s, Buffers(g)) && |ps| == |xs| && |qs| == |zs|
    ensures var first := Iterate(g, s, ps, xs);
      var second := Iterate(g, first.1, qs, zs);
      Iterate(g, s, ps + qs, xs + zs) == (first.0 + second.0, second.1)
    decreases |zs|
  {
    hide Step, Run, Remembers, WellFormed, BuffersDistinct, Buffers, NOut, FeedbackIds;
    if zs == [] {
      assert ps + qs == ps && xs + zs == xs;
      assert Iterate(g, s, ps, xs).0 + [] == Iterate(g, s, ps, xs).0;
    } else {
      var n := |zs| - 1;
      BlocksCompose(g, s, ps, xs, qs[..n], zs[..n]);
      assert (ps + qs)[..|ps| + n] == ps + qs[..n] && (xs + zs)[..|xs| + n] == xs + zs[..n];
      IterateGrows(g, s, ps + qs, xs + zs);
      var first := Iterate(g, s, ps, xs);
      IterateGrows(g, first.1, qs, zs);
      var second := Iterate(g, first.1, qs[..n], zs[..n]);
      var q := Step(g, second.1, qs[n], zs[n]);
      assert (ps + qs)[|ps| + n] == qs[n] && (xs + zs)[|xs| + n] == zs[n];
      assert first.0 + (second.0 + [q.0]) == (first.0 + second.0) + [q.0];
    }
  }

  /** Unrelated graphs sharing one state do not disturb each other. */
  lemma {:induction false} IterateFrame(g: Graph, other: Graph, s: Store, ps: seq<Params>, xs: seq<Frame>, qs: seq<Params>, zs: seq<Frame>)
    requires WellFormed(g) && BuffersDistinct(g) && AllShaped(s, Buffers(g)) && |ps| == |xs|
    requires WellFormed(other) && |qs| == |zs| && Remembers(other, qs, zs, s)
    requires FeedbackIds(g) !! FeedbackIds(other) && Buffers(g).Keys !! Buffers(other).Keys
    ensures Remembers(other, qs, zs, Iterate(g, s, ps, xs).1)
    decreases |xs|
  {
    if xs != [] {
      var n := |xs| - 1;
      IterateFrame(g, other, s, ps[..n], xs[..n], qs, zs);
      var t := Iterate(g, s, ps[..n], xs[..n]).1;
      RemembersFrame(other, qs, zs, t, Step(g, t, ps[n], xs[n]).1, FeedbackIds(g), Buffers(g).Keys);
    }
  }

  // ---- Two feedback outputs in one loop: the second cell belongs to the next node built.

  const TWO_WIRES := Par(Prim(Wire), Prim(Wire))

  /** A loop of two feedback wires whose cells are 0 and 1. */
  const WIDE_LOOP := Rec(TWO_WIRES, TWO_WIRES, 0)

  /** The loop beside a one-sample memory that was built next, and so got number 1. */
  const COLLIDING := Par(WIDE_LOOP, Prim(Mem(1)))

  lemma TwoWires(s: Store, u: Sample, v: Sample)
    ensures Step(TWO_WIRES, s, map[], [u, v]) == ([u, v], s)
  {
    assert Take([u, v], 1) == [u] && Drop([u, v], 1) == [v] && [u] + [v] == [u, v];
    ParStep(TWO_WIRES, s, map[], [u, v], ([u], s), ([v], s));
  }

  lemma WideLoopStep(u: Sample, v: Sample, s: Store, t: Store)
    requires u == GetFeedback(s, 0) && v == GetFeedback(s, 1)
    requires t == s.(feedback := s.feedback[0 := u][1 := v])
    ensures Step(WIDE_LOOP, s, map[], []) == ([u, v], t)
  {
    hide Step, WellFormed, BuffersDistinct, Buffers, NIn, NOut, WriteFeedback, ReadFeedback, GetFeedback, Pad;
    WideLoopShape();
    TwoWires(s, u, v);
    ReadTwo(s, u, v);
    TwoCells(s, u, v, t);
    Steps.RecStep(WIDE_LOOP, s, map[], [], ([u, v], s), ([u, v], s));
  }

  lemma ReadTwo(s: Store, u: Sample, v: Sample)
    requires u == GetFeedback(s, 0) && v == GetFeedback(s, 1)
    ensures Pad([], 0) + ReadFeedback(s, 0, 2) == [u, v]
  {
    hide GetFeedback;
  }

  lemma TwoCells(s: Store, u: Sample, v: Sample, t: Store)
    requires t == s.(feedback := s.feedback[0 := u][1 := v])
    ensures WriteFeedback(s, 0, [u, v], 2) == t
  {
    assert WriteFeedback(s, 0, [u, v], 0) == s;
    assert WriteFeedback(s, 0, [u, v], 1) == s.(feedback := s.feedback[0 := u]);
  }

  lemma WideLoopShape()
    ensures WellFormed(WIDE_LOOP) && BuffersDistinct(WIDE_LOOP) && Buffers(WIDE_LOOP) == map[]
    ensures NIn(TWO_WIRES) == 2 && NOut(TWO_WIRES) == 2 && NIn(WIDE_LOOP) == 0
    ensures WellFormed(TWO_WIRES) && BuffersDistinct(TWO_WIRES) && Buffers(TWO_WIRES) == map[]
  {
  }

  /** A stateless-buffer, input-free loop beside the memory numbered 1. */
  lemma BesideMemory(loop: Graph, u: Sample, w: Sample, v: Sample, s: Store, t: Store)
    requires WellFormed(loop) && BuffersDistinct(loop) && Buffers(loop) == map[] && NIn(loop) == 0
    requires Step(loop, s, map[], []) == ([u, w], t)
    ensures Buffers(Par(loop, Prim(Mem(1)))) == map[]
    ensures Step(Par(loop, Prim(Mem(1))), s, map[], [v]) ==
            ([u, w, GetFeedback(t, 1)], t.(feedback := t.feedback[1 := v]))
  {
    assert Take([v], 0) == [] && Drop([v], 0) == [v];
    assert [u, w] + [GetFeedback(t, 1)] == [u, w, GetFeedback(t, 1)];
  }

  lemma SilentWires(ps: seq<Params>, u: Frame)
    requires |ps| == 2 && u == [ZERO, ZERO]
    ensures Run(TWO_WIRES, ps, [u, u]) == [u, u]
  {
    var z: Frame := [ZERO];
    assert Take(u, 1) == z && Drop(u, 1) == z && z + z == u;
    assert Takes([u, u], 1) == [z, z] && Drops([u, u], 1) == [z, z] && Zip([z, z], [z, z]) == [u, u];
    assert Run(Prim(Wire), ps, [z, z]) == [z, z];
    WideLoopShape();
    ParRun(TWO_WIRES, ps, [u, u]);
  }

  lemma WideLoopIsSilent(ps: seq<Params>, u: Frame)
    requires |ps| == 2 && u == [ZERO, ZERO]
    ensures Run(WIDE_LOOP, ps, [[], []]) == [u, u]
  {
    hide Run, WellFormed, NIn, NOut;
    WideLoopShape();
    SilentWires(ps, u);
    assert Pad([], 0) + u == u && Pad([], 0) + Zeros(2) == u;
    assert LoopIn([[], []], [u, u], 0, 2) == [u, u];
    assert SolvesLoop(TWO_WIRES, TWO_WIRES, ps, [[], []], [u, u]);
    LoopHasOneSolution(TWO_WIRES, TWO_WIRES, 0, ps, [[], []], [u, u]);
  }

  lemma TwoTicks(g: Graph, s: Store, p: Params, x: Frame, y: Frame, t: Store, z: Frame, u: Store)
    requires WellFormed(g) && BuffersDistinct(g) && AllShaped(s, Buffers(g)) && AllShaped(t, Buffers(g))
    requires Step(g, s, p, x) == (y, t) && Step(g, t, p, x) == (z, u)
    ensures Iterate(g, s, [p, p], [x, x]) == ([y, z], u)
  {
    assert [p, p][..1] == [p] && [x, x][..1] == [x] && [p][..0] == [] && [x][..0] == [];
    IterateGrows(g, s, [p], [x]);
    IterateGrows(g, s, [p, p], [x, x]);
    assert [y] + [z] == [y, z] && [] + [y] == [y];
  }

  lemma RunBesideMemory(loop: Graph, ps: seq<Params>, u: Frame, v: Sample)
    requires WellFormed(loop) && NIn(loop) == 0 && |ps| == 2
    requires Run(loop, ps, [[], []]) == [u, u]
    ensures Run(Par(loop, Prim(Mem(1))), ps, [[v], [v]]) == [u + [ZERO], u + [v]]
  {
    var xs: seq<Frame> := [[v], [v]];
    assert Takes(xs, 0) == [[], []] && Drops(xs, 0) == xs;
    assert xs[..1] == [[v]] && xs[..2] == xs;
    assert Run(Prim(Mem(1)), ps, xs) == [[ZERO], [v]];
  }

  lemma BesideNoBuffers(loop: Graph)
    requires WellFormed(loop) && BuffersDistinct(loop) && Buffers(loop) == map[]
    ensures var g := Par(loop, Prim(Mem(1))); WellFormed(g) && BuffersDistinct(g) && Buffers(g) == map[]
  {
    assert Buffers(Prim(Mem(1))) == map[];
  }

  lemma Leaks(loop: Graph, v: Sample, s: Store, t: Store, u: Store)
    requires s == Store(map[], map[], map[]) && t == Store(map[0 := ZERO, 1 := ZERO], map[], map[])
    requires u == Store(map[0 := ZERO, 1 := v], map[], map[])
    requires WellFormed(loop) && BuffersDistinct(loop) && Buffers(loop) == map[] && NIn(loop) == 0
    requires Step(loop, s, map[], []) == ([ZERO, ZERO], t) && Step(loop, u, map[], []) == ([ZERO, v], u)
    requires Run(loop, [map[], map[]], [[], []]) == [[ZERO, ZERO], [ZERO, ZERO]]
    ensures var g := Par(loop, Prim(Mem(1)));
      && Buffers(g) == map[]
      && Iterate(g, s, [map[], map[]], [[v], [v]]).0[1] == [ZERO, v, v]
      && Run(g, [map[], map[]], [[v], [v]])[1] == [ZERO, ZERO, v]
  {
    hide Step, Iterate, Run, WellFormed, BuffersDistinct, Buffers;
    var g := Par(loop, Prim(Mem(1)));
    BesideNoBuffers(loop);
    BesideMemory(loop, ZERO, ZERO, v, s, t);
    BesideMemory(loop, ZERO, v, v, u, u);
    assert t.(feedback := t.feedback[1 := v]) == u && u.(feedback := u.feedback[1 := v]) == u;
    TwoTicks(g, s, map[], [v], [ZERO, ZERO, ZERO], u, [ZERO, v, v], u);
    RunBesideMemory(loop, [map[], map[]], [ZERO, ZERO], v);
  }

  lemma WideLoopTicks(v: Sample, s: Store, t: Store, u: Store)
    requires s == Store(map[], map[], map[]) && t == Store(map[0 := ZERO, 1 := ZERO], map[], map[])
    requires u == Store(map[0 := ZERO, 1 := v], map[], map[])
    ensures Step(WIDE_LOOP, s, map[], []) == ([ZERO, ZERO], t)
    ensures Step(WIDE_LOOP, u, map[], []) == ([ZERO, v], u)
  {
    assert s.feedback[0 := ZERO][1 := ZERO] == t.feedback && u.feedback[0 := ZERO][1 := v] == u.feedback;
    WideLoopStep(ZERO, ZERO, s, t);
    WideLoopStep(ZERO, v, u, u);
  }

  lemma CollidingShape()
    ensures WellFormed(WIDE_LOOP) && BuffersDistinct(WIDE_LOOP) && Buffers(WIDE_LOOP) == map[]
    ensures NIn(WIDE_LOOP) == 0
    ensures WellFormed(COLLIDING) && BuffersDistinct(COLLIDING) && Buffers(COLLIDING) == map[]
  {
  }

  /** The memory's sample leaks into the loop: only FeedbackDistinct is missing, and RunIsDenotation fails. */
  lemma {:induction false} TwoFeedbackOutputsCollide(v: Sample)
    requires v != ZERO
    ensures WellFormed(COLLIDING) && BuffersDistinct(COLLIDING) && Buffers(COLLIDING) == map[]
    ensures Fresh(COLLIDING, Store(map[], map[], map[]))
    ensures Iterate(COLLIDING, Store(map[], map[], map[]), [map[], map[]], [[v], [v]]).0[1] == [ZERO, v, v]
    ensures Run(COLLIDING, [map[], map[]], [[v], [v]])[1] == [ZERO, ZERO, v]
    ensures [ZERO, v, v] != [ZERO, ZERO, v]
  {
    hide Step, Run, Iterate, WellFormed, BuffersDistinct, Buffers, NIn, NOut;
    var s, t, u := Store(map[], map[], map[]), Store(map[0 := ZERO, 1 := ZERO], map[], map[]),
                   Store(map[0 := ZERO, 1 := v], map[], map[]);
    CollidingShape();
    WideLoopTicks(v, s, t, u);
    WideLoopIsSilent([map[], map[]], [ZERO, ZERO]);
    Leaks(WIDE_LOOP, v, s, t, u);
    assert [ZERO, v, v][1] != [ZERO, ZERO, v][1];
  }
}
