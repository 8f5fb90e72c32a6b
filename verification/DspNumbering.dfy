/**
 The state numbers that evaluation draws: in order, never twice, so graphs whose
 loops feed back at most one signal meet the conditions of the run theorem.
 */
module Numbering {
  import opened Samples
  import opened Graphs
  import opened Exprs
  import opened Evaluator
  import opened Folding
  import opened Streams
  import opened Steps
  import Runs
  import FoldSoundness

  /** Every loop feeds back at most one signal. */
  predicate OneFeedback(g: Graph) {
    match g
    case Prim(_) => true
    case Seq(a, b) => OneFeedback(a) && OneFeedback(b)
    case Par(a, b) => OneFeedback(a) && OneFeedback(b)
    case Split(a, b) => OneFeedback(a) && OneFeedback(b)
    case Merge(a, b) => OneFeedback(a) && OneFeedback(b)
    case Rec(a, b, _) => OneFeedback(a) && OneFeedback(b) && NOut(b) <= 1
    case Group(body) => OneFeedback(body)
  }

  ghost predicate Within(ids: set<int>, lo: int, hi: int) {
    forall i :: i in ids ==> lo <= i < hi
  }

  lemma Apart(s: set<int>, t: set<int>, lo: int, mid: int, hi: int)
    requires Within(s, lo, mid) && Within(t, mid, hi)
    ensures s !! t
  {
    forall i | i in s ensures i !in t {
      assert lo <= i < mid;
    }
    assert s == s - t;
  }

  /** The graph's numbers lie in a range and are used once each. */
  ghost predicate Numbered(g: Graph, lo: int, hi: int) {
    && lo <= hi && BuffersDistinct(g) && Within(Buffers(g).Keys, lo, hi)
    && (OneFeedback(g) ==> FeedbackDistinct(g) && Within(FeedbackIds(g), lo, hi))
  }

  lemma CombineNumbered(c: Combinator, a: Graph, b: Graph, lo: int, mid: int, hi: int)
    requires Numbered(a, lo, mid) && Numbered(b, mid, hi)
    ensures var r := Combine(c, a, b, hi); r.Built? && Numbered(r.graph, lo, r.next)
  {
    hide NIn, NOut, Combine, BuffersDistinct, FeedbackDistinct, OneFeedback, FeedbackIds, Buffers, IdRange;
    CombineParts(c, a, b, hi);
    var g := Combine(c, a, b, hi).graph;
    Apart(Buffers(a).Keys, Buffers(b).Keys, lo, mid, hi);
    assert Buffers(g).Keys == Buffers(a).Keys + Buffers(b).Keys;
    if OneFeedback(g) {
      Apart(FeedbackIds(a), FeedbackIds(b), lo, mid, hi);
      var own := if c.CRec? then IdRange(hi, NOut(b)) else {};
      assert own !! FeedbackIds(a) + FeedbackIds(b) by { Apart(FeedbackIds(a) + FeedbackIds(b), own, lo, hi, hi + 1); }
    }
  }

  /** The numbers of a combination are its sides', and a loop's own. */
  lemma CombineParts(c: Combinator, a: Graph, b: Graph, hi: int)
    ensures var r := Combine(c, a, b, hi);
      && r.Built? && r.next == (if c.CRec? then hi + 1 else hi)
      && Buffers(r.graph) == Buffers(a) + Buffers(b)
      && (BuffersDistinct(a) && BuffersDistinct(b) && Buffers(a).Keys !! Buffers(b).Keys ==> BuffersDistinct(r.graph))
    ensures var g, own := Combine(c, a, b, hi).graph, if c.CRec? then IdRange(hi, NOut(b)) else {};
      && FeedbackIds(g) == FeedbackIds(a) + FeedbackIds(b) + own
      && (OneFeedback(g) ==> OneFeedback(a) && OneFeedback(b) && (forall i :: i in own ==> i == hi))
      && (FeedbackDistinct(a) && FeedbackDistinct(b) && FeedbackIds(a) !! FeedbackIds(b) && own !! FeedbackIds(a) + FeedbackIds(b)
          ==> FeedbackDistinct(g))
  {
  }

  lemma GroupNumbered(b: Graph, lo: int, hi: int)
    requires Numbered(b, lo, hi)
    ensures Numbered(Group(b), lo, hi)
  {
    hide NIn, NOut;
    assert Buffers(Group(b)) == Buffers(b);
  }

  lemma LeafNumbered(l: Leaf, id: int, next: int)
    requires next == id + 1 || (next == id && !l.Mem? && !l.VarDelay? && !l.FixedDelay? && !l.RwTable?)
    requires l.Mem? || l.VarDelay? || l.FixedDelay? || l.RwTable? ==> l.id == id
    ensures Numbered(Prim(l), id, next)
  {
  }

  lemma {:induction false} EvalNumbered(e: Expr, env: Env, fuel: nat, id: int, folding: bool)
    requires Eval(e, env, fuel, id, folding).Built?
    ensures var r := Eval(e, env, fuel, id, folding); Numbered(r.graph, id, r.next)
    decreases fuel, 1
  {
    hide TryConst, EvalNode;
    var r := Eval(e, env, fuel, id, folding);
    if e.ENull? || (folding && TryConst(e, env, fuel).Constant?) {
      LeafNumbered(r.graph.leaf, id, r.next);
    } else {
      NodeNumbered(e, env, fuel, id, folding);
    }
  }

  lemma {:induction false} NodeNumbered(e: Expr, env: Env, fuel: nat, id: int, folding: bool)
    requires fuel > 0 && EvalNode(e, env, fuel, id, folding).Built?
    ensures var r := EvalNode(e, env, fuel, id, folding); Numbered(r.graph, id, r.next)
    decreases fuel, 0
  {
    hide TryConst, Eval, LookupVal, LookupFunc, LookupNative, BindArgs, Numbered;
    var r := EvalNode(e, env, fuel, id, folding);
    match e
    case ECombine(c, l, r) =>
      EvalNumbered(l, env, fuel - 1, id, folding);
      var a := Eval(l, env, fuel - 1, id, folding);
      EvalNumbered(r, env, fuel - 1, a.next, folding);
      var b := Eval(r, env, fuel - 1, a.next, folding);
      CombineNumbered(c, a.graph, b.graph, id, a.next, b.next);
    case EGroup(_, _, body) =>
      EvalNumbered(body, env, fuel - 1, id, folding);
      GroupNumbered(r.graph.body, id, r.next);
    case EIdent(n) =>
      if LookupVal(env, n).Some? {
        EvalNumbered(LookupVal(env, n).value, env, fuel - 1, id, folding);
      } else if LookupFunc(env, n).Some? && LookupFunc(env, n).value.params == [] {
        EvalNumbered(LookupFunc(env, n).value.body, env, fuel - 1, id, folding);
      } else {
        LeafNumbered(Wire, id, id);
      }
    case ECall(n, args) =>
      var fd := LookupFunc(env, n);
      if fd.Some? {
        EvalNumbered(fd.value.body, CallScope(env, BindArgs(fd.value.params, args)), fuel - 1, id, folding);
      } else {
        LeafNumbered(Wire, id, id);
      }
    case _ => LeafNumbered(r.graph.leaf, id, r.next);
  }

  /**
   The whole interpreter: a hygienic program, folded, numbered and run from an
   empty state, outputs the stream function of the program as written, without
   folding, if its loops use different cells.
   */
  lemma {:induction false} InterpreterComputesProgram(e: Expr, top: Env, plan: Plan, fuel: nat, id: int,
      ps: seq<Params>, xs: seq<Frame>) returns (more: nat, h: Graph)
    requires Hygienic(top, plan) && AtLevel(e, Top({}), top, plan) && Eval(e, top, fuel, id, true).Built?
    requires var g := Eval(e, top, fuel, id, true).graph; WellFormed(g) && FeedbackDistinct(g)
    requires |ps| == |xs|
    ensures var g := Eval(e, top, fuel, id, true).graph;
      && WellFormed(h) && Eval(e, top, more, id, false) == Built(h, Eval(e, top, fuel, id, true).next)
      && BuffersDistinct(g) && AllShaped(EMPTY, Buffers(g))
      && Runs.Iterate(g, EMPTY, ps, xs).0 == Run(h, ps, xs)
  {
    hide Hygienic, AtLevel, Eval, Run, WellFormed, OneFeedback, Runs.Iterate, FeedbackDistinct, BuffersDistinct, Buffers, FeedbackIds;
    more, h := FoldSoundness.EvalPreservesMeaning(e, top, plan, fuel, id);
    EvalNumbered(e, top, fuel, id, true);
    Runs.RunIsDenotation(Eval(e, top, fuel, id, true).graph, EMPTY, ps, xs);
  }

  /** Loops that feed back one signal each always use different cells. */
  lemma OneFeedbackIsDistinct(e: Expr, env: Env, fuel: nat, id: int, folding: bool)
    requires Eval(e, env, fuel, id, folding).Built? && OneFeedback(Eval(e, env, fuel, id, folding).graph)
    ensures FeedbackDistinct(Eval(e, env, fuel, id, folding).graph)
  {
    hide Eval, FeedbackDistinct;
    EvalNumbered(e, env, fuel, id, folding);
  }

  const EMPTY := Store(map[], map[], map[])

  // ---- A program whose loop uses another node's cell.

  const TWO_SIGNALS := ECombine(CPar, EAtom(AWire), EAtom(AWire))

  /** (_, _) ~ (_, _), mem */
  const WIDE_PROGRAM := ECombine(CPar, ECombine(CRec, TWO_SIGNALS, TWO_SIGNALS), EAtom(AMem))

  /** Evaluation draws one number for the loop and the next for the memory: the colliding graph. */
  lemma WideProgramCollides(env: Env)
    ensures Eval(WIDE_PROGRAM, env, 4, 0, true) == Built(Runs.COLLIDING, 2)
    ensures !FeedbackDistinct(Runs.COLLIDING) && FeedbackDistinct(Runs.WIDE_LOOP)
  {
    hide Eval, TryConst, FeedbackDistinct, FeedbackIds, IdRange;
    var loop := ECombine(CRec, TWO_SIGNALS, TWO_SIGNALS);
    SignalsBuilt(env);
    LoopBuilt(env);
    MemBuilt(env);
    CombineBuilt(CPar, loop, EAtom(AMem), env, 3, 0, Runs.WIDE_LOOP, 1, Prim(Mem(1)), 2);
    CellsCollide();
  }

  lemma CellsCollide()
    ensures !FeedbackDistinct(Runs.COLLIDING) && FeedbackDistinct(Runs.WIDE_LOOP)
  {
    assert FeedbackIds(Runs.TWO_WIRES) == {} && NOut(Runs.TWO_WIRES) == 2;
    assert 1 in FeedbackIds(Prim(Mem(1))) && 1 in IdRange(0, 2);
    assert FeedbackIds(Runs.WIDE_LOOP) == IdRange(0, 2);
  }

  lemma LoopBuilt(env: Env)
    ensures Eval(ECombine(CRec, TWO_SIGNALS, TWO_SIGNALS), env, 3, 0, true) == Built(Runs.WIDE_LOOP, 1)
  {
    hide Eval, TryConst, FeedbackDistinct, FeedbackIds;
    SignalsBuilt(env);
    CombineBuilt(CRec, TWO_SIGNALS, TWO_SIGNALS, env, 2, 0, Runs.TWO_WIRES, 0, Runs.TWO_WIRES, 0);
  }

  lemma MemBuilt(env: Env)
    ensures Eval(EAtom(AMem), env, 3, 1, true) == Built(Prim(Mem(1)), 2)
  {
  }

  /** Only a sequence can fold, so any other combination is built from its two sides. */
  lemma CombineBuilt(c: Combinator, l: Expr, r: Expr, env: Env, fuel: nat, id: int, a: Graph, mid: int, b: Graph, next: int)
    requires c != CSeq && Eval(l, env, fuel, id, true) == Built(a, mid) && Eval(r, env, fuel, mid, true) == Built(b, next)
    ensures Eval(ECombine(c, l, r), env, fuel + 1, id, true) == Combine(c, a, b, next)
  {
    assert TryConst(ECombine(c, l, r), env, fuel + 1) == Varies;
    hide TryConst, Combine;
  }

  lemma SignalsBuilt(env: Env)
    ensures forall id :: Eval(TWO_SIGNALS, env, 2, id, true) == Built(Runs.TWO_WIRES, id)
  {
    forall id ensures Eval(TWO_SIGNALS, env, 2, id, true) == Built(Runs.TWO_WIRES, id) {
      assert Eval(EAtom(AWire), env, 1, id, true) == Built(Prim(Wire), id);
    }
  }
}
