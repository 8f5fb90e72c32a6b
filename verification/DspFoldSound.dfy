/**
 The two theorems about constant folding: a folded number is what the unfolded
 graph outputs for ever, and a graph built with folding means what the graph
 built without it means.
 */
module FoldSoundness {
  import opened Samples
  import opened Graphs
  import opened Streams
  import opened Exprs
  import opened Evaluator
  import opened Folding

  /** Evaluation without folding, given this fuel, builds g and draws no numbers. */
  ghost predicate Builds(e: Expr, env: Env, fuel: nat, g: Graph) {
    forall id :: Eval(e, env, fuel, id, false) == Built(g, id)
  }

  /** Without folding, e is built as a graph that is constantly v. */
  ghost predicate Denotes(e: Expr, env: Env, v: Sample) {
    exists fuel: nat, g :: ConstGraph(g, v) && Builds(e, env, fuel, g)
  }

  /** The folder's binding is the evaluator's, or the number that the evaluator's text denotes. */
  ghost predicate Matches(F: Env, E: Env, n: string) {
    || LookupVal(F, n) == LookupVal(E, n)
    || (LookupVal(F, n).Some? && LookupVal(E, n).Some? && LookupVal(F, n).value.ENum? &&
        Denotes(LookupVal(E, n).value, E, LookupVal(F, n).value.num))
  }

  ghost predicate AllMatch(F: Env, E: Env, K: Frames, top: Env, plan: Plan) {
    forall f, n :: Live(K, f, n, top, plan) ==> Matches(F, E, n)
  }

  // ---- Denotations of compound expressions.

  lemma NumDenotes(v: Sample, env: Env)
    ensures Denotes(ENum(v), env, v)
  {
    assert ConstGraph(Prim(Const(v)), v) && Builds(ENum(v), env, 1, Prim(Const(v)));
  }

  lemma IdentDenotes(n: string, env: Env, v: Sample)
    requires LookupVal(env, n).Some? && Denotes(LookupVal(env, n).value, env, v)
    ensures Denotes(EIdent(n), env, v)
  {
    hide ConstGraph;
    var t := LookupVal(env, n).value;
    var fuel: nat, g :| ConstGraph(g, v) && Builds(t, env, fuel, g);
    forall id ensures Eval(EIdent(n), env, fuel + 1, id, false) == Built(g, id) {
      assert Eval(t, env, fuel, id, false) == Built(g, id);
    }
    assert Builds(EIdent(n), env, fuel + 1, g);
  }

  lemma CallDenotes(f: string, args: seq<Expr>, env: Env, child: Env, v: Sample, K: Frames, top: Env, plan: Plan)
    requires Hygienic(top, plan) && Over(env, K, top, plan) && f in top.funcs
    requires child == CallScope(env, BindArgs(top.funcs[f].params, args))
    requires Denotes(top.funcs[f].body, child, v)
    ensures Denotes(ECall(f, args), env, v)
  {
    hide ConstGraph, Hygienic, Over, LookupFunc, LookupNative, BindArgs;
    FuncFacts(f, env, K, top, plan);
    var fuel: nat, g :| ConstGraph(g, v) && Builds(top.funcs[f].body, child, fuel, g);
    forall id ensures Eval(ECall(f, args), env, fuel + 1, id, false) == Built(g, id) {
      assert Eval(top.funcs[f].body, child, fuel, id, false) == Built(g, id);
    }
    assert Builds(ECall(f, args), env, fuel + 1, g);
  }

  /** What the folder computes for an operator is what the operator's node computes. */
  lemma FoldUnaryNode(op: string, a: Sample)
    requires FoldUnary(op, a).Constant?
    ensures UnaryOpNamed(op).Some? && FoldUnary(op, a).v == Apply1(UnaryOpNamed(op).value, a)
  {
  }

  lemma SeqDenotes(l: Expr, op: string, env: Env, a: Sample)
    requires Denotes(l, env, a) && FoldUnary(op, a).Constant?
    ensures Denotes(ECombine(CSeq, l, EAtom(AUnaryOp(op))), env, FoldUnary(op, a).v)
  {
    hide FoldUnary, UnaryOpNamed;
    FoldUnaryNode(op, a);
    var r, uop := EAtom(AUnaryOp(op)), UnaryOpNamed(op).value;
    var fuel: nat, g :| ConstGraph(g, a) && Builds(l, env, fuel, g);
    var h := Seq(g, Prim(Unary(uop)));
    assert ConstGraph(h, Apply1(uop, a));
    forall id ensures Eval(ECombine(CSeq, l, r), env, fuel + 2, id, false) == Built(h, id) {
      assert Eval(l, env, fuel, id, false) == Built(g, id);
      EvalMonotone(l, env, fuel, fuel + 1, id, false);
      assert Eval(r, env, fuel + 1, id, false) == Built(Prim(Unary(uop)), id);
    }
    assert Builds(ECombine(CSeq, l, r), env, fuel + 2, h);
  }

  lemma DenotesLocal(e: Expr, lv: Level, K: Frames, lvl: map<string, Level>, E1: Env, E2: Env,
      top: Env, plan: Plan, v: Sample)
    requires Hygienic(top, plan) && Over(E1, K, top, plan) && Over(E2, K, top, plan) && Inside(lv, K) && AtLevel(e, lv, top, plan)
    requires Closed(E1, K, lvl, top, plan) && Closed(E2, K, lvl, top, plan) && AgreeOn(E1, E2, K, top, plan) && LeadsTo(K, lv, plan)
    requires Denotes(e, E1, v)
    ensures Denotes(e, E2, v)
  {
    hide ConstGraph, Eval, Hygienic, Over, AtLevel, Closed, AgreeOn, Inside;
    var fuel: nat, g :| ConstGraph(g, v) && Builds(e, E1, fuel, g);
    forall id ensures Eval(e, E2, fuel, id, false) == Built(g, id) {
      EvalLocal(e, lv, K, lvl, E1, E2, top, plan, fuel, id, false);
    }
    assert Builds(e, E2, fuel, g);
  }

  // ---- Scopes and closed sets.

  /** A scope that binds f's parameters leaves what stays live in the chain that leads to the call as it was. */
  lemma ScopeKeeps(env: Env, child: Env, f: string, K: Frames, lvl: map<string, Level>, top: Env, plan: Plan)
    requires f in top.funcs && Closed(env, K, lvl, top, plan) && Extends(env, child, f, top, plan)
    requires Over(env, K, top, plan) && Over(child, Push(K, f), top, plan)
    requires f !in K.chain && forall g :: g in K.chain ==> Calls(plan, g, f)
    ensures var D := Beside(K, f);
      && AgreeOn(env, child, D, top, plan) && Closed(env, D, lvl, top, plan) && Closed(child, D, lvl, top, plan)
      && Over(env, D, top, plan) && Over(child, D, top, plan)
  {
    hide AtLevel, LookupVal, Below, Binds, Shadowed, Inside, Carries, Over;
    OverMore(env, f, K, top, plan);
    OverBeside(child, f, K, top, plan);
    forall g, n | Live(Beside(K, f), g, n, top, plan)
      ensures Live(K, g, n, top, plan) && !Binds(top, plan, f, n) && Inside(lvl[n], Beside(K, f))
    {
      BesideLive(K, f, g, n, top, plan);
      BesideInside(K, f, g, lvl[n], plan);
    }
  }

  /** The chain as it was, with f's scope open too. */
  function Beside(K: Frames, f: string): Frames {
    Frames(map g | g in K.chain :: K.chain[g] + {f}, K.all + {f})
  }

  lemma BesideLive(K: Frames, f: string, g: string, n: string, top: Env, plan: Plan)
    requires Live(Beside(K, f), g, n, top, plan)
    ensures Live(K, g, n, top, plan) && !Binds(top, plan, f, n)
  {
    hide Binds;
    assert f in Beside(K, f).chain[g] && K.chain[g] <= Beside(K, f).chain[g];
  }

  lemma PushBeside(K: Frames, f: string, g: string, n: string, top: Env, plan: Plan)
    requires Live(Push(K, f), g, n, top, plan) && g != f
    ensures Live(Beside(K, f), g, n, top, plan)
  {
    hide Binds;
    assert Push(K, f).chain[g] == Beside(K, f).chain[g];
  }

  lemma BesideInside(K: Frames, f: string, g: string, lv: Level, plan: Plan)
    requires Inside(lv, K) && Carries(lv, g, plan) && Calls(plan, g, f)
    ensures Inside(lv, Beside(K, f))
  {
  }

  lemma OverBeside(child: Env, f: string, K: Frames, top: Env, plan: Plan)
    requires Over(child, Push(K, f), top, plan)
    ensures Over(child, Beside(K, f), top, plan)
  {
    hide LookupVal, LookupFunc, LookupNative, Shadowed;
  }

  lemma OverAbove(env: Env, K: Frames, lv: Level, top: Env, plan: Plan)
    requires Over(env, K, top, plan)
    ensures Over(env, Above(K, lv, plan), top, plan)
  {
    hide LookupVal, LookupFunc, LookupNative, Shadowed;
  }

  lemma MatchAbove(F: Env, E: Env, K: Frames, lv: Level, top: Env, plan: Plan)
    requires AllMatch(F, E, K, top, plan)
    ensures AllMatch(F, E, Above(K, lv, plan), top, plan)
  {
    hide Matches, Shadowed, Binds;
    forall f, n | Live(Above(K, lv, plan), f, n, top, plan) ensures Matches(F, E, n) {
      assert Live(K, f, n, top, plan);
    }
  }

  lemma OverMore(env: Env, f: string, K: Frames, top: Env, plan: Plan)
    requires Over(env, K, top, plan)
    ensures Over(env, Beside(K, f), top, plan)
  {
    hide LookupVal, LookupFunc, LookupNative, Binds;
    forall n | !Shadowed(top, plan, Beside(K, f).all, n) ensures LookupVal(env, n) == LookupVal(top, n) {
      assert !Shadowed(top, plan, K.all, n);
    }
  }

  /** Arguments can be read beside the scope of the call, and in the chain that leads to it. */
  lemma ArgsBeside(f: string, lv: Level, K: Frames, plan: Plan)
    requires Inside(lv, K) && LeadsTo(K, lv, plan)
    ensures Inside(Inner(lv, f, plan), Beside(K, f)) && LeadsTo(Beside(K, f), Inner(lv, f, plan), plan)
  {
  }

  // ---- The folder is right.

  lemma {:induction false} FoldSound(e: Expr, lv: Level, K: Frames, lvl: map<string, Level>, F: Env, E: Env,
      top: Env, plan: Plan, fuel: nat)
    requires Hygienic(top, plan) && Over(F, K, top, plan) && Over(E, K, top, plan) && Inside(lv, K) && AtLevel(e, lv, top, plan)
    requires Closed(E, K, lvl, top, plan) && LeadsTo(K, lv, plan) && AllMatch(F, E, K, top, plan)
    requires TryConst(e, F, fuel).Constant?
    ensures Denotes(e, E, TryConst(e, F, fuel).v)
    decreases fuel, 1
  {
    hide Hygienic, Over, Closed, AllMatch, Denotes, LookupVal, LookupFunc;
    match e
    case ENum(v) => NumDenotes(v, E);
    case EIdent(n) => IdentSound(n, lv, K, lvl, F, E, top, plan, fuel);
    case ECombine(_, l, r) =>
      FoldSound(l, lv, K, lvl, F, E, top, plan, fuel - 1);
      SeqDenotes(l, r.atom.op, E, TryConst(l, F, fuel - 1).v);
    case ECall(f, args) =>
      FuncFacts(f, F, K, top, plan);
      CallSound(f, args, lv, K, lvl, F, E, top, plan, fuel);
    case _ =>
  }

  lemma {:induction false} IdentSound(n: string, lv: Level, K: Frames, lvl: map<string, Level>, F: Env, E: Env,
      top: Env, plan: Plan, fuel: nat)
    requires Hygienic(top, plan) && Over(F, K, top, plan) && Over(E, K, top, plan) && Inside(lv, K) && AtLevel(EIdent(n), lv, top, plan)
    requires Closed(E, K, lvl, top, plan) && LeadsTo(K, lv, plan) && AllMatch(F, E, K, top, plan)
    requires TryConst(EIdent(n), F, fuel).Constant?
    ensures Denotes(EIdent(n), E, TryConst(EIdent(n), F, fuel).v)
    decreases fuel, 0
  {
    hide Hygienic, AtLevel, Denotes, LookupVal, LeadsTo, Below, Closed, Over;
    BothBind(n, lv, K, lvl, F, E, top, plan);
    var s, t := LookupVal(F, n).value, LookupVal(E, n).value;
    if s == t {
      var t', lv' := IdentText(n, lv, K, lvl, E, top, plan);
      PlanOf(top, plan);
      AboveClosed(K, lv', E, lvl, top, plan);
      OverAbove(F, K, lv', top, plan);
      MatchAbove(F, E, K, lv', top, plan);
      FoldSound(t, lv', Above(K, lv', plan), lvl, F, E, top, plan, fuel - 1);
    }
    IdentDenotes(n, E, TryConst(EIdent(n), F, fuel).v);
  }

  lemma PlanOf(top: Env, plan: Plan)
    requires Hygienic(top, plan)
    ensures Planned(plan)
  {
    hide AtLevel;
  }

  /** An identifier the folder resolves, the evaluator resolves, to matching text. */
  lemma BothBind(n: string, lv: Level, K: Frames, lvl: map<string, Level>, F: Env, E: Env, top: Env, plan: Plan)
    requires Over(F, K, top, plan) && Over(E, K, top, plan) && Inside(lv, K) && AtLevel(EIdent(n), lv, top, plan)
    requires Closed(E, K, lvl, top, plan) && AllMatch(F, E, K, top, plan) && LookupVal(F, n).Some?
    ensures LookupVal(E, n).Some? && Matches(F, E, n)
  {
    hide LookupVal, Denotes, LookupFunc, LookupNative, Own, Shadowed, Binds, AtLevel, Inside;
    NameAtLevel(n, lv, K, top, plan);
  }

  lemma {:induction false} CallSound(f: string, args: seq<Expr>, lv: Level, K: Frames, lvl: map<string, Level>, F: Env, E: Env,
      top: Env, plan: Plan, fuel: nat)
    requires f in top.funcs && TryConst(ECall(f, args), F, fuel).Constant?
    requires Hygienic(top, plan) && Over(F, K, top, plan) && Over(E, K, top, plan) && Inside(lv, K) && AtLevel(ECall(f, args), lv, top, plan)
    requires Closed(E, K, lvl, top, plan) && LeadsTo(K, lv, plan) && AllMatch(F, E, K, top, plan)
    ensures Denotes(ECall(f, args), E, TryConst(ECall(f, args), F, fuel).v)
    decreases fuel, 0
  {
    hide AtLevel, Hygienic, Over, Closed, AllMatch, Denotes, LookupVal, LookupFunc, LookupNative, BindArgs, FoldArgs;
    var params, body := top.funcs[f].params, top.funcs[f].body;
    FuncFacts(f, F, K, top, plan);
    CallFacts(f, args, lv, top, plan);
    var folded := FoldArgs(params, args, F, fuel - 1);
    var cF, cE := FoldScope(F, folded.vals), CallScope(E, BindArgs(params, args));
    FoldScopeOver(f, args, lv, F, cF, K, top, plan, fuel - 1);
    CallClosed(E, cE, f, args, lv, K, lvl, top, plan);
    ScopeMatches(f, args, lv, K, lvl, F, E, cF, cE, top, plan, fuel);
    FoldSound(body, BodyOf(plan, f), Push(K, f), Relevel(lvl, f, Inner(lv, f, plan), top, plan), cF, cE, top, plan, fuel - 1);
    CallDenotes(f, args, E, cE, TryConst(body, cF, fuel - 1).v, K, top, plan);
  }

  lemma FoldScopeOver(f: string, args: seq<Expr>, lv: Level, F: Env, cF: Env, K: Frames, top: Env, plan: Plan, fuel: nat)
    requires Hygienic(top, plan) && Over(F, K, top, plan) && f in top.funcs && AtLevel(ECall(f, args), lv, top, plan)
    requires FoldArgs(top.funcs[f].params, args, F, fuel).ArgsFolded?
    requires cF == FoldScope(F, FoldArgs(top.funcs[f].params, args, F, fuel).vals)
    ensures Over(cF, Push(K, f), top, plan) && Extends(F, cF, f, top, plan)
  {
    hide AtLevel, Hygienic, Over, Extends, LookupVal, LookupFunc, LookupNative, BindArgs, FoldArgs, TryConst, Binds, Given, Allowed, Known;
    CallFacts(f, args, lv, top, plan);
    FoldArgsValues(top.funcs[f].params, args, F, fuel);
    ScopeOver(F, cF, f, K, top, plan);
  }

  /** After a call, the two scopes still match: by value on one side, by name on the other. */
  lemma {:induction false} ScopeMatches(f: string, args: seq<Expr>, lv: Level, K: Frames, lvl: map<string, Level>, F: Env, E: Env,
      cF: Env, cE: Env, top: Env, plan: Plan, fuel: nat)
    requires fuel > 0 && f in top.funcs && FoldArgs(top.funcs[f].params, args, F, fuel - 1).ArgsFolded?
    requires Hygienic(top, plan) && Over(F, K, top, plan) && Over(E, K, top, plan) && Inside(lv, K) && AtLevel(ECall(f, args), lv, top, plan)
    requires Closed(E, K, lvl, top, plan) && LeadsTo(K, lv, plan) && AllMatch(F, E, K, top, plan)
    requires cF == FoldScope(F, FoldArgs(top.funcs[f].params, args, F, fuel - 1).vals)
    requires cE == CallScope(E, BindArgs(top.funcs[f].params, args))
    ensures AllMatch(cF, cE, Push(K, f), top, plan) && LeadsTo(Push(K, f), BodyOf(plan, f), plan)
    ensures Inside(BodyOf(plan, f), Push(K, f))
    decreases fuel, -1
  {
    hide AtLevel, Hygienic, Over, Closed, Denotes, LookupVal, LookupFunc, LookupNative, BindArgs, FoldArgs, TryConst, Binds, LeadsTo, Given, Below, Inside, Allowed, Inner, Known, Relevel;
    var params := top.funcs[f].params;
    CallFacts(f, args, lv, top, plan);
    CallLeads(f, lv, K, top, plan);
    FoldScopeOver(f, args, lv, F, cF, K, top, plan, fuel - 1);
    CallClosed(E, cE, f, args, lv, K, lvl, top, plan);
    FoldArgsValues(params, args, F, fuel - 1);
    BindArgsKeys(params, args);
    ScopeKeeps(E, cE, f, K, lvl, top, plan);
    InnerInside(f, lv, K, plan);
    ArgsBeside(f, lv, K, plan);
    var D, la := Beside(K, f), Inner(lv, f, plan);
    forall n | n in cF.vals ensures Matches(cF, cE, n) {
      var arg := BindArgs(params, args)[n];
      FoldSound(arg, la, K, lvl, F, E, top, plan, fuel - 1);
      DenotesLocal(arg, la, D, lvl, E, cE, top, plan, TryConst(arg, F, fuel - 1).v);
    }
    forall g, n | Live(D, g, n, top, plan) ensures Matches(cF, cE, n) {
      BesideLive(K, f, g, n, top, plan);
      if LookupVal(F, n) != LookupVal(E, n) {
        BoundText(g, n, D, lvl, E, top, plan);
        AboveLocal(D, lvl[n], E, cE, lvl, top, plan);
        DenotesLocal(LookupVal(E, n).value, lvl[n], Above(D, lvl[n], plan), lvl, E, cE, top, plan, LookupVal(F, n).value.num);
      }
    }
    forall g, n | Live(Push(K, f), g, n, top, plan) ensures Matches(cF, cE, n) {
      if g == f {
        assert n in cF.vals;
      } else {
        PushBeside(K, f, g, n, top, plan);
      }
    }
  }

  lemma BoundText(g: string, n: string, K: Frames, lvl: map<string, Level>, env: Env, top: Env, plan: Plan)
    requires Closed(env, K, lvl, top, plan) && Live(K, g, n, top, plan)
    ensures n in lvl && LookupVal(env, n).Some? && Inside(lvl[n], K)
    ensures AtLevel(LookupVal(env, n).value, lvl[n], top, plan)
  {
    hide AtLevel, LookupVal;
  }

  /** At top level: what folds to v is, unfolded, a stateless graph that outputs v on every tick. */
  lemma {:induction false} FoldPreservesMeaning(e: Expr, top: Env, plan: Plan, fuel: nat)
    requires Hygienic(top, plan) && AtLevel(e, Top({}), top, plan) && TryConst(e, top, fuel).Constant?
    ensures Denotes(e, top, TryConst(e, top, fuel).v)
  {
    TopOver(top, plan);
    FoldSound(e, Top({}), NONE, map[], top, top, top, plan, fuel);
  }

  /** No scope is open. */
  const NONE := Frames(map[], {})

  lemma TopOver(top: Env, plan: Plan)
    requires Hygienic(top, plan)
    ensures Over(top, NONE, top, plan) && Closed(top, NONE, map[], top, plan)
    ensures Inside(Top({}), NONE) && LeadsTo(NONE, Top({}), plan)
  {
    hide AtLevel;
  }

  // ---- Folding inside a larger graph.

  /** g is h with some constant subgraphs replaced by their numbers. */
  ghost predicate FoldedFrom(g: Graph, h: Graph) {
    || g == h
    || (g.Prim? && g.leaf.Const? && ConstGraph(h, g.leaf.val))
    || (g.Seq? && h.Seq? && FoldedFrom(g.a, h.a) && FoldedFrom(g.b, h.b))
    || (g.Par? && h.Par? && FoldedFrom(g.a, h.a) && FoldedFrom(g.b, h.b))
    || (g.Split? && h.Split? && FoldedFrom(g.a, h.a) && FoldedFrom(g.b, h.b))
    || (g.Merge? && h.Merge? && FoldedFrom(g.a, h.a) && FoldedFrom(g.b, h.b))
    || (g.Rec? && h.Rec? && g.id == h.id && FoldedFrom(g.a, h.a) && FoldedFrom(g.b, h.b))
    || (g.Group? && h.Group? && FoldedFrom(g.body, h.body))
  }

  lemma {:induction false} FoldedShape(g: Graph, h: Graph)
    requires FoldedFrom(g, h)
    ensures NIn(g) == NIn(h) && NOut(g) == NOut(h) && (WellFormed(g) <==> WellFormed(h))
    ensures FeedbackIds(g) == FeedbackIds(h) && Buffers(g) == Buffers(h)
    decreases g
  {
    if g == h {
    } else if g.Prim? {
      ConstGraphRuns(h, g.leaf.val, [], []);
    } else if g.Group? {
      FoldedShape(g.body, h.body);
    } else {
      FoldedShape(g.a, h.a);
      FoldedShape(g.b, h.b);
    }
  }

  /** Replacing constant subgraphs changes no output sample of any run. */
  lemma {:induction false} FoldedRuns(g: Graph, h: Graph, ps: seq<Params>, xs: seq<Frame>)
    requires FoldedFrom(g, h) && WellFormed(g) && WellFormed(h) && |ps| == |xs|
    ensures Run(g, ps, xs) == Run(h, ps, xs)
    decreases g, |xs|, 1
  {
    if g == h {
    } else if g.Prim? {
      ConstGraphRuns(h, g.leaf.val, ps, xs);
      ConstGraphRuns(g, g.leaf.val, ps, xs);
    } else if g.Group? {
      FoldedRuns(g.body, h.body, ps, xs);
    } else {
      FoldedShape(g.a, h.a);
      FoldedShape(g.b, h.b);
      match g
      case Seq(a, b) =>
        FoldedRuns(a, h.a, ps, xs);
        FoldedRuns(b, h.b, ps, Run(a, ps, xs));
      case Par(a, b) =>
        FoldedRuns(a, h.a, ps, Takes(xs, NIn(a)));
        FoldedRuns(b, h.b, ps, Drops(xs, NIn(a)));
      case Split(a, b) =>
        FoldedRuns(a, h.a, ps, xs);
        FoldedRuns(b, h.b, ps, Fans(Run(a, ps, xs), NIn(b)));
      case Merge(a, b) =>
        FoldedRuns(a, h.a, ps, xs);
        FoldedRuns(b, h.b, ps, Folds(Run(a, ps, xs), NIn(b)));
      case Rec(_, _, _) =>
        if xs != [] { FoldedLoopRuns(g, h, ps, xs); }
    }
  }

  lemma {:induction false} FoldedLoopRuns(g: Graph, h: Graph, ps: seq<Params>, xs: seq<Frame>)
    requires g.Rec? && h.Rec? && FoldedFrom(g, h) && FoldedFrom(g.a, h.a) && FoldedFrom(g.b, h.b)
    requires WellFormed(g) && WellFormed(h) && |ps| == |xs| > 0
    requires NIn(g.a) == NIn(h.a) && NOut(g.b) == NOut(h.b)
    ensures Run(g, ps, xs) == Run(h, ps, xs)
    decreases g, |xs|, 0
  {
    hide Run, NIn, NOut, LoopIn, FoldedFrom;
    var n := |xs| - 1;
    FoldedRuns(g, h, ps[..n], xs[..n]);
    var ys := Run(g, ps[..n], xs[..n]);
    FoldedRuns(g.b, h.b, ps[..n], ys);
    var fs := Run(g.b, ps[..n], ys);
    FoldedRuns(g.a, h.a, ps, LoopIn(xs, fs, NIn(g.a) - NOut(g.b), NOut(g.b)));
    RecUnfold(g, ps, xs, fs);
    RecUnfold(h, ps, xs, fs);
  }

  /** Evaluation without folding, with some amount of fuel, builds a graph that g is folded from, and draws the same numbers. */
  ghost predicate Unfolds(e: Expr, env: Env, id: int, g: Graph, next: int) {
    exists fuel: nat, h :: Eval(e, env, fuel, id, false) == Built(h, next) && FoldedFrom(g, h)
  }

  lemma {:induction false} EvalUnfolds(e: Expr, lv: Level, K: Frames, lvl: map<string, Level>, env: Env,
      top: Env, plan: Plan, fuel: nat, id: int)
    requires Hygienic(top, plan) && Over(env, K, top, plan) && Inside(lv, K) && AtLevel(e, lv, top, plan)
    requires Closed(env, K, lvl, top, plan) && LeadsTo(K, lv, plan)
    requires Eval(e, env, fuel, id, true).Built?
    ensures var r := Eval(e, env, fuel, id, true); Unfolds(e, env, id, r.graph, r.next)
    decreases fuel, 2
  {
    hide Hygienic, Over, Closed, LeadsTo, Inside, AtLevel, LookupVal, LookupFunc, TryConst, EvalNode, FoldedFrom, Denotes, Unfolds;
    var r := Eval(e, env, fuel, id, true);
    if e.ENull? {
      FoldedSelf(r.graph);
      Witness(e, env, id, 1, r.graph, r.graph, r.next);
    } else if TryConst(e, env, fuel).Constant? {
      AllMatchSelf(env, K, lvl, top, plan);
      FoldSound(e, lv, K, lvl, env, env, top, plan, fuel);
      ConstantUnfolds(e, env, id, r.graph.leaf.val);
    } else {
      NodeUnfolds(e, lv, K, lvl, env, top, plan, fuel, id);
    }
  }

  lemma Witness(e: Expr, env: Env, id: int, fuel: nat, g: Graph, h: Graph, next: int)
    requires Eval(e, env, fuel, id, false) == Built(h, next) && FoldedFrom(g, h)
    ensures Unfolds(e, env, id, g, next)
  {
    hide Eval, FoldedFrom;
  }

  lemma AllMatchSelf(env: Env, K: Frames, lvl: map<string, Level>, top: Env, plan: Plan)
    requires Closed(env, K, lvl, top, plan)
    ensures AllMatch(env, env, K, top, plan)
  {
    hide AtLevel, LookupVal, Denotes, Closed;
  }

  lemma ConstantUnfolds(e: Expr, env: Env, id: int, v: Sample)
    requires Denotes(e, env, v)
    ensures Unfolds(e, env, id, Prim(Const(v)), id)
  {
    hide ConstGraph, Eval;
    var fuel: nat, h :| ConstGraph(h, v) && Builds(e, env, fuel, h);
    assert Eval(e, env, fuel, id, false) == Built(h, id);
    Witness(e, env, id, fuel, Prim(Const(v)), h, id);
  }

  lemma {:induction false} NodeUnfolds(e: Expr, lv: Level, K: Frames, lvl: map<string, Level>, env: Env,
      top: Env, plan: Plan, fuel: nat, id: int)
    requires fuel > 0 && !e.ENull?
    requires Hygienic(top, plan) && Over(env, K, top, plan) && Inside(lv, K) && AtLevel(e, lv, top, plan)
    requires Closed(env, K, lvl, top, plan) && LeadsTo(K, lv, plan)
    requires EvalNode(e, env, fuel, id, true).Built?
    ensures var r := EvalNode(e, env, fuel, id, true); Unfolds(e, env, id, r.graph, r.next)
    decreases fuel, 1
  {
    hide Hygienic, Over, Closed, LeadsTo, Inside, LookupVal, LookupFunc, LookupNative, TryConst, FoldedFrom, Denotes, Unfolds, Eval;
    match e
    case ECombine(c, l, r) =>
      EvalUnfolds(l, lv, K, lvl, env, top, plan, fuel - 1, id);
      var a := Eval(l, env, fuel - 1, id, true);
      EvalUnfolds(r, lv, K, lvl, env, top, plan, fuel - 1, a.next);
      var b := Eval(r, env, fuel - 1, a.next, true);
      CombineUnfolds(c, l, r, env, id, a.graph, a.next, b.graph, b.next);
    case EGroup(kind, name, body) =>
      EvalUnfolds(body, lv, K, lvl, env, top, plan, fuel - 1, id);
      var b := Eval(body, env, fuel - 1, id, true);
      GroupUnfolds(kind, name, body, env, id, b.graph, b.next);
    case EIdent(n) => IdentUnfolds(n, lv, K, lvl, env, top, plan, fuel, id);
    case ECall(f, args) => CallUnfolds(f, args, lv, K, lvl, env, top, plan, fuel, id);
    case _ => LeafUnfolds(e, env, fuel, id);
  }

  /** Expressions with no evaluated parts are built alike with and without folding. */
  lemma LeafUnfolds(e: Expr, env: Env, fuel: nat, id: int)
    requires fuel > 0 && (e.ENum? || e.EAtom? || e.EFixedDelay?) && EvalNode(e, env, fuel, id, true).Built?
    ensures var r := EvalNode(e, env, fuel, id, true); Unfolds(e, env, id, r.graph, r.next)
  {
    hide TryConst;
    var r := EvalNode(e, env, fuel, id, true);
    Witness(e, env, id, fuel, r.graph, r.graph, r.next);
  }

  lemma CombineUnfolds(c: Combinator, l: Expr, r: Expr, env: Env, id: int, a: Graph, mid: int, b: Graph, next: int)
    requires Unfolds(l, env, id, a, mid) && Unfolds(r, env, mid, b, next)
    ensures var built := Combine(c, a, b, next); Unfolds(ECombine(c, l, r), env, id, built.graph, built.next)
  {
    hide Eval, FoldedFrom;
    var fl: nat, ha :| Eval(l, env, fl, id, false) == Built(ha, mid) && FoldedFrom(a, ha);
    var fr: nat, hb :| Eval(r, env, fr, mid, false) == Built(hb, next) && FoldedFrom(b, hb);
    var f := fl + fr;
    EvalMonotone(l, env, fl, f, id, false);
    EvalMonotone(r, env, fr, f, mid, false);
    CombineFolded(c, a, b, ha, hb, next);
    EvalCombine(c, l, r, env, f, id, ha, mid, hb, next);
    Witness(ECombine(c, l, r), env, id, f + 1, Combine(c, a, b, next).graph, Combine(c, ha, hb, next).graph, Combine(c, a, b, next).next);
  }

  lemma CombineFolded(c: Combinator, a: Graph, b: Graph, ha: Graph, hb: Graph, next: int)
    requires FoldedFrom(a, ha) && FoldedFrom(b, hb)
    ensures FoldedFrom(Combine(c, a, b, next).graph, Combine(c, ha, hb, next).graph)
    ensures Combine(c, a, b, next).next == Combine(c, ha, hb, next).next
  {
  }

  lemma EvalCombine(c: Combinator, l: Expr, r: Expr, env: Env, fuel: nat, id: int, a: Graph, mid: int, b: Graph, next: int)
    requires Eval(l, env, fuel, id, false) == Built(a, mid) && Eval(r, env, fuel, mid, false) == Built(b, next)
    ensures Eval(ECombine(c, l, r), env, fuel + 1, id, false) == Combine(c, a, b, next)
  {
    hide Combine, TryConst;
  }

  lemma GroupUnfolds(kind: string, name: string, body: Expr, env: Env, id: int, b: Graph, next: int)
    requires Unfolds(body, env, id, b, next)
    ensures Unfolds(EGroup(kind, name, body), env, id, Group(b), next)
  {
    var fuel: nat, h :| Eval(body, env, fuel, id, false) == Built(h, next) && FoldedFrom(b, h);
    assert Eval(EGroup(kind, name, body), env, fuel + 1, id, false) == Built(Group(h), next);
    Witness(EGroup(kind, name, body), env, id, fuel + 1, Group(b), Group(h), next);
  }

  lemma {:induction false} IdentUnfolds(n: string, lv: Level, K: Frames, lvl: map<string, Level>, env: Env,
      top: Env, plan: Plan, fuel: nat, id: int)
    requires fuel > 0
    requires Hygienic(top, plan) && Over(env, K, top, plan) && Inside(lv, K) && AtLevel(EIdent(n), lv, top, plan)
    requires Closed(env, K, lvl, top, plan) && LeadsTo(K, lv, plan)
    requires EvalNode(EIdent(n), env, fuel, id, true).Built?
    ensures var r := EvalNode(EIdent(n), env, fuel, id, true); Unfolds(EIdent(n), env, id, r.graph, r.next)
    decreases fuel, 0
  {
    hide Hygienic, Over, Closed, LeadsTo, Inside, AtLevel, LookupVal, LookupFunc, TryConst, FoldedFrom, Denotes, Unfolds, Eval, Below;
    FuncFacts(n, env, K, top, plan);
    var r := EvalNode(EIdent(n), env, fuel, id, true);
    if LookupVal(env, n).Some? {
      var t, lv' := IdentText(n, lv, K, lvl, env, top, plan);
      PlanOf(top, plan);
      AboveClosed(K, lv', env, lvl, top, plan);
      EvalUnfolds(t, lv', Above(K, lv', plan), lvl, env, top, plan, fuel - 1, id);
      IdentStep(n, t, env, id, r.graph, r.next);
    } else if n in top.funcs && top.funcs[n].params == [] {
      ZeroArgBelow(n, lv, K, lvl, env, top, plan);
      CallLeads(n, lv, K, top, plan);
      ZeroArgClosed(n, K, lvl, env, top, plan);
      EvalUnfolds(top.funcs[n].body, BodyOf(plan, n), Push(K, n), lvl, env, top, plan, fuel - 1, id);
      IdentStep(n, top.funcs[n].body, env, id, r.graph, r.next);
    } else {
      UnboundStep(n, env, id, r.graph, r.next);
    }
  }

  lemma IdentStep(n: string, t: Expr, env: Env, id: int, g: Graph, next: int)
    requires if LookupVal(env, n).Some? then t == LookupVal(env, n).value
             else LookupFunc(env, n).Some? && LookupFunc(env, n).value.params == [] && t == LookupFunc(env, n).value.body
    requires Unfolds(t, env, id, g, next)
    ensures Unfolds(EIdent(n), env, id, g, next)
  {
    hide FoldedFrom, TryConst, LookupVal, LookupFunc;
    var fuel: nat, h :| Eval(t, env, fuel, id, false) == Built(h, next) && FoldedFrom(g, h);
    assert Eval(EIdent(n), env, fuel + 1, id, false) == Built(h, next);
    Witness(EIdent(n), env, id, fuel + 1, g, h, next);
  }

  lemma UnboundStep(n: string, env: Env, id: int, g: Graph, next: int)
    requires LookupVal(env, n).None? && (LookupFunc(env, n).None? || LookupFunc(env, n).value.params != [])
    requires g == Prim(Wire) && next == id
    ensures Unfolds(EIdent(n), env, id, g, next)
  {
    hide LookupVal, LookupFunc;
    Witness(EIdent(n), env, id, 1, g, g, next);
  }

  lemma {:induction false} CallUnfolds(f: string, args: seq<Expr>, lv: Level, K: Frames, lvl: map<string, Level>, env: Env,
      top: Env, plan: Plan, fuel: nat, id: int)
    requires fuel > 0
    requires Hygienic(top, plan) && Over(env, K, top, plan) && Inside(lv, K) && AtLevel(ECall(f, args), lv, top, plan)
    requires Closed(env, K, lvl, top, plan) && LeadsTo(K, lv, plan)
    requires EvalNode(ECall(f, args), env, fuel, id, true).Built?
    ensures var r := EvalNode(ECall(f, args), env, fuel, id, true); Unfolds(ECall(f, args), env, id, r.graph, r.next)
    decreases fuel, 0
  {
    hide Hygienic, Over, Closed, AtLevel, LookupVal, LookupFunc, LookupNative, TryConst, FoldedFrom, Denotes, Unfolds, Eval, BindArgs;
    FuncFacts(f, env, K, top, plan);
    CallFacts(f, args, lv, top, plan);
    var r := EvalNode(ECall(f, args), env, fuel, id, true);
    if f in top.funcs {
      var params, body := top.funcs[f].params, top.funcs[f].body;
      var child := CallScope(env, BindArgs(params, args));
      CallClosed(env, child, f, args, lv, K, lvl, top, plan);
      CallLeads(f, lv, K, top, plan);
      EvalUnfolds(body, BodyOf(plan, f), Push(K, f), Relevel(lvl, f, Inner(lv, f, plan), top, plan), child, top, plan, fuel - 1, id);
    }
    CallStep(f, args, env, id, r.graph, r.next);
  }

  lemma CallStep(f: string, args: seq<Expr>, env: Env, id: int, g: Graph, next: int)
    requires !LookupNative(env, f)
    requires LookupFunc(env, f).None? ==> g == Prim(Wire) && next == id
    requires LookupFunc(env, f).Some? ==>
      Unfolds(LookupFunc(env, f).value.body, CallScope(env, BindArgs(LookupFunc(env, f).value.params, args)), id, g, next)
    ensures Unfolds(ECall(f, args), env, id, g, next)
  {
    hide FoldedFrom, TryConst, LookupVal, LookupFunc, LookupNative, BindArgs;
    if LookupFunc(env, f).None? {
      FoldedSelf(g);
      Witness(ECall(f, args), env, id, 1, g, g, next);
    } else {
      var fd := LookupFunc(env, f).value;
      var child := CallScope(env, BindArgs(fd.params, args));
      var fuel: nat, h :| Eval(fd.body, child, fuel, id, false) == Built(h, next) && FoldedFrom(g, h);
      assert Eval(ECall(f, args), env, fuel + 1, id, false) == Built(h, next);
      Witness(ECall(f, args), env, id, fuel + 1, g, h, next);
    }
  }

  lemma FoldedSelf(g: Graph)
    ensures FoldedFrom(g, g)
  {
  }

  /** A program built with folding and the same program built without it have one meaning. */
  lemma {:induction false} EvalPreservesMeaning(e: Expr, top: Env, plan: Plan, fuel: nat, id: int)
    returns (more: nat, h: Graph)
    requires Hygienic(top, plan) && AtLevel(e, Top({}), top, plan) && Eval(e, top, fuel, id, true).Built?
    ensures var r := Eval(e, top, fuel, id, true);
      && Eval(e, top, more, id, false) == Built(h, r.next)
      && (WellFormed(r.graph) <==> WellFormed(h)) && NIn(r.graph) == NIn(h) && NOut(r.graph) == NOut(h)
      && (WellFormed(h) ==> forall ps: seq<Params>, xs: seq<Frame> :: |ps| == |xs| ==> Run(r.graph, ps, xs) == Run(h, ps, xs))
  {
    hide Hygienic, AtLevel, Eval, FoldedFrom, Run, WellFormed, NIn, NOut;
    TopOver(top, plan);
    EvalUnfolds(e, Top({}), NONE, map[], top, top, plan, fuel, id);
    var r := Eval(e, top, fuel, id, true);
    more, h :| Eval(e, top, more, id, false) == Built(h, r.next) && FoldedFrom(r.graph, h);
    FoldedShape(r.graph, h);
    if WellFormed(h) {
      forall ps: seq<Params>, xs: seq<Frame> | |ps| == |xs| ensures Run(r.graph, ps, xs) == Run(h, ps, xs) {
        FoldedRuns(r.graph, h, ps, xs);
      }
    }
  }
}
