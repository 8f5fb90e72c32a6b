/**
 Constant folding preserves meaning.

 The folder binds arguments by value, the evaluator by name in a dynamically
 scoped chain of environments, so the two agree only when no binding captures a
 name. `Hygienic` is a check on the program text that rules capture out.
 */
module Folding {
  import opened Wrappers
  import opened Samples
  import opened Graphs
  import opened Streams
  import opened Exprs
  import opened Evaluator

  // ---- Graphs that are constants.

  /** A number, or a folded unary operator applied to a constant graph. */
  ghost predicate ConstGraph(g: Graph, v: Sample) {
    || g == Prim(Const(v))
    || (g.Seq? && g.b.Prim? && g.b.leaf.Unary? &&
        exists u :: ConstGraph(g.a, u) && v == Apply1(g.b.leaf.uop, u))
  }

  /** Such a graph has no inputs and no state, and outputs its number on every tick. */
  lemma {:induction false} ConstGraphRuns(g: Graph, v: Sample, ps: seq<Params>, xs: seq<Frame>)
    requires ConstGraph(g, v) && |ps| == |xs|
    ensures WellFormed(g) && NIn(g) == 0 && NOut(g) == 1 && FeedbackIds(g) == {} && Buffers(g) == map[]
    ensures forall t :: 0 <= t < |xs| ==> Run(g, ps, xs)[t] == [v]
    decreases g
  {
    if g != Prim(Const(v)) {
      var u :| ConstGraph(g.a, u) && v == Apply1(g.b.leaf.uop, u);
      ConstGraphRuns(g.a, u, ps, xs);
      var ys := Run(g.a, ps, xs);
      forall t: nat | t < |xs| ensures Run(g, ps, xs)[t] == [v] {
        assert Run(g, ps, xs)[t] == LeafOut(g.b.leaf, ps[t], ys[..t + 1]);
      }
    }
  }

  // ---- Programs without capture.

  /**
   Where a piece of program text stands, at top level or in the body of a function,
   and the functions whose scopes may be open around it when it is read: all of
   them, and those opened since the scope of its own function.
   */
  datatype Level = Top(over: set<string>) | Body(f: string, over: set<string>, since: set<string>)

  /**
   What a check of the program text finds out: the functions that are called and
   those that each of them reaches; the functions in whose scopes each body, and
   each value's text, may be read; and the parameters that calls leave without an
   argument.
   */
  datatype Plan = Plan(
    reach: map<string, set<string>>,
    under: map<string, set<string>>,
    values: map<string, set<string>>,
    open: map<string, set<string>>)

  predicate Known(plan: Plan, f: string) { f in plan.reach && f in plan.under && f in plan.open }

  /** The text of f's body leads to a call of g. */
  predicate Calls(plan: Plan, f: string, g: string) {
    f in plan.reach && g in plan.reach[f]
  }

  /** Function f may be called from text at this level. */
  predicate Below(plan: Plan, f: string, lv: Level) {
    Known(plan, f) && (lv.Body? ==> Calls(plan, lv.f, f))
  }

  function BodyOf(plan: Plan, f: string): Level {
    Body(f, if f in plan.under then plan.under[f] else {}, {})
  }

  /** The level of arguments in a call of f: they may be read in f's scope, and in those that f opens. */
  function Inner(lv: Level, f: string, plan: Plan): Level {
    var entered := {f} + if f in plan.reach then plan.reach[f] else {};
    if lv.Top? then Top(lv.over + entered) else Body(lv.f, lv.over + entered, lv.since + entered)
  }

  /** Parameter n of f gets an argument in every call. */
  ghost predicate Binds(top: Env, plan: Plan, f: string, n: string) {
    f in top.funcs && Known(plan, f) && n in top.funcs[f].params && n !in plan.open[f]
  }

  /** A bound parameter of the function whose text this is. */
  ghost predicate Own(top: Env, plan: Plan, lv: Level, n: string) {
    lv.Body? && Binds(top, plan, lv.f, n)
  }

  /** Some scope among these binds the name. */
  ghost predicate Shadowed(top: Env, plan: Plan, over: set<string>, n: string) {
    exists f :: f in over && Binds(top, plan, f, n)
  }

  /** The parameters that a call with this many arguments binds. */
  function Given(params: seq<string>, count: nat): seq<string> {
    if count <= |params| then params[..count] else params
  }

  /** A call with this many arguments leaves exactly the open parameters unbound. */
  ghost predicate Covers(params: seq<string>, count: nat, open: set<string>) {
    forall n :: n in params ==> (n in Given(params, count) <==> n !in open)
  }

  /**
   Text without skipped declarations whose names are its function's bound
   parameters, which no scope opened since binds too, or names that no scope around
   it binds; and whose calls and values the plan knows and allows.
   */
  ghost predicate AtLevel(e: Expr, lv: Level, top: Env, plan: Plan) {
    match e
    case ECombine(_, l, r) => AtLevel(l, lv, top, plan) && AtLevel(r, lv, top, plan)
    case EGroup(_, _, body) => AtLevel(body, lv, top, plan)
    case EFixedDelay(length) => AtLevel(length, lv, top, plan)
    case EIdent(n) =>
      if Own(top, plan, lv, n) then !Shadowed(top, plan, lv.since, n)
      else
        !Shadowed(top, plan, lv.over, n) &&
        if n in top.vals then n in plan.values && lv.over <= plan.values[n]
        else n in top.funcs && top.funcs[n].params == [] ==> Allowed(n, lv, plan)
    case ECall(n, args) =>
      && (forall i :: 0 <= i < |args| ==> AtLevel(args[i], Inner(lv, n, plan), top, plan))
      && (n in top.funcs ==> Allowed(n, lv, plan) && Covers(top.funcs[n].params, |args|, plan.open[n]))
    case ENull => false
    case _ => true
  }

  /** A call of f from this level is one that the plan reckons with. */
  predicate Allowed(f: string, lv: Level, plan: Plan) {
    Below(plan, f, lv) && lv.over + {f} <= plan.under[f]
  }

  /** The plan follows calls to the end, and no function reaches itself. */
  ghost predicate Planned(plan: Plan) {
    && (forall f :: !Calls(plan, f, f))
    && (forall f, g, h :: Calls(plan, f, g) && Calls(plan, g, h) ==> Calls(plan, f, h))
  }

  /**
   A program that the folder and the evaluator read alike: called functions are not
   recursive, no name is mentioned where another function's scope may capture it,
   each parameter is bound by all calls or by none, and no native function shadows
   a definition.
   */
  ghost predicate Hygienic(top: Env, plan: Plan) {
    && top.parent.None? && Planned(plan)
    && (forall f :: f in top.funcs && Known(plan, f) ==> AtLevel(top.funcs[f].body, BodyOf(plan, f), top, plan))
    && (forall n :: n in top.vals && n in plan.values ==> AtLevel(top.vals[n], Top(plan.values[n]), top, plan))
    && (forall n :: n in top.natives ==> n !in top.funcs)
  }

  // ---- Environments reached during folding and evaluation.

  /**
   The functions whose scopes are open: all of them, and those that lead by calls to
   the text being read, each with the functions opened since.
   */
  datatype Frames = Frames(chain: map<string, set<string>>, all: set<string>)

  function Push(K: Frames, f: string): Frames {
    Frames(map g | g in K.chain.Keys + {f} :: if g == f then {} else K.chain[g] + {f}, K.all + {f})
  }

  /** Parameter n of f, a function of the chain, is not hidden by a scope opened since. */
  ghost predicate Live(K: Frames, f: string, n: string, top: Env, plan: Plan) {
    f in K.chain && Binds(top, plan, f, n) && !Shadowed(top, plan, K.chain[f], n)
  }

  /** An environment built on top of the program that binds parameters of open functions only. */
  ghost predicate Over(env: Env, K: Frames, top: Env, plan: Plan) {
    && (forall n :: LookupFunc(env, n) == if n in top.funcs then Some(top.funcs[n]) else None)
    && (forall n :: LookupNative(env, n) <==> n in top.natives)
    && (forall n :: !Shadowed(top, plan, K.all, n) ==> LookupVal(env, n) == LookupVal(top, n))
  }

  /** Text of this level can be read with these scopes open. */
  ghost predicate Inside(lv: Level, K: Frames) {
    K.all <= lv.over && (lv.Body? ==> lv.f in K.chain && K.chain[lv.f] <= lv.since)
  }

  /** Text of this level can be read wherever the function leads. */
  ghost predicate Carries(lv: Level, f: string, plan: Plan) {
    f in plan.reach && plan.reach[f] <= lv.over && (lv.Body? ==> plan.reach[f] <= lv.since)
  }

  /**
   The live parameters of the functions in the chain are bound, each to text whose
   level lvl gives, which can be read here and wherever the function leads.
   */
  ghost predicate Closed(env: Env, K: Frames, lvl: map<string, Level>, top: Env, plan: Plan) {
    forall f, n :: Live(K, f, n, top, plan) ==>
      && n in lvl && LookupVal(env, n).Some?
      && AtLevel(LookupVal(env, n).value, lvl[n], top, plan)
      && Below(plan, f, lvl[n]) && Inside(lvl[n], K) && Carries(lvl[n], f, plan)
  }

  ghost predicate AgreeOn(E1: Env, E2: Env, K: Frames, top: Env, plan: Plan) {
    forall f, n :: Live(K, f, n, top, plan) ==> LookupVal(E1, n) == LookupVal(E2, n)
  }

  /** Every function of the chain is the level's own or reaches it: at top level there are none. */
  ghost predicate LeadsTo(K: Frames, lv: Level, plan: Plan) {
    forall f :: f in K.chain ==> lv.Body? && (f == lv.f || Calls(plan, f, lv.f))
  }

  /** The open scopes, and the part of the chain that leads to a level. */
  ghost function Above(K: Frames, lv: Level, plan: Plan): (r: Frames)
    ensures LeadsTo(r, lv, plan) && r.all == K.all
    ensures forall f :: f in r.chain ==> f in K.chain && r.chain[f] == K.chain[f]
  {
    var chain := map f | f in K.chain && lv.Body? && (f == lv.f || Calls(plan, f, lv.f)) :: K.chain[f];
    Frames(chain, K.all)
  }

  lemma AboveClosed(K: Frames, lv: Level, env: Env, lvl: map<string, Level>, top: Env, plan: Plan)
    requires Planned(plan) && Closed(env, K, lvl, top, plan) && Inside(lv, K)
    ensures Closed(env, Above(K, lv, plan), lvl, top, plan) && Inside(lv, Above(K, lv, plan))
    ensures Over(env, K, top, plan) ==> Over(env, Above(K, lv, plan), top, plan)
  {
    hide AtLevel, LookupVal, LookupFunc, LookupNative, Calls, Shadowed, Carries;
    var A := Above(K, lv, plan);
    forall f, n | Live(A, f, n, top, plan) ensures Live(K, f, n, top, plan) && Inside(lvl[n], A) {
      assert Live(K, f, n, top, plan);
    }
  }

  /** A called function is new to the chain, and all of the chain leads to it. */
  lemma CallLeads(f: string, lv: Level, K: Frames, top: Env, plan: Plan)
    requires Hygienic(top, plan) && Allowed(f, lv, plan) && LeadsTo(K, lv, plan) && Inside(lv, K)
    ensures f !in K.chain && LeadsTo(Push(K, f), BodyOf(plan, f), plan) && Inside(BodyOf(plan, f), Push(K, f))
    ensures forall g :: g in K.chain ==> Calls(plan, g, f)
    ensures Known(plan, f)
  {
    hide AtLevel, Calls;
    forall g | g in K.chain ensures Calls(plan, g, f) {
      assert g == lv.f || Calls(plan, g, lv.f);
    }
  }

  /** Binding arguments binds the parameters that they are given for. */
  lemma {:induction false} BindArgsKeys(params: seq<string>, args: seq<Expr>)
    ensures forall n :: n in BindArgs(params, args) <==> n in Given(params, |args|)
    ensures forall n :: n in BindArgs(params, args) ==> BindArgs(params, args)[n] in args
    decreases |params|
  {
    if params != [] && args != [] {
      BindArgsKeys(params[1..], args[1..]);
      GivenTail(params, |args|);
    }
  }

  lemma GivenTail(params: seq<string>, count: nat)
    requires params != [] && count > 0
    ensures forall n :: n in Given(params, count) <==> n == params[0] || n in Given(params[1..], count - 1)
  {
    assert Given(params, count) == [params[0]] + Given(params[1..], count - 1);
  }

  /** Folded arguments are numbers: those of the arguments they were folded from. */
  lemma {:induction false} FoldArgsValues(params: seq<string>, args: seq<Expr>, env: Env, fuel: nat)
    requires FoldArgs(params, args, env, fuel).ArgsFolded?
    ensures var m := FoldArgs(params, args, env, fuel).vals;
      && (forall n :: n in m <==> n in Given(params, |args|))
      && (forall n :: n in m ==> n in BindArgs(params, args) && m[n].ENum?)
      && (forall n :: n in m ==> TryConst(BindArgs(params, args)[n], env, fuel) == Constant(m[n].num))
    decreases |params|
  {
    hide TryConst;
    if params != [] && args != [] {
      FoldArgsValues(params[1..], args[1..], env, fuel);
      BindArgsKeys(params[1..], args[1..]);
      GivenTail(params, |args|);
    }
  }

  /** A call binds exactly the parameters that every call of the function binds. */
  lemma CoversBinds(f: string, count: nat, top: Env, plan: Plan)
    requires f in top.funcs && Known(plan, f) && Covers(top.funcs[f].params, count, plan.open[f])
    ensures forall n :: n in Given(top.funcs[f].params, count) <==> Binds(top, plan, f, n)
  {
    assert forall n :: n in Given(top.funcs[f].params, count) ==> n in top.funcs[f].params;
  }

  /** A scope's own bindings come first. */
  lemma ScopeBinds(env: Env, child: Env)
    requires child.parent == Some(env) && forall n :: n in child.vals ==> !child.vals[n].ENull?
    ensures forall n :: LookupVal(child, n) == if n in child.vals then Some(child.vals[n]) else LookupVal(env, n)
  {
  }

  /** Checked text is never the null expression. */
  lemma NotNull(e: Expr, lv: Level, top: Env, plan: Plan)
    requires AtLevel(e, lv, top, plan)
    ensures !e.ENull?
  {
  }

  /** At top level a name means a value of the program. */
  lemma TopValue(n: string, top: Env)
    requires top.parent.None?
    ensures LookupVal(top, n).Some? ==> n in top.vals && LookupVal(top, n).value == top.vals[n]
    ensures n in top.vals && !top.vals[n].ENull? ==> LookupVal(top, n).Some?
  {
  }

  /** A scope for a call of f: its bindings are f's bound parameters, and come first. */
  ghost predicate Extends(env: Env, child: Env, f: string, top: Env, plan: Plan) {
    && (forall n :: n in child.vals <==> Binds(top, plan, f, n))
    && (forall n :: LookupVal(child, n) == if n in child.vals then Some(child.vals[n]) else LookupVal(env, n))
  }

  /** A scope that binds f's parameters is again an environment over the program. */
  lemma ScopeOver(env: Env, child: Env, f: string, K: Frames, top: Env, plan: Plan)
    requires Over(env, K, top, plan) && f in top.funcs && child.parent == Some(env)
    requires child.natives == {} && (child.funcs == env.funcs || child.funcs == map[])
    requires forall n :: n in child.vals <==> Binds(top, plan, f, n)
    requires forall n :: n in child.vals ==> !child.vals[n].ENull?
    ensures Over(child, Push(K, f), top, plan) && Extends(env, child, f, top, plan)
  {
    hide LookupVal;
    ScopeBinds(env, child);
    forall n | !Shadowed(top, plan, Push(K, f).all, n) ensures LookupVal(child, n) == LookupVal(top, n) {
      assert f in Push(K, f).all && !Binds(top, plan, f, n);
      assert !Shadowed(top, plan, K.all, n);
    }
    forall n ensures LookupFunc(child, n) == LookupFunc(env, n) {
      if n in env.funcs {}
    }
    forall n ensures LookupNative(child, n) == LookupNative(env, n) {}
  }

  /** What an environment over the program answers about a function of the program. */
  lemma FuncFacts(f: string, env: Env, K: Frames, top: Env, plan: Plan)
    requires Hygienic(top, plan) && Over(env, K, top, plan)
    ensures LookupFunc(env, f) == if f in top.funcs then Some(top.funcs[f]) else None
    ensures LookupNative(env, f) == (f in top.natives)
    ensures f in top.funcs ==> !LookupNative(env, f)
    ensures f in top.funcs && Known(plan, f) ==> AtLevel(top.funcs[f].body, BodyOf(plan, f), top, plan)
  {
    hide AtLevel, LookupVal, LookupFunc, LookupNative;
  }

  lemma CallFacts(f: string, args: seq<Expr>, lv: Level, top: Env, plan: Plan)
    requires AtLevel(ECall(f, args), lv, top, plan)
    ensures forall i :: 0 <= i < |args| ==> AtLevel(args[i], Inner(lv, f, plan), top, plan)
    ensures f in top.funcs ==> Allowed(f, lv, plan) && Known(plan, f)
    ensures f in top.funcs ==> forall n :: n in Given(top.funcs[f].params, |args|) <==> Binds(top, plan, f, n)
  {
    hide Covers, Given;
    if f in top.funcs { CoversBinds(f, |args|, top, plan); }
  }

  /** Arguments are read where the call is, and where the called function leads. */
  lemma InnerInside(f: string, lv: Level, K: Frames, plan: Plan)
    requires Inside(lv, K)
    ensures Inside(Inner(lv, f, plan), K) && (LeadsTo(K, lv, plan) ==> LeadsTo(K, Inner(lv, f, plan), plan))
    ensures Inside(Inner(lv, f, plan), Push(K, f))
    ensures f in plan.reach ==> Carries(Inner(lv, f, plan), f, plan)
    ensures Below(plan, f, lv) ==> Below(plan, f, Inner(lv, f, plan))
  {
  }

  /** The levels after a call of f from text at level lv. */
  ghost function Relevel(lvl: map<string, Level>, f: string, lv: Level, top: Env, plan: Plan): map<string, Level>
    requires f in top.funcs
  {
    map n | n in lvl.Keys + (set p | p in top.funcs[f].params) :: if Binds(top, plan, f, n) || n !in lvl then lv else lvl[n]
  }

  /** What is live after a call was live before, or is bound by the call. */
  lemma PushLive(K: Frames, f: string, g: string, n: string, top: Env, plan: Plan)
    requires Live(Push(K, f), g, n, top, plan) && g != f
    ensures Live(K, g, n, top, plan) && !Binds(top, plan, f, n)
  {
    hide Binds;
    assert f in Push(K, f).chain[g];
    assert K.chain[g] <= Push(K, f).chain[g];
  }

  /** Text that can be read wherever a function of the chain leads can be read in a call that it leads to. */
  lemma PushInside(K: Frames, f: string, g: string, lv: Level, plan: Plan)
    requires Inside(lv, K) && Carries(lv, g, plan) && Calls(plan, g, f) && f !in K.chain
    ensures Inside(lv, Push(K, f))
  {
  }

  lemma ScopeClosed(env: Env, child: Env, f: string, lv: Level, K: Frames, lvl: map<string, Level>,
      top: Env, plan: Plan)
    requires f in top.funcs && Allowed(f, lv, plan) && Inside(lv, K) && Closed(env, K, lvl, top, plan)
    requires f !in K.chain && forall g :: g in K.chain ==> Calls(plan, g, f)
    requires Extends(env, child, f, top, plan)
    requires forall n :: n in child.vals ==> AtLevel(child.vals[n], Inner(lv, f, plan), top, plan)
    ensures Closed(child, Push(K, f), Relevel(lvl, f, Inner(lv, f, plan), top, plan), top, plan)
  {
    hide AtLevel, LookupVal, Inner, Inside, Carries, Shadowed;
    InnerInside(f, lv, K, plan);
    var lvl' := Relevel(lvl, f, Inner(lv, f, plan), top, plan);
    forall g, n | Live(Push(K, f), g, n, top, plan)
      ensures n in lvl' && LookupVal(child, n).Some? && AtLevel(LookupVal(child, n).value, lvl'[n], top, plan)
      ensures Below(plan, g, lvl'[n]) && Inside(lvl'[n], Push(K, f)) && Carries(lvl'[n], g, plan)
    {
      if g == f {
        assert n in child.vals;
      } else {
        PushLive(K, f, g, n, top, plan);
        assert Live(K, g, n, top, plan);
        PushInside(K, f, g, lvl[n], plan);
      }
    }
  }

  /** Calling f by name keeps environments closed. */
  lemma CallClosed(env: Env, child: Env, f: string, args: seq<Expr>, lv: Level, K: Frames, lvl: map<string, Level>,
      top: Env, plan: Plan)
    requires Hygienic(top, plan) && Over(env, K, top, plan) && Closed(env, K, lvl, top, plan) && Inside(lv, K) && LeadsTo(K, lv, plan)
    requires AtLevel(ECall(f, args), lv, top, plan) && f in top.funcs
    requires child == CallScope(env, BindArgs(top.funcs[f].params, args))
    ensures Over(child, Push(K, f), top, plan)
    ensures Closed(child, Push(K, f), Relevel(lvl, f, Inner(lv, f, plan), top, plan), top, plan)
    ensures Extends(env, child, f, top, plan)
  {
    hide AtLevel, Hygienic, Over, Closed, LookupVal, Below, Binds, Given, LeadsTo, Extends, Inner, Inside, Allowed, Relevel;
    var params := top.funcs[f].params;
    CallFacts(f, args, lv, top, plan);
    FuncFacts(f, env, K, top, plan);
    BindArgsKeys(params, args);
    forall n | n in child.vals ensures !child.vals[n].ENull? {
      NotNull(child.vals[n], Inner(lv, f, plan), top, plan);
    }
    CallLeads(f, lv, K, top, plan);
    ScopeOver(env, child, f, K, top, plan);
    ScopeClosed(env, child, f, lv, K, lvl, top, plan);
  }

  /** The scope of a folded call is closed too: it binds numbers. */
  lemma FoldClosed(env: Env, child: Env, f: string, args: seq<Expr>, fuel: nat, lv: Level, K: Frames, lvl: map<string, Level>,
      top: Env, plan: Plan)
    requires Hygienic(top, plan) && Over(env, K, top, plan) && Closed(env, K, lvl, top, plan) && Inside(lv, K) && LeadsTo(K, lv, plan)
    requires AtLevel(ECall(f, args), lv, top, plan) && f in top.funcs
    requires FoldArgs(top.funcs[f].params, args, env, fuel).ArgsFolded?
    requires child == FoldScope(env, FoldArgs(top.funcs[f].params, args, env, fuel).vals)
    ensures Over(child, Push(K, f), top, plan)
    ensures Closed(child, Push(K, f), Relevel(lvl, f, Inner(lv, f, plan), top, plan), top, plan)
    ensures Extends(env, child, f, top, plan)
  {
    hide TryConst, FoldArgs, Hygienic, Over, Closed, LookupVal, Below, Binds, Given, LeadsTo, Extends, Inner, Inside, Allowed, Relevel;
    var params := top.funcs[f].params;
    CallFacts(f, args, lv, top, plan);
    FuncFacts(f, env, K, top, plan);
    FoldArgsValues(params, args, env, fuel);
    forall n | n in child.vals ensures AtLevel(child.vals[n], Inner(lv, f, plan), top, plan) {}
    CallLeads(f, lv, K, top, plan);
    ScopeOver(env, child, f, K, top, plan);
    ScopeClosed(env, child, f, lv, K, lvl, top, plan);
  }

  // ---- Locality: text at a level depends only on the bindings of the closed set it stands in.

  lemma {:induction false} ConstLocal(e: Expr, lv: Level, K: Frames, lvl: map<string, Level>, E1: Env, E2: Env,
      top: Env, plan: Plan, fuel: nat)
    requires Hygienic(top, plan) && Over(E1, K, top, plan) && Over(E2, K, top, plan) && Inside(lv, K) && AtLevel(e, lv, top, plan)
    requires Closed(E1, K, lvl, top, plan) && Closed(E2, K, lvl, top, plan) && AgreeOn(E1, E2, K, top, plan) && LeadsTo(K, lv, plan)
    ensures TryConst(e, E1, fuel) == TryConst(e, E2, fuel)
    decreases fuel, 1
  {
    if fuel > 0 {
      match e
      case EIdent(n) =>
        IdentLocal(n, lv, K, E1, E2, top, plan);
        if LookupVal(E1, n).Some? {
          var t, lv' := IdentText(n, lv, K, lvl, E1, top, plan);
          AboveLocal(K, lv', E1, E2, lvl, top, plan);
          ConstLocal(t, lv', Above(K, lv', plan), lvl, E1, E2, top, plan, fuel - 1);
        }
      case ECombine(_, l, _) =>
        ConstLocal(l, lv, K, lvl, E1, E2, top, plan, fuel - 1);
      case ECall(f, args) =>
        if f in top.funcs {
          ConstCallLocal(f, args, lv, K, lvl, E1, E2, top, plan, fuel);
        }
      case _ =>
    }
  }

  lemma {:induction false} ConstCallLocal(f: string, args: seq<Expr>, lv: Level, K: Frames, lvl: map<string, Level>, E1: Env, E2: Env,
      top: Env, plan: Plan, fuel: nat)
    requires fuel > 0 && f in top.funcs
    requires Hygienic(top, plan) && Over(E1, K, top, plan) && Over(E2, K, top, plan) && Inside(lv, K) && AtLevel(ECall(f, args), lv, top, plan)
    requires Closed(E1, K, lvl, top, plan) && Closed(E2, K, lvl, top, plan) && AgreeOn(E1, E2, K, top, plan) && LeadsTo(K, lv, plan)
    ensures TryConst(ECall(f, args), E1, fuel) == TryConst(ECall(f, args), E2, fuel)
    decreases fuel, 0
  {
    hide AtLevel, Hygienic, Over, Closed, AgreeOn, LeadsTo, Extends, Binds, Own, Shadowed, Inside, Allowed, Inner, Relevel, LookupVal, LookupFunc, LookupNative, BindArgs, FoldArgs, Below;
    var params, body := top.funcs[f].params, top.funcs[f].body;
    FuncFacts(f, E1, K, top, plan);
    FuncFacts(f, E2, K, top, plan);
    CallFacts(f, args, lv, top, plan);
    InnerInside(f, lv, K, plan);
    ArgsLocal(params, args, Inner(lv, f, plan), K, lvl, E1, E2, top, plan, fuel - 1);
    var folded := FoldArgs(params, args, E1, fuel - 1);
    if folded.ArgsFolded? {
      var c1, c2 := FoldScope(E1, folded.vals), FoldScope(E2, folded.vals);
      FoldClosed(E1, c1, f, args, fuel - 1, lv, K, lvl, top, plan);
      FoldClosed(E2, c2, f, args, fuel - 1, lv, K, lvl, top, plan);
      ScopesAgree(E1, E2, c1, c2, f, K, top, plan);
      CallLeads(f, lv, K, top, plan);
      ConstLocal(body, BodyOf(plan, f), Push(K, f), Relevel(lvl, f, Inner(lv, f, plan), top, plan), c1, c2, top, plan, fuel - 1);
    }
  }

  lemma {:induction false} ArgsLocal(params: seq<string>, args: seq<Expr>, lv: Level, K: Frames, lvl: map<string, Level>,
      E1: Env, E2: Env, top: Env, plan: Plan, fuel: nat)
    requires Hygienic(top, plan) && Over(E1, K, top, plan) && Over(E2, K, top, plan) && Inside(lv, K)
    requires forall i :: 0 <= i < |args| ==> AtLevel(args[i], lv, top, plan)
    requires Closed(E1, K, lvl, top, plan) && Closed(E2, K, lvl, top, plan) && AgreeOn(E1, E2, K, top, plan) && LeadsTo(K, lv, plan)
    ensures FoldArgs(params, args, E1, fuel) == FoldArgs(params, args, E2, fuel)
    decreases fuel, 2, |params|
  {
    hide TryConst, AtLevel, Hygienic, Over, Closed, AgreeOn, LookupVal;
    if params != [] && args != [] {
      ConstLocal(args[0], lv, K, lvl, E1, E2, top, plan, fuel);
      ArgsLocal(params[1..], args[1..], lv, K, lvl, E1, E2, top, plan, fuel);
    }
  }

  lemma AboveLocal(K: Frames, lv: Level, E1: Env, E2: Env, lvl: map<string, Level>, top: Env, plan: Plan)
    requires Hygienic(top, plan) && Inside(lv, K) && Over(E1, K, top, plan) && Over(E2, K, top, plan)
    requires Closed(E1, K, lvl, top, plan) && Closed(E2, K, lvl, top, plan) && AgreeOn(E1, E2, K, top, plan)
    ensures var A := Above(K, lv, plan);
      Closed(E1, A, lvl, top, plan) && Closed(E2, A, lvl, top, plan) && AgreeOn(E1, E2, A, top, plan)
      && LeadsTo(A, lv, plan) && Inside(lv, A) && Over(E1, A, top, plan) && Over(E2, A, top, plan)
  {
    hide AtLevel, LookupVal, Planned, Closed, Inside, Over, Shadowed, Binds;
    AboveClosed(K, lv, E1, lvl, top, plan);
    AboveClosed(K, lv, E2, lvl, top, plan);
    forall f, n | Live(Above(K, lv, plan), f, n, top, plan) ensures LookupVal(E1, n) == LookupVal(E2, n) {
      assert Live(K, f, n, top, plan);
    }
  }

  /** What text at a level says of a name: its function's bound parameter, or a name that no open scope binds. */
  lemma NameAtLevel(n: string, lv: Level, K: Frames, top: Env, plan: Plan)
    requires AtLevel(EIdent(n), lv, top, plan) && Inside(lv, K)
    ensures Own(top, plan, lv, n) ==> Live(K, lv.f, n, top, plan)
    ensures !Own(top, plan, lv, n) ==> !Shadowed(top, plan, K.all, n)
    ensures !Own(top, plan, lv, n) && n in top.vals ==> n in plan.values && K.all <= plan.values[n]
    ensures !Own(top, plan, lv, n) && n !in top.vals && n in top.funcs && top.funcs[n].params == [] ==> Allowed(n, lv, plan)
  {
    hide Binds;
  }

  /** An identifier at a level resolves alike in environments that agree on the closed set. */
  lemma IdentLocal(n: string, lv: Level, K: Frames, E1: Env, E2: Env, top: Env, plan: Plan)
    requires Over(E1, K, top, plan) && Over(E2, K, top, plan) && Inside(lv, K) && AtLevel(EIdent(n), lv, top, plan)
    requires AgreeOn(E1, E2, K, top, plan)
    ensures LookupVal(E1, n) == LookupVal(E2, n)
  {
    hide LookupVal, AtLevel, Own, Shadowed, Binds, Inside;
    NameAtLevel(n, lv, K, top, plan);
  }

  /** The text an identifier is bound to, and the level of that text. */
  lemma IdentText(n: string, lv: Level, K: Frames, lvl: map<string, Level>, env: Env, top: Env, plan: Plan)
    returns (t: Expr, lv': Level)
    requires Hygienic(top, plan) && Over(env, K, top, plan) && Inside(lv, K) && AtLevel(EIdent(n), lv, top, plan)
    requires Closed(env, K, lvl, top, plan) && LookupVal(env, n).Some?
    ensures t == LookupVal(env, n).value && AtLevel(t, lv', top, plan) && Inside(lv', K)
    ensures Own(top, plan, lv, n) ==> n in lvl && lv' == lvl[n]
    ensures !Own(top, plan, lv, n) ==> n in top.vals && n in plan.values && t == top.vals[n] && lv' == Top(plan.values[n])
  {
    NameAtLevel(n, lv, K, top, plan);
    TopValue(n, top);
    hide LookupVal, AtLevel, Own, Shadowed, Binds, Inside;
    t := LookupVal(env, n).value;
    lv' := if Own(top, plan, lv, n) then lvl[n] else Top(plan.values[n]);
  }

  lemma ScopesAgree(E1: Env, E2: Env, c1: Env, c2: Env, f: string, K: Frames, top: Env, plan: Plan)
    requires f in top.funcs && AgreeOn(E1, E2, K, top, plan) && c1.vals == c2.vals
    requires Extends(E1, c1, f, top, plan) && Extends(E2, c2, f, top, plan)
    ensures AgreeOn(c1, c2, Push(K, f), top, plan)
  {
    hide LookupVal, Binds;
    forall g, n | Live(Push(K, f), g, n, top, plan) ensures LookupVal(c1, n) == LookupVal(c2, n) {
      if g == f {
        assert n in c1.vals;
      } else {
        PushLive(K, f, g, n, top, plan);
      }
    }
  }

  lemma {:induction false} EvalLocal(e: Expr, lv: Level, K: Frames, lvl: map<string, Level>, E1: Env, E2: Env,
      top: Env, plan: Plan, fuel: nat, id: int, folding: bool)
    requires Hygienic(top, plan) && Over(E1, K, top, plan) && Over(E2, K, top, plan) && Inside(lv, K) && AtLevel(e, lv, top, plan)
    requires Closed(E1, K, lvl, top, plan) && Closed(E2, K, lvl, top, plan) && AgreeOn(E1, E2, K, top, plan) && LeadsTo(K, lv, plan)
    ensures Eval(e, E1, fuel, id, folding) == Eval(e, E2, fuel, id, folding)
    decreases fuel, 2
  {
    hide AtLevel, Hygienic, Over, Closed, AgreeOn, LeadsTo, Extends, Binds, Own, Shadowed, Inside, Allowed, Inner, Relevel, TryConst, EvalNode;
    if fuel > 0 {
      ConstLocal(e, lv, K, lvl, E1, E2, top, plan, fuel);
      EvalNodeLocal(e, lv, K, lvl, E1, E2, top, plan, fuel, id, folding);
    }
  }

  lemma {:induction false} EvalNodeLocal(e: Expr, lv: Level, K: Frames, lvl: map<string, Level>, E1: Env, E2: Env,
      top: Env, plan: Plan, fuel: nat, id: int, folding: bool)
    requires fuel > 0
    requires Hygienic(top, plan) && Over(E1, K, top, plan) && Over(E2, K, top, plan) && Inside(lv, K) && AtLevel(e, lv, top, plan)
    requires Closed(E1, K, lvl, top, plan) && Closed(E2, K, lvl, top, plan) && AgreeOn(E1, E2, K, top, plan) && LeadsTo(K, lv, plan)
    ensures EvalNode(e, E1, fuel, id, folding) == EvalNode(e, E2, fuel, id, folding)
    decreases fuel, 1
  {
    hide Eval, TryConst;
    match e
    case EIdent(n) =>
      EvalIdentLocal(n, lv, K, lvl, E1, E2, top, plan, fuel, id, folding);
    case ECombine(_, l, r) =>
      EvalLocal(l, lv, K, lvl, E1, E2, top, plan, fuel - 1, id, folding);
      var a := Eval(l, E1, fuel - 1, id, folding);
      if a.Built? {
        EvalLocal(r, lv, K, lvl, E1, E2, top, plan, fuel - 1, a.next, folding);
      }
    case EGroup(_, _, body) =>
      EvalLocal(body, lv, K, lvl, E1, E2, top, plan, fuel - 1, id, folding);
    case EFixedDelay(length) =>
      ConstLocal(length, lv, K, lvl, E1, E2, top, plan, fuel - 1);
    case ECall(f, args) =>
      if f in top.funcs {
        EvalCallLocal(f, args, lv, K, lvl, E1, E2, top, plan, fuel, id, folding);
      }
    case _ =>
  }

  lemma {:induction false} EvalIdentLocal(n: string, lv: Level, K: Frames, lvl: map<string, Level>, E1: Env, E2: Env,
      top: Env, plan: Plan, fuel: nat, id: int, folding: bool)
    requires fuel > 0
    requires Hygienic(top, plan) && Over(E1, K, top, plan) && Over(E2, K, top, plan) && Inside(lv, K) && AtLevel(EIdent(n), lv, top, plan)
    requires Closed(E1, K, lvl, top, plan) && Closed(E2, K, lvl, top, plan) && AgreeOn(E1, E2, K, top, plan) && LeadsTo(K, lv, plan)
    ensures EvalNode(EIdent(n), E1, fuel, id, folding) == EvalNode(EIdent(n), E2, fuel, id, folding)
    decreases fuel, 0
  {
    hide AtLevel, Hygienic, Over, Closed, AgreeOn, LeadsTo, Extends, Binds, Own, Shadowed, Inside, Allowed, Inner, Relevel, Eval, LookupVal, LookupFunc, LookupNative;
    IdentLocal(n, lv, K, E1, E2, top, plan);
    FuncFacts(n, E1, K, top, plan);
    FuncFacts(n, E2, K, top, plan);
    if LookupVal(E1, n).Some? {
      var t, lv' := IdentText(n, lv, K, lvl, E1, top, plan);
      AboveLocal(K, lv', E1, E2, lvl, top, plan);
      EvalLocal(t, lv', Above(K, lv', plan), lvl, E1, E2, top, plan, fuel - 1, id, folding);
    } else if n in top.funcs && top.funcs[n].params == [] {
      ZeroArgBelow(n, lv, K, lvl, E1, top, plan);
      CallLeads(n, lv, K, top, plan);
      ZeroArgClosed(n, K, lvl, E1, top, plan);
      ZeroArgClosed(n, K, lvl, E2, top, plan);
      ZeroArgAgree(n, K, E1, E2, top, plan);
      EvalLocal(top.funcs[n].body, BodyOf(plan, n), Push(K, n), lvl, E1, E2, top, plan, fuel - 1, id, folding);
    }
  }

  /** The body of a function without parameters runs in the caller's environment. */
  lemma ZeroArgClosed(f: string, K: Frames, lvl: map<string, Level>, env: Env, top: Env, plan: Plan)
    requires Hygienic(top, plan) && f in top.funcs && top.funcs[f].params == [] && Known(plan, f)
    requires Over(env, K, top, plan) && Closed(env, K, lvl, top, plan)
    requires f !in K.chain && forall g :: g in K.chain ==> Calls(plan, g, f)
    ensures Over(env, Push(K, f), top, plan) && Closed(env, Push(K, f), lvl, top, plan)
    ensures AtLevel(top.funcs[f].body, BodyOf(plan, f), top, plan)
  {
    assert AtLevel(top.funcs[f].body, BodyOf(plan, f), top, plan);
    hide AtLevel, LookupVal, LookupFunc, LookupNative, Hygienic, Inside, Carries;
    forall n | !Shadowed(top, plan, Push(K, f).all, n) ensures LookupVal(env, n) == LookupVal(top, n) {
      assert !Shadowed(top, plan, K.all, n);
    }
    forall g, n | Live(Push(K, f), g, n, top, plan)
      ensures Live(K, g, n, top, plan) && Inside(lvl[n], Push(K, f))
    {
      assert g != f;
      PushLive(K, f, g, n, top, plan);
      PushInside(K, f, g, lvl[n], plan);
    }
  }

  /** A name without a value that names a function without parameters is a call. */
  lemma ZeroArgBelow(n: string, lv: Level, K: Frames, lvl: map<string, Level>, env: Env, top: Env, plan: Plan)
    requires Hygienic(top, plan) && Over(env, K, top, plan)
    requires n in top.funcs && top.funcs[n].params == [] && LookupVal(env, n).None?
    requires Inside(lv, K) && AtLevel(EIdent(n), lv, top, plan) && Closed(env, K, lvl, top, plan)
    ensures Allowed(n, lv, plan)
  {
    hide LookupVal, LookupFunc, LookupNative, AtLevel, Own;
    Unbound(n, env, lv, K, lvl, top, plan);
    NameAtLevel(n, lv, K, top, plan);
  }

  /** A name without a binding is no bound parameter and no value of the program. */
  lemma Unbound(n: string, env: Env, lv: Level, K: Frames, lvl: map<string, Level>, top: Env, plan: Plan)
    requires Hygienic(top, plan) && Over(env, K, top, plan) && LookupVal(env, n).None?
    requires Inside(lv, K) && AtLevel(EIdent(n), lv, top, plan) && Closed(env, K, lvl, top, plan)
    ensures !Own(top, plan, lv, n) && n !in top.vals
  {
    hide LookupVal, Own, Binds, Below, AtLevel, Shadowed;
    NameAtLevel(n, lv, K, top, plan);
    TopValue(n, top);
    if !Own(top, plan, lv, n) && n in top.vals {
      NotNull(top.vals[n], Top(plan.values[n]), top, plan);
    }
  }

  lemma ZeroArgAgree(f: string, K: Frames, E1: Env, E2: Env, top: Env, plan: Plan)
    requires f in top.funcs && top.funcs[f].params == [] && AgreeOn(E1, E2, K, top, plan)
    ensures AgreeOn(E1, E2, Push(K, f), top, plan)
  {
    hide LookupVal;
    forall g, n | Live(Push(K, f), g, n, top, plan) ensures LookupVal(E1, n) == LookupVal(E2, n) {
      assert g != f;
      PushLive(K, f, g, n, top, plan);
    }
  }

  lemma {:induction false} EvalCallLocal(f: string, args: seq<Expr>, lv: Level, K: Frames, lvl: map<string, Level>, E1: Env, E2: Env,
      top: Env, plan: Plan, fuel: nat, id: int, folding: bool)
    requires fuel > 0 && f in top.funcs
    requires Hygienic(top, plan) && Over(E1, K, top, plan) && Over(E2, K, top, plan) && Inside(lv, K) && AtLevel(ECall(f, args), lv, top, plan)
    requires Closed(E1, K, lvl, top, plan) && Closed(E2, K, lvl, top, plan) && AgreeOn(E1, E2, K, top, plan) && LeadsTo(K, lv, plan)
    ensures EvalNode(ECall(f, args), E1, fuel, id, folding) == EvalNode(ECall(f, args), E2, fuel, id, folding)
    decreases fuel, 0
  {
    hide AtLevel, Hygienic, Over, Closed, AgreeOn, LeadsTo, Extends, Binds, Own, Shadowed, Inside, Allowed, Inner, Relevel, LookupVal, LookupFunc, LookupNative, BindArgs, FoldArgs, Below, Eval;
    var params, body := top.funcs[f].params, top.funcs[f].body;
    FuncFacts(f, E1, K, top, plan);
    FuncFacts(f, E2, K, top, plan);
    var c1, c2 := CallScope(E1, BindArgs(params, args)), CallScope(E2, BindArgs(params, args));
    CallClosed(E1, c1, f, args, lv, K, lvl, top, plan);
    CallClosed(E2, c2, f, args, lv, K, lvl, top, plan);
    ScopesAgree(E1, E2, c1, c2, f, K, top, plan);
    CallFacts(f, args, lv, top, plan);
    CallLeads(f, lv, K, top, plan);
    EvalLocal(body, BodyOf(plan, f), Push(K, f), Relevel(lvl, f, Inner(lv, f, plan), top, plan), c1, c2, top, plan, fuel - 1, id, folding);
  }

  /**
   A name that means nothing at top level and that no open scope binds, such as a
   parameter that calls leave open, does not fold and is built as a wire.
   */
  lemma OpenIsWire(n: string, env: Env, K: Frames, top: Env, plan: Plan, fuel: nat, id: int, folding: bool)
    requires top.parent.None? && Over(env, K, top, plan) && !Shadowed(top, plan, K.all, n)
    requires n !in top.vals && n !in top.funcs && fuel > 0
    ensures TryConst(EIdent(n), env, fuel) == Varies
    ensures Eval(EIdent(n), env, fuel, id, folding) == Built(Prim(Wire), id)
  {
    hide LookupVal, LookupFunc, LookupNative;
    TopValue(n, top);
  }

  // ---- More fuel never changes an answer.

  lemma {:induction false} ConstMonotone(e: Expr, env: Env, fuel: nat, more: nat)
    requires fuel <= more && !TryConst(e, env, fuel).Stuck?
    ensures TryConst(e, env, more) == TryConst(e, env, fuel)
    decreases fuel, 1
  {
    match e
    case EIdent(n) =>
      if LookupVal(env, n).Some? { ConstMonotone(LookupVal(env, n).value, env, fuel - 1, more - 1); }
    case ECombine(c, l, _) =>
      if c.CSeq? { ConstMonotone(l, env, fuel - 1, more - 1); }
    case ECall(f, args) =>
      var fd := LookupFunc(env, f);
      if fd.Some? {
        ArgsMonotone(fd.value.params, args, env, fuel - 1, more - 1);
        var folded := FoldArgs(fd.value.params, args, env, fuel - 1);
        if folded.ArgsFolded? {
          ConstMonotone(fd.value.body, FoldScope(env, folded.vals), fuel - 1, more - 1);
        }
      }
    case _ =>
  }

  lemma {:induction false} ArgsMonotone(params: seq<string>, args: seq<Expr>, env: Env, fuel: nat, more: nat)
    requires fuel <= more && !FoldArgs(params, args, env, fuel).ArgsStuck?
    ensures FoldArgs(params, args, env, more) == FoldArgs(params, args, env, fuel)
    decreases fuel, 2, |params|
  {
    hide TryConst;
    if params != [] && args != [] {
      ConstMonotone(args[0], env, fuel, more);
      if TryConst(args[0], env, fuel).Constant? {
        ArgsMonotone(params[1..], args[1..], env, fuel, more);
      }
    }
  }

  lemma {:induction false} EvalMonotone(e: Expr, env: Env, fuel: nat, more: nat, id: int, folding: bool)
    requires fuel <= more && !Eval(e, env, fuel, id, folding).OutOfFuel?
    ensures Eval(e, env, more, id, folding) == Eval(e, env, fuel, id, folding)
    decreases fuel
  {
    if folding && !e.ENull? {
      ConstMonotone(e, env, fuel, more);
      if TryConst(e, env, fuel).Constant? { return; }
    }
    match e
    case EIdent(n) =>
      var v, fd := LookupVal(env, n), LookupFunc(env, n);
      if v.Some? {
        EvalMonotone(v.value, env, fuel - 1, more - 1, id, folding);
      } else if fd.Some? && fd.value.params == [] {
        EvalMonotone(fd.value.body, env, fuel - 1, more - 1, id, folding);
      }
    case ECombine(_, l, r) =>
      EvalMonotone(l, env, fuel - 1, more - 1, id, folding);
      var a := Eval(l, env, fuel - 1, id, folding);
      if a.Built? {
        EvalMonotone(r, env, fuel - 1, more - 1, a.next, folding);
      }
    case EGroup(_, _, body) => EvalMonotone(body, env, fuel - 1, more - 1, id, folding);
    case EFixedDelay(length) => ConstMonotone(length, env, fuel - 1, more - 1);
    case ECall(f, args) =>
      var fd := LookupFunc(env, f);
      if !LookupNative(env, f) && fd.Some? {
        EvalMonotone(fd.value.body, CallScope(env, BindArgs(fd.value.params, args)), fuel - 1, more - 1, id, folding);
      }
    case _ =>
  }
}
