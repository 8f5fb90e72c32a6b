/**
 The folder and the evaluator return on every hygienic program whose definitions
 do not go round in circles: some amount of fuel is always enough.
 */
module Termination {
  import opened Wrappers
  import opened Samples
  import opened Exprs
  import opened Evaluator
  import opened Folding
  import opened FoldSoundness

  ghost predicate ConstEnds(e: Expr, env: Env) {
    exists fuel: nat :: !TryConst(e, env, fuel).Stuck?
  }

  ghost predicate EvalEndsBy(e: Expr, env: Env, fuel: nat) {
    forall id :: !Eval(e, env, fuel, id, true).OutOfFuel?
  }

  ghost predicate EvalEnds(e: Expr, env: Env) {
    exists fuel: nat :: EvalEndsBy(e, env, fuel)
  }

  ghost predicate Ends(e: Expr, env: Env) { ConstEnds(e, env) && EvalEnds(e, env) }

  /** The live parameters of the functions in the chain are bound to text on which evaluation ends. */
  ghost predicate AllEnd(env: Env, K: Frames, top: Env, plan: Plan) {
    forall f, n :: Live(K, f, n, top, plan) ==> LookupVal(env, n).Some? && Ends(LookupVal(env, n).value, env)
  }

  /** Text that mentions only definitions ranked under h. */
  ghost predicate Grounded(e: Expr, h: nat, lv: Level, top: Env, plan: Plan, rank: map<string, nat>) {
    match e
    case ECombine(_, l, r) => Grounded(l, h, lv, top, plan, rank) && Grounded(r, h, lv, top, plan, rank)
    case EGroup(_, _, body) => Grounded(body, h, lv, top, plan, rank)
    case EFixedDelay(length) => Grounded(length, h, lv, top, plan, rank)
    case EIdent(n) =>
      Own(top, plan, lv, n) || (n !in top.vals && !(n in top.funcs && top.funcs[n].params == [])) || (n in rank && rank[n] < h)
    case ECall(n, args) =>
      && (forall i :: 0 <= i < |args| ==> Grounded(args[i], h, Inner(lv, n, plan), top, plan, rank))
      && (n in top.funcs ==> n in rank && rank[n] < h)
    case _ => true
  }

  /** No ranked definition, of a function or of a value, depends on itself. */
  ghost predicate Acyclic(top: Env, plan: Plan, rank: map<string, nat>) {
    && (forall f :: f in top.funcs && f in rank ==> Grounded(top.funcs[f].body, rank[f], BodyOf(plan, f), top, plan, rank))
    && (forall n :: n in top.vals && n in plan.values && n in rank ==>
          Grounded(top.vals[n], rank[n], Top(plan.values[n]), top, plan, rank))
  }

  // ---- Single steps.

  /** Once folding has ended, evaluation ends if the node's construction does with any larger fuel. */
  lemma EvalFromNode(e: Expr, env: Env, k: nat)
    requires ConstEnds(e, env) && k > 0
    requires forall m: nat, id :: m >= k ==> !EvalNode(e, env, m, id, true).OutOfFuel?
    ensures EvalEnds(e, env)
  {
    hide TryConst, EvalNode;
    var c: nat :| !TryConst(e, env, c).Stuck?;
    var m := Larger(c, k);
    ConstMonotone(e, env, c, m);
    forall id ensures !Eval(e, env, m, id, true).OutOfFuel? {
      assert !EvalNode(e, env, m, id, true).OutOfFuel?;
    }
    assert EvalEndsBy(e, env, m);
  }

  lemma EvalLonger(e: Expr, env: Env, fuel: nat, more: nat)
    requires fuel <= more && EvalEndsBy(e, env, fuel)
    ensures EvalEndsBy(e, env, more)
  {
    hide Eval;
    forall id ensures !Eval(e, env, more, id, true).OutOfFuel? {
      EvalMonotone(e, env, fuel, more, id, true);
    }
  }

  lemma PlainEnds(e: Expr, env: Env)
    requires e.ENull? || e.ENum? || e.EAtom?
    ensures Ends(e, env)
  {
    assert !TryConst(e, env, 1).Stuck?;
    assert EvalEndsBy(e, env, 1);
  }

  lemma BoundEnds(n: string, env: Env)
    requires LookupVal(env, n).Some? && Ends(LookupVal(env, n).value, env)
    ensures Ends(EIdent(n), env)
  {
    hide LookupVal;
    var t := LookupVal(env, n).value;
    var c: nat :| !TryConst(t, env, c).Stuck?;
    assert !TryConst(EIdent(n), env, c + 1).Stuck?;
    var k: nat :| EvalEndsBy(t, env, k);
    forall m: nat, id | m >= k + 1 ensures !EvalNode(EIdent(n), env, m, id, true).OutOfFuel? {
      EvalLonger(t, env, k, m - 1);
    }
    EvalFromNode(EIdent(n), env, k + 1);
  }

  /** A name that is no value: the body of a function without parameters, or a wire. */
  lemma UnboundEnds(n: string, env: Env)
    requires LookupVal(env, n).None?
    requires LookupFunc(env, n).Some? && LookupFunc(env, n).value.params == [] ==> Ends(LookupFunc(env, n).value.body, env)
    ensures Ends(EIdent(n), env)
  {
    hide LookupVal, LookupFunc;
    assert !TryConst(EIdent(n), env, 1).Stuck?;
    var fd := LookupFunc(env, n);
    if fd.Some? && fd.value.params == [] {
      var k: nat :| EvalEndsBy(fd.value.body, env, k);
      forall m: nat, id | m >= k + 1 ensures !EvalNode(EIdent(n), env, m, id, true).OutOfFuel? {
        EvalLonger(fd.value.body, env, k, m - 1);
      }
      EvalFromNode(EIdent(n), env, k + 1);
    } else {
      EvalFromNode(EIdent(n), env, 1);
    }
  }

  lemma CombineConstEnds(c: Combinator, l: Expr, r: Expr, env: Env)
    requires ConstEnds(l, env)
    ensures ConstEnds(ECombine(c, l, r), env)
  {
    hide FoldUnary;
    var k: nat :| !TryConst(l, env, k).Stuck?;
    UnaryNotStuck(r, TryConst(l, env, k));
    assert !TryConst(ECombine(c, l, r), env, k + 1).Stuck?;
  }

  lemma UnaryNotStuck(r: Expr, a: FoldResult)
    ensures a.Constant? && r.EAtom? && r.atom.AUnaryOp? ==> !FoldUnary(r.atom.op, a.v).Stuck?
  {
  }

  lemma CombineEnds(c: Combinator, l: Expr, r: Expr, env: Env)
    requires Ends(l, env) && Ends(r, env)
    ensures Ends(ECombine(c, l, r), env)
  {
    hide TryConst;
    CombineConstEnds(c, l, r, env);
    var i: nat :| EvalEndsBy(l, env, i);
    var j: nat :| EvalEndsBy(r, env, j);
    var k := Larger(i, j);
    forall m: nat, id | m >= k + 1 ensures !EvalNode(ECombine(c, l, r), env, m, id, true).OutOfFuel? {
      EvalLonger(l, env, i, m - 1);
      EvalLonger(r, env, j, m - 1);
      hide Eval;
    }
    EvalFromNode(ECombine(c, l, r), env, k + 1);
  }

  lemma GroupEnds(kind: string, name: string, body: Expr, env: Env)
    requires Ends(body, env)
    ensures Ends(EGroup(kind, name, body), env)
  {
    assert !TryConst(EGroup(kind, name, body), env, 1).Stuck?;
    var k: nat :| EvalEndsBy(body, env, k);
    forall m: nat, id | m >= k + 1 ensures !EvalNode(EGroup(kind, name, body), env, m, id, true).OutOfFuel? {
      EvalLonger(body, env, k, m - 1);
    }
    EvalFromNode(EGroup(kind, name, body), env, k + 1);
  }

  lemma FixedDelayEnds(length: Expr, env: Env)
    requires ConstEnds(length, env)
    ensures Ends(EFixedDelay(length), env)
  {
    assert !TryConst(EFixedDelay(length), env, 1).Stuck?;
    var k: nat :| !TryConst(length, env, k).Stuck?;
    forall m: nat, id | m >= k + 1 ensures !EvalNode(EFixedDelay(length), env, m, id, true).OutOfFuel? {
      ConstMonotone(length, env, k, m - 1);
    }
    EvalFromNode(EFixedDelay(length), env, k + 1);
  }

  // ---- Calls.

  lemma {:induction false} ArgsEnd(params: seq<string>, args: seq<Expr>, env: Env) returns (fuel: nat)
    requires forall i :: 0 <= i < |args| ==> ConstEnds(args[i], env)
    ensures !FoldArgs(params, args, env, fuel).ArgsStuck?
    decreases |params|
  {
    fuel := 0;
    if params != [] && args != [] {
      var rest := ArgsEnd(params[1..], args[1..], env);
      assert ConstEnds(args[0], env);
      var c: nat :| !TryConst(args[0], env, c).Stuck?;
      fuel := Larger(c, rest);
      hide TryConst;
      ConstMonotone(args[0], env, c, fuel);
      ArgsMonotone(params[1..], args[1..], env, rest, fuel);
    }
  }

  /** Folding a call ends when the arguments' folding does, and the body's in the scope that they make. */
  lemma CallConstEnds(f: string, args: seq<Expr>, env: Env, fd: FuncDef, fuel: nat)
    requires LookupFunc(env, f) == Some(fd) && !FoldArgs(fd.params, args, env, fuel).ArgsStuck?
    requires var folded := FoldArgs(fd.params, args, env, fuel);
      folded.ArgsFolded? ==> ConstEnds(fd.body, FoldScope(env, folded.vals))
    ensures ConstEnds(ECall(f, args), env)
  {
    hide LookupFunc, FoldArgs;
    var folded := FoldArgs(fd.params, args, env, fuel);
    if folded.ArgsFolded? {
      var child := FoldScope(env, folded.vals);
      var k: nat :| !TryConst(fd.body, child, k).Stuck?;
      var m := Larger(fuel, k);
      ConstMonotone(fd.body, child, k, m);
      ArgsMonotone(fd.params, args, env, fuel, m);
      assert !TryConst(ECall(f, args), env, m + 1).Stuck?;
    } else {
      assert !TryConst(ECall(f, args), env, fuel + 1).Stuck?;
    }
  }

  lemma CallEvalEnds(f: string, args: seq<Expr>, env: Env, fd: FuncDef)
    requires LookupFunc(env, f) == Some(fd) && ConstEnds(ECall(f, args), env)
    requires EvalEnds(fd.body, CallScope(env, BindArgs(fd.params, args)))
    ensures EvalEnds(ECall(f, args), env)
  {
    hide LookupFunc, LookupNative, BindArgs, TryConst;
    var child := CallScope(env, BindArgs(fd.params, args));
    var k: nat :| EvalEndsBy(fd.body, child, k);
    forall m: nat, id | m >= k + 1 ensures !EvalNode(ECall(f, args), env, m, id, true).OutOfFuel? {
      EvalLonger(fd.body, child, k, m - 1);
    }
    EvalFromNode(ECall(f, args), env, k + 1);
  }

  lemma UndefinedCallEnds(f: string, args: seq<Expr>, env: Env)
    requires LookupFunc(env, f).None?
    ensures Ends(ECall(f, args), env)
  {
    hide LookupFunc, LookupNative;
    assert !TryConst(ECall(f, args), env, 1).Stuck?;
    EvalFromNode(ECall(f, args), env, 1);
  }

  /** Ending does not depend on bindings that the text cannot see. */
  lemma EndsLocal(e: Expr, lv: Level, K: Frames, lvl: map<string, Level>, E1: Env, E2: Env,
      top: Env, plan: Plan)
    requires Hygienic(top, plan) && Over(E1, K, top, plan) && Over(E2, K, top, plan) && Inside(lv, K) && AtLevel(e, lv, top, plan)
    requires Closed(E1, K, lvl, top, plan) && Closed(E2, K, lvl, top, plan) && AgreeOn(E1, E2, K, top, plan) && LeadsTo(K, lv, plan)
    requires Ends(e, E1)
    ensures Ends(e, E2)
  {
    hide Eval, TryConst, Hygienic, Over, AtLevel, Closed, AgreeOn, Inside;
    var c: nat :| !TryConst(e, E1, c).Stuck?;
    ConstLocal(e, lv, K, lvl, E1, E2, top, plan, c);
    var k: nat :| EvalEndsBy(e, E1, k);
    forall id ensures !Eval(e, E2, k, id, true).OutOfFuel? {
      EvalLocal(e, lv, K, lvl, E1, E2, top, plan, k, id, true);
    }
    assert EvalEndsBy(e, E2, k);
  }

  /** A scope for f keeps what K's parameters are bound to, and that evaluation of it ends. */
  lemma ScopeEnds(env: Env, child: Env, f: string, lv: Level, K: Frames, lvl: map<string, Level>, top: Env, plan: Plan)
    requires Hygienic(top, plan) && Over(env, K, top, plan) && Over(child, Push(K, f), top, plan) && f in top.funcs
    requires Allowed(f, lv, plan) && LeadsTo(K, lv, plan) && Inside(lv, K)
    requires Closed(env, K, lvl, top, plan) && AllEnd(env, K, top, plan) && Extends(env, child, f, top, plan)
    requires forall n :: n in child.vals ==> Ends(child.vals[n], child)
    ensures AllEnd(child, Push(K, f), top, plan)
  {
    hide Hygienic, Over, AtLevel, LookupVal, Ends, Binds, LeadsTo, Inside, Allowed;
    CallLeads(f, lv, K, top, plan);
    ScopeKeeps(env, child, f, K, lvl, top, plan);
    var D := Beside(K, f);
    forall g, n | Live(Push(K, f), g, n, top, plan)
      ensures LookupVal(child, n).Some? && Ends(LookupVal(child, n).value, child)
    {
      if g == f {
        assert n in child.vals;
      } else {
        PushBeside(K, f, g, n, top, plan);
        BesideLive(K, f, g, n, top, plan);
        AboveLocal(D, lvl[n], env, child, lvl, top, plan);
        EndsLocal(LookupVal(env, n).value, lvl[n], Above(D, lvl[n], plan), lvl, env, child, top, plan);
      }
    }
  }

  // ---- The theorem.

  /** Text whose parameters are bound to text that ends, and whose definitions are acyclic, ends. */
  lemma {:induction false} TextEnds(e: Expr, h: nat, lv: Level, K: Frames, lvl: map<string, Level>, env: Env,
      top: Env, plan: Plan, rank: map<string, nat>)
    requires Hygienic(top, plan) && Acyclic(top, plan, rank) && Over(env, K, top, plan) && Inside(lv, K)
    requires AtLevel(e, lv, top, plan) && Grounded(e, h, lv, top, plan, rank)
    requires Closed(env, K, lvl, top, plan) && LeadsTo(K, lv, plan) && AllEnd(env, K, top, plan)
    ensures Ends(e, env)
    decreases h, e, 1
  {
    hide Hygienic, Acyclic, Over, Closed, LeadsTo, AllEnd, Ends, ConstEnds, EvalEnds;
    match e
    case ECombine(c, l, r) =>
      TextEnds(l, h, lv, K, lvl, env, top, plan, rank);
      TextEnds(r, h, lv, K, lvl, env, top, plan, rank);
      CombineEnds(c, l, r, env);
    case EGroup(kind, name, body) =>
      TextEnds(body, h, lv, K, lvl, env, top, plan, rank);
      GroupEnds(kind, name, body, env);
    case EFixedDelay(length) =>
      TextEnds(length, h, lv, K, lvl, env, top, plan, rank);
      EndsBoth(length, env);
      FixedDelayEnds(length, env);
    case EIdent(n) => IdentEnds(n, h, lv, K, lvl, env, top, plan, rank);
    case ECall(f, args) =>
      FuncFacts(f, env, K, top, plan);
      if f in top.funcs {
        InnerInside(f, lv, K, plan);
        forall i | 0 <= i < |args| ensures Ends(args[i], env) {
          TextEnds(args[i], h, Inner(lv, f, plan), K, lvl, env, top, plan, rank);
        }
        CallEnds(f, args, h, lv, K, lvl, env, top, plan, rank);
      } else {
        UndefinedCallEnds(f, args, env);
      }
    case _ => PlainEnds(e, env);
  }

  lemma EndsBoth(e: Expr, env: Env)
    ensures Ends(e, env) <==> ConstEnds(e, env) && EvalEnds(e, env)
  {
  }

  lemma {:induction false} IdentEnds(n: string, h: nat, lv: Level, K: Frames, lvl: map<string, Level>, env: Env,
      top: Env, plan: Plan, rank: map<string, nat>)
    requires Hygienic(top, plan) && Acyclic(top, plan, rank) && Over(env, K, top, plan) && Inside(lv, K)
    requires AtLevel(EIdent(n), lv, top, plan) && Grounded(EIdent(n), h, lv, top, plan, rank)
    requires Closed(env, K, lvl, top, plan) && LeadsTo(K, lv, plan) && AllEnd(env, K, top, plan)
    ensures Ends(EIdent(n), env)
    decreases h, EIdent(n), 0
  {
    NameFacts(n, h, lv, top, plan, rank);
    hide Hygienic, Acyclic, Over, Closed, LeadsTo, Ends, AtLevel, Grounded, LookupVal, LookupFunc, Binds, Own, Shadowed, Inside, Allowed;
    FuncFacts(n, env, K, top, plan);
    if LookupVal(env, n).Some? {
      var t, lv' := IdentText(n, lv, K, lvl, env, top, plan);
      if Own(top, plan, lv, n) {
        OwnEnds(n, lv, K, env, top, plan);
      } else {
        NoParams(env, K, lvl, plan.values[n], top, plan);
        TextEnds(t, rank[n], Top(plan.values[n]), Frames(map[], K.all), lvl, env, top, plan, rank);
      }
      BoundEnds(n, env);
    } else {
      if n in top.funcs && top.funcs[n].params == [] {
        Unbound(n, env, lv, K, lvl, top, plan);
        ZeroArgBelow(n, lv, K, lvl, env, top, plan);
        CallLeads(n, lv, K, top, plan);
        ZeroArgClosed(n, K, lvl, env, top, plan);
        ZeroArgEnds(env, n, K, top, plan);
        TextEnds(top.funcs[n].body, rank[n], BodyOf(plan, n), Push(K, n), lvl, env, top, plan, rank);
      }
      UnboundEnds(n, env);
    }
  }

  lemma OwnEnds(n: string, lv: Level, K: Frames, env: Env, top: Env, plan: Plan)
    requires Own(top, plan, lv, n) && AtLevel(EIdent(n), lv, top, plan) && Inside(lv, K) && AllEnd(env, K, top, plan)
    ensures LookupVal(env, n).Some? && Ends(LookupVal(env, n).value, env)
  {
    hide Ends, LookupVal, Binds, AtLevel, Own, Inside;
    NameAtLevel(n, lv, K, top, plan);
  }

  /** What the checks on the program say about a name in text that is no bound parameter there. */
  lemma NameFacts(n: string, h: nat, lv: Level, top: Env, plan: Plan, rank: map<string, nat>)
    requires Hygienic(top, plan) && Acyclic(top, plan, rank)
    requires AtLevel(EIdent(n), lv, top, plan) && Grounded(EIdent(n), h, lv, top, plan, rank)
    ensures !Own(top, plan, lv, n) && n in top.vals ==>
      n in plan.values && n in rank && rank[n] < h && lv.over <= plan.values[n]
      && AtLevel(top.vals[n], Top(plan.values[n]), top, plan)
      && Grounded(top.vals[n], rank[n], Top(plan.values[n]), top, plan, rank)
    ensures !Own(top, plan, lv, n) && n in top.funcs && top.funcs[n].params == [] ==>
      n in rank && rank[n] < h && Grounded(top.funcs[n].body, rank[n], BodyOf(plan, n), top, plan, rank)
  {
    hide Own, Binds, Shadowed;
  }

  /** Text of a value reads no parameters. */
  lemma NoParams(env: Env, K: Frames, lvl: map<string, Level>, over: set<string>, top: Env, plan: Plan)
    requires Over(env, K, top, plan) && K.all <= over
    ensures var N := Frames(map[], K.all);
      Closed(env, N, lvl, top, plan) && LeadsTo(N, Top(over), plan) && AllEnd(env, N, top, plan)
      && Inside(Top(over), N) && Over(env, N, top, plan)
  {
    hide LookupVal, LookupFunc, LookupNative, Shadowed;
  }

  lemma ZeroArgEnds(env: Env, f: string, K: Frames, top: Env, plan: Plan)
    requires f in top.funcs && top.funcs[f].params == [] && AllEnd(env, K, top, plan)
    ensures AllEnd(env, Push(K, f), top, plan)
  {
    hide Ends, LookupVal;
    forall g, n | Live(Push(K, f), g, n, top, plan)
      ensures LookupVal(env, n).Some? && Ends(LookupVal(env, n).value, env)
    {
      assert g != f;
      PushLive(K, f, g, n, top, plan);
    }
  }

  lemma {:induction false} CallEnds(f: string, args: seq<Expr>, h: nat, lv: Level, K: Frames, lvl: map<string, Level>, env: Env,
      top: Env, plan: Plan, rank: map<string, nat>)
    requires f in top.funcs && forall i :: 0 <= i < |args| ==> Ends(args[i], env)
    requires Hygienic(top, plan) && Acyclic(top, plan, rank) && Over(env, K, top, plan) && Inside(lv, K)
    requires AtLevel(ECall(f, args), lv, top, plan) && Grounded(ECall(f, args), h, lv, top, plan, rank)
    requires Closed(env, K, lvl, top, plan) && LeadsTo(K, lv, plan) && AllEnd(env, K, top, plan)
    ensures Ends(ECall(f, args), env)
    decreases h, ECall(f, args), 0
  {
    assert rank[f] < h && Grounded(top.funcs[f].body, rank[f], BodyOf(plan, f), top, plan, rank);
    hide Hygienic, Acyclic, Over, Closed, LeadsTo, AllEnd, Ends, AtLevel, Grounded, LookupVal, LookupFunc, LookupNative, BindArgs, FoldArgs, Binds, Extends, Given, Inside, Allowed, Inner, Relevel;
    var fd := top.funcs[f];
    FuncFacts(f, env, K, top, plan);
    CallFacts(f, args, lv, top, plan);
    CallLeads(f, lv, K, top, plan);
    forall i | 0 <= i < |args| ensures ConstEnds(args[i], env) {
      EndsBoth(args[i], env);
    }
    var fuel := ArgsEnd(fd.params, args, env);
    var folded := FoldArgs(fd.params, args, env, fuel);
    if folded.ArgsFolded? {
      var child := FoldScope(env, folded.vals);
      FoldClosed(env, child, f, args, fuel, lv, K, lvl, top, plan);
      FoldArgsValues(fd.params, args, env, fuel);
      forall n | n in child.vals ensures Ends(child.vals[n], child) {
        PlainEnds(child.vals[n], child);
      }
      ScopeEnds(env, child, f, lv, K, lvl, top, plan);
      TextEnds(fd.body, rank[f], BodyOf(plan, f), Push(K, f), Relevel(lvl, f, Inner(lv, f, plan), top, plan), child, top, plan, rank);
      EndsBoth(fd.body, child);
    }
    CallConstEnds(f, args, env, fd, fuel);
    var scope := CallScope(env, BindArgs(fd.params, args));
    CallClosed(env, scope, f, args, lv, K, lvl, top, plan);
    BindArgsKeys(fd.params, args);
    ScopeKeeps(env, scope, f, K, lvl, top, plan);
    ArgsBeside(f, lv, K, plan);
    forall n | n in scope.vals ensures Ends(scope.vals[n], scope) {
      EndsLocal(scope.vals[n], Inner(lv, f, plan), Beside(K, f), lvl, env, scope, top, plan);
    }
    ScopeEnds(env, scope, f, lv, K, lvl, top, plan);
    TextEnds(fd.body, rank[f], BodyOf(plan, f), Push(K, f), Relevel(lvl, f, Inner(lv, f, plan), top, plan), scope, top, plan, rank);
    EndsBoth(fd.body, scope);
    CallEvalEnds(f, args, env, fd);
    EndsBoth(ECall(f, args), env);
  }

  /** Folding and evaluation of any text of the program end. */
  lemma {:induction false} ProgramEnds(e: Expr, h: nat, top: Env, plan: Plan, rank: map<string, nat>) returns (fuel: nat)
    requires Hygienic(top, plan) && Acyclic(top, plan, rank) && AtLevel(e, Top({}), top, plan) && Grounded(e, h, Top({}), top, plan, rank)
    ensures forall more: nat :: more >= fuel ==> !TryConst(e, top, more).Stuck?
    ensures forall more: nat, id :: more >= fuel ==> !Eval(e, top, more, id, true).OutOfFuel?
  {
    hide AtLevel, Acyclic, Grounded, TryConst, Eval;
    TopOver(top, plan);
    NoParams(top, NONE, map[], {}, top, plan);
    TextEnds(e, h, Top({}), NONE, map[], top, top, plan, rank);
    var c: nat :| !TryConst(e, top, c).Stuck?;
    var k: nat :| EvalEndsBy(e, top, k);
    fuel := Larger(c, k);
    forall more: nat | more >= fuel ensures !TryConst(e, top, more).Stuck? {
      ConstMonotone(e, top, c, more);
    }
    forall more: nat, id | more >= fuel ensures !Eval(e, top, more, id, true).OutOfFuel? {
      EvalLonger(e, top, k, more);
    }
  }
}
