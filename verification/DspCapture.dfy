/**
 What happens without hygiene. Arguments are bound by name in a dynamically
 scoped chain, so passing a parameter on under its own name never returns, and a
 parameter can capture a name in an argument from further out and change a constant.
 */
module Capture {
  import opened Wrappers
  import opened Samples
  import opened Graphs
  import opened Exprs
  import opened Evaluator
  import opened Folding

  /** A name bound to itself is looked up for ever, by the folder and by the evaluator. */
  lemma {:induction false} SelfBindingDiverges(n: string, env: Env, fuel: nat, id: int, folding: bool)
    requires LookupVal(env, n) == Some(EIdent(n))
    ensures TryConst(EIdent(n), env, fuel) == Stuck
    ensures Eval(EIdent(n), env, fuel, id, folding) == OutOfFuel
    decreases fuel
  {
    if fuel > 0 {
      SelfBindingDiverges(n, env, fuel - 1, id, folding);
    }
  }

  /** outer(x) = inner(x); inner(x) = x */
  const PASS_ON := Env(
    map[],
    map["outer" := FuncDef(["x"], ECall("inner", [EIdent("x")])), "inner" := FuncDef(["x"], EIdent("x"))],
    {},
    None)

  /** outer(_) passes its parameter on under the same name, and evaluation never returns. */
  lemma {:induction false} PassingOnDiverges(fuel: nat, id: int, folding: bool)
    ensures Eval(ECall("outer", [EAtom(AWire)]), PASS_ON, fuel, id, folding) == OutOfFuel
  {
    if fuel > 1 {
      var wire := EAtom(AWire);
      var c1 := CallScope(PASS_ON, map["x" := wire]);
      InnerDiverges(c1, fuel - 1, id, folding);
      OuterFold(wire, fuel);
      CallBuilt("outer", "x", wire, PASS_ON, fuel, id, folding);
    }
  }

  /** Building a call of a one-parameter function that does not fold is building its body. */
  lemma CallBuilt(f: string, n: string, arg: Expr, env: Env, fuel: nat, id: int, folding: bool)
    requires fuel > 0 && !LookupNative(env, f) && LookupFunc(env, f).Some? && LookupFunc(env, f).value.params == [n]
    requires !TryConst(ECall(f, [arg]), env, fuel).Constant?
    ensures var body := Eval(LookupFunc(env, f).value.body, CallScope(env, map[n := arg]), fuel - 1, id, folding);
      Eval(ECall(f, [arg]), env, fuel, id, folding) == body || Eval(ECall(f, [arg]), env, fuel, id, folding) == OutOfFuel
  {
    hide TryConst, LookupFunc, LookupNative, BindArgs;
    OneArg(n, arg);
  }

  lemma InnerDiverges(c1: Env, fuel: nat, id: int, folding: bool)
    requires c1 == CallScope(PASS_ON, map["x" := EAtom(AWire)]) && fuel > 0
    ensures Eval(ECall("inner", [EIdent("x")]), c1, fuel, id, folding) == OutOfFuel
  {
    var c2 := CallScope(c1, map["x" := EIdent("x")]);
    InnerFold(c1, EAtom(AWire), fuel);
    assert LookupFunc(c1, "inner") == Some(FuncDef(["x"], EIdent("x"))) && !LookupNative(c1, "inner");
    assert LookupVal(c2, "x") == Some(EIdent("x"));
    hide Eval, TryConst, LookupFunc, LookupNative, LookupVal;
    SelfBindingDiverges("x", c2, fuel - 1, id, folding);
    CallBuilt("inner", "x", EIdent("x"), c1, fuel, id, folding);
  }

  lemma OneArg(n: string, e: Expr)
    ensures BindArgs([n], [e]) == map[n := e]
  {
    assert BindArgs([], []) == map[];
  }

  lemma InnerFold(c1: Env, wire: Expr, fuel: nat)
    requires wire == EAtom(AWire) && c1 == CallScope(PASS_ON, map["x" := wire])
    ensures !TryConst(ECall("inner", [EIdent("x")]), c1, fuel).Constant?
  {
    if fuel > 1 {
      assert LookupVal(c1, "x") == Some(wire);
      assert !TryConst(EIdent("x"), c1, fuel - 1).Constant?;
      assert LookupFunc(c1, "inner").value.params == ["x"];
    }
  }

  lemma OuterFold(wire: Expr, fuel: nat)
    requires wire == EAtom(AWire)
    ensures !TryConst(ECall("outer", [wire]), PASS_ON, fuel).Constant?
  {
    if fuel > 0 {
      assert LookupFunc(PASS_ON, "outer").value.params == ["x"];
      assert !TryConst(wire, PASS_ON, fuel - 1).Constant?;
    }
  }

  /** That program breaks the rule on mentions: x is passed on where the callee binds x. */
  lemma PassingOnIsUnhygienic(plan: Plan)
    ensures !(Hygienic(PASS_ON, plan) && AtLevel(ECall("outer", [EAtom(AWire)]), Top({}), PASS_ON, plan))
  {
    if Hygienic(PASS_ON, plan) && AtLevel(ECall("outer", [EAtom(AWire)]), Top({}), PASS_ON, plan) {
      BoundByCall("outer", "x", [EAtom(AWire)], Top({}), PASS_ON, plan);
      assert AtLevel(PASS_ON.funcs["outer"].body, BodyOf(plan, "outer"), PASS_ON, plan);
      BoundByCall("inner", "x", [EIdent("x")], BodyOf(plan, "outer"), PASS_ON, plan);
      PassedOn("x", "outer", "inner", PASS_ON, plan);
    }
  }

  /** No function may pass its parameter to one that binds the same name. */
  lemma PassedOn(n: string, f: string, g: string, top: Env, plan: Plan)
    requires Binds(top, plan, f, n) && Binds(top, plan, g, n)
    ensures !AtLevel(ECall(g, [EIdent(n)]), BodyOf(plan, f), top, plan)
  {
    var arg, lv := EIdent(n), Inner(BodyOf(plan, f), g, plan);
    assert g in lv.since && Shadowed(top, plan, lv.since, n);
    assert [arg][0] == arg && !AtLevel(arg, lv, top, plan);
  }

  /** A call with one argument binds a function's only parameter. */
  lemma BoundByCall(f: string, n: string, args: seq<Expr>, lv: Level, top: Env, plan: Plan)
    requires f in top.funcs && top.funcs[f].params == [n] && |args| == 1 && AtLevel(ECall(f, args), lv, top, plan)
    ensures Binds(top, plan, f, n) && Allowed(f, lv, plan) && f in BodyOf(plan, f).over
  {
    assert n in Given([n], 1) by { assert [n][..1] == [n]; }
  }

  /** y = u; k(y) = x; h(x) = k(w); process = h(y); */
  function Captured(u: Sample, w: Sample): Env {
    Env(map["y" := ENum(u)],
        map["k" := FuncDef(["y"], EIdent("x")), "h" := FuncDef(["x"], ECall("k", [ENum(w)]))],
        {},
        None)
  }

  const CAPTURING: Expr := ECall("h", [EIdent("y")])

  /** h(y) folds to the global y, but built without folding it is the number that k binds y to. */
  lemma {:induction false} CaptureChangesMeaning(u: Sample, w: Sample, id: int)
    ensures TryConst(CAPTURING, Captured(u, w), 5) == Constant(u)
    ensures Eval(CAPTURING, Captured(u, w), 5, id, true) == Built(Prim(Const(u)), id)
    ensures Eval(CAPTURING, Captured(u, w), 5, id, false) == Built(Prim(Const(w)), id)
  {
    FoldsToGlobal(u, w);
    BuildsArgument(u, w, id);
  }

  lemma FoldsToGlobal(u: Sample, w: Sample)
    ensures TryConst(CAPTURING, Captured(u, w), 5) == Constant(u)
  {
    var top := Captured(u, w);
    OneFolded("x", EIdent("y"), top, 4, u);
    var c1 := FoldScope(top, map["x" := ENum(u)]);
    OneFolded("y", ENum(w), c1, 3, w);
    var c2 := FoldScope(c1, map["y" := ENum(w)]);
    assert LookupVal(c2, "x") == Some(ENum(u));
    assert TryConst(EIdent("x"), c2, 3) == Constant(u);
    assert LookupFunc(c1, "k") == Some(FuncDef(["y"], EIdent("x")));
    assert TryConst(ECall("k", [ENum(w)]), c1, 4) == Constant(u);
  }

  lemma OneFolded(n: string, e: Expr, env: Env, fuel: nat, v: Sample)
    requires TryConst(e, env, fuel) == Constant(v)
    ensures FoldArgs([n], [e], env, fuel) == ArgsFolded(map[n := ENum(v)])
  {
    assert FoldArgs([], [], env, fuel) == ArgsFolded(map[]);
    assert map[n := ENum(v)] + map[] == map[n := ENum(v)];
  }

  lemma BuildsArgument(u: Sample, w: Sample, id: int)
    ensures Eval(CAPTURING, Captured(u, w), 5, id, false) == Built(Prim(Const(w)), id)
  {
    var top := Captured(u, w);
    OneArg("x", EIdent("y"));
    OneArg("y", ENum(w));
    var c1 := CallScope(top, map["x" := EIdent("y")]);
    var c2 := CallScope(c1, map["y" := ENum(w)]);
    assert LookupVal(c2, "x") == Some(EIdent("y")) && LookupVal(c2, "y") == Some(ENum(w));
    assert Eval(EIdent("y"), c2, 2, id, false) == Built(Prim(Const(w)), id);
    assert Eval(EIdent("x"), c2, 3, id, false) == Built(Prim(Const(w)), id);
    assert LookupFunc(c1, "k") == Some(FuncDef(["y"], EIdent("x")));
    assert top.natives == {} && top.parent.None?;
    assert !LookupNative(top, "h") && !LookupNative(top, "k");
    assert !LookupNative(c1, "k");
    assert LookupFunc(top, "h") == Some(FuncDef(["x"], ECall("k", [ENum(w)])));
    assert Eval(ECall("k", [ENum(w)]), c1, 4, id, false) == Built(Prim(Const(w)), id);
  }

  /** A body that is the bound parameter of a function in whose scope it may be read is no hygienic text. */
  lemma OutOfScope(n: string, f: string, g: string, top: Env, plan: Plan)
    requires Binds(top, plan, f, n) && g in top.funcs && Known(plan, g) && f in plan.under[g]
    requires top.funcs[g].body == EIdent(n) && n !in top.funcs[g].params
    ensures !Hygienic(top, plan)
  {
    assert Shadowed(top, plan, plan.under[g], n);
    assert !AtLevel(top.funcs[g].body, BodyOf(plan, g), top, plan);
  }

  /** That program breaks the rule on scope: k's body mentions h's parameter. */
  lemma CaptureIsUnhygienic(u: Sample, w: Sample, plan: Plan)
    ensures !(Hygienic(Captured(u, w), plan) && AtLevel(CAPTURING, Top({}), Captured(u, w), plan))
  {
    var top := Captured(u, w);
    if Hygienic(top, plan) && AtLevel(CAPTURING, Top({}), top, plan) {
      BoundByCall("h", "x", [EIdent("y")], Top({}), top, plan);
      assert AtLevel(top.funcs["h"].body, BodyOf(plan, "h"), top, plan);
      BoundByCall("k", "y", [ENum(w)], BodyOf(plan, "h"), top, plan);
      OutOfScope("x", "h", "k", top, plan);
    }
  }
}
