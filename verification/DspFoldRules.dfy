/**
 The rules of constant folding: which expressions fold, to which number, and what
 a folded expression is built as.
 */
module FoldRules {
  import opened Wrappers
  import opened Samples
  import opened Exprs
  import opened Graphs
  import opened Evaluator

  /** A number folds to itself; atoms, groups and fixed delays do not fold; a name folds as its value does, where it stands. */
  lemma LeafRules(v: Sample, n: string, kind: string, title: string, a: Atom, body: Expr, env: Env, fuel: nat)
    ensures TryConst(ENum(v), env, fuel + 1) == Constant(v)
    ensures TryConst(EAtom(a), env, fuel + 1) == TryConst(EGroup(kind, title, body), env, fuel + 1) ==
      TryConst(EFixedDelay(body), env, fuel + 1) == Varies
    ensures TryConst(EIdent(n), env, fuel + 1) ==
      if LookupVal(env, n).Some? then TryConst(LookupVal(env, n).value, env, fuel) else Varies
  {
  }

  /** Five functions of one channel fold when they follow a number in sequence; */
  lemma WordRules(l: Expr, env: Env, fuel: nat, v: Sample)
    requires TryConst(l, env, fuel) == Constant(v)
    ensures TryConst(ECombine(CSeq, l, EAtom(AUnaryOp("neg"))), env, fuel + 1) == Constant(FLOAT.neg(v))
    ensures TryConst(ECombine(CSeq, l, EAtom(AUnaryOp("int"))), env, fuel + 1) == Constant(FLOAT.ofInt(FLOAT.toInt(v)))
    ensures TryConst(ECombine(CSeq, l, EAtom(AUnaryOp("float"))), env, fuel + 1) == Constant(v)
    ensures TryConst(ECombine(CSeq, l, EAtom(AUnaryOp("sin"))), env, fuel + 1) == Constant(FLOAT.sin(v))
    ensures TryConst(ECombine(CSeq, l, EAtom(AUnaryOp("cos"))), env, fuel + 1) == Constant(FLOAT.cos(v))
  {
    hide TryConst;
    var words := ["neg", "int", "float", "sin", "cos"];
    forall i | 0 <= i < |words|
      ensures TryConst(ECombine(CSeq, l, EAtom(AUnaryOp(words[i]))), env, fuel + 1) == FoldUnary(words[i], v)
    {
      SequenceRule(l, words[i], env, fuel);
    }
    assert words[0] == "neg" && words[1] == "int" && words[2] == "float" && words[3] == "sin" && words[4] == "cos";
  }

  lemma SequenceRule(l: Expr, op: string, env: Env, fuel: nat)
    ensures var a := TryConst(l, env, fuel);
      TryConst(ECombine(CSeq, l, EAtom(AUnaryOp(op))), env, fuel + 1) == if a.Constant? then FoldUnary(op, a.v) else a
  {
    hide FoldUnary;
  }

  predicate Foldable(op: string) { op == "neg" || op == "int" || op == "float" || op == "sin" || op == "cos" }

  /** no other does, and no other combination folds. */
  lemma OtherRules(c: Combinator, l: Expr, r: Expr, env: Env, fuel: nat)
    ensures c != CSeq ==> TryConst(ECombine(c, l, r), env, fuel + 1) == Varies
    ensures TryConst(l, env, fuel).Constant? && !(r.EAtom? && r.atom.AUnaryOp? && Foldable(r.atom.op)) ==>
      TryConst(ECombine(CSeq, l, r), env, fuel + 1) == Varies
    ensures forall op :: Foldable(op) <==> op == "neg" || op == "int" || op == "float" || op == "sin" || op == "cos"
    ensures !TryConst(l, env, fuel).Constant? ==> TryConst(ECombine(CSeq, l, r), env, fuel + 1) == TryConst(l, env, fuel)
  {
  }

  /** A call folds as the function's body does where the parameters are the numbers that the arguments fold to, and nothing else is defined since. */
  lemma {:induction false} CallRule(n: string, fd: FuncDef, args: seq<Expr>, env: Env, fuel: nat, vals: map<string, Expr>)
    requires LookupFunc(env, n) == Some(fd) && forall i, j :: 0 <= i < j < |fd.params| ==> fd.params[i] != fd.params[j]
    requires forall i :: 0 <= i < |args| && i < |fd.params| ==>
      fd.params[i] in vals && TryConst(args[i], env, fuel).Constant? && vals[fd.params[i]] == ENum(TryConst(args[i], env, fuel).v)
    requires forall p :: p in vals ==> exists i :: 0 <= i < |args| && i < |fd.params| && fd.params[i] == p
    ensures TryConst(ECall(n, args), env, fuel + 1) == TryConst(fd.body, Env(vals, map[], {}, Some(env)), fuel)
  {
    hide TryConst;
    assert Numbers(fd.params, args, env, fuel, vals);
    ArgsRule(fd.params, args, env, fuel, vals);
    CallFolds(n, fd, args, env, fuel, vals);
  }

  lemma CallFolds(n: string, fd: FuncDef, args: seq<Expr>, env: Env, fuel: nat, vals: map<string, Expr>)
    requires LookupFunc(env, n) == Some(fd) && FoldArgs(fd.params, args, env, fuel) == ArgsFolded(vals)
    ensures TryConst(ECall(n, args), env, fuel + 1) == TryConst(fd.body, Env(vals, map[], {}, Some(env)), fuel)
  {
    hide FoldArgs;
  }

  /** These parameters, bound to the numbers that these arguments fold to, and no others. */
  ghost predicate Numbers(params: seq<string>, args: seq<Expr>, env: Env, fuel: nat, vals: map<string, Expr>) {
    && (forall i :: 0 <= i < |args| && i < |params| ==>
         params[i] in vals && TryConst(args[i], env, fuel).Constant? && vals[params[i]] == ENum(TryConst(args[i], env, fuel).v))
    && (forall p :: p in vals ==> exists i :: 0 <= i < |args| && i < |params| && params[i] == p)
  }

  lemma {:induction false} ArgsRule(params: seq<string>, args: seq<Expr>, env: Env, fuel: nat, vals: map<string, Expr>)
    requires forall i, j :: 0 <= i < j < |params| ==> params[i] != params[j]
    requires Numbers(params, args, env, fuel, vals)
    ensures FoldArgs(params, args, env, fuel) == ArgsFolded(vals)
    decreases |params|
  {
    hide TryConst, Numbers;
    if params == [] || args == [] {
      NoNumbers(params, args, env, fuel, vals);
    } else {
      var rest := map p | p in vals && p != params[0] :: vals[p];
      FewerNumbers(params, args, env, fuel, vals, rest);
      ArgsRule(params[1..], args[1..], env, fuel, rest);
    }
  }

  lemma NoNumbers(params: seq<string>, args: seq<Expr>, env: Env, fuel: nat, vals: map<string, Expr>)
    requires Numbers(params, args, env, fuel, vals) && (params == [] || args == [])
    ensures vals == map[]
  {
  }

  lemma FewerNumbers(params: seq<string>, args: seq<Expr>, env: Env, fuel: nat, vals: map<string, Expr>, rest: map<string, Expr>)
    requires Numbers(params, args, env, fuel, vals) && params != [] && args != []
    requires forall i, j :: 0 <= i < j < |params| ==> params[i] != params[j]
    requires rest == map p | p in vals && p != params[0] :: vals[p]
    ensures Numbers(params[1..], args[1..], env, fuel, rest)
    ensures TryConst(args[0], env, fuel).Constant? && vals == map[params[0] := ENum(TryConst(args[0], env, fuel).v)] + rest
  {
    hide TryConst;
    forall i | 0 <= i < |args[1..]| && i < |params[1..]|
      ensures params[1..][i] in rest && TryConst(args[1..][i], env, fuel).Constant?
      ensures rest[params[1..][i]] == ENum(TryConst(args[1..][i], env, fuel).v)
    {
      NextNumber(params, args, env, fuel, vals, i + 1);
    }
    forall p | p in rest ensures exists i :: 0 <= i < |args[1..]| && i < |params[1..]| && params[1..][i] == p {
      var i :| 0 <= i < |args| && i < |params| && params[i] == p;
      assert params[1..][i - 1] == p;
    }
    NextNumber(params, args, env, fuel, vals, 0);
    RestJoins(vals, params[0], rest);
  }

  lemma RestJoins(vals: map<string, Expr>, k: string, rest: map<string, Expr>)
    requires k in vals && rest == map p | p in vals && p != k :: vals[p]
    ensures vals == map[k := vals[k]] + rest
  {
  }

  lemma NextNumber(params: seq<string>, args: seq<Expr>, env: Env, fuel: nat, vals: map<string, Expr>, i: nat)
    requires Numbers(params, args, env, fuel, vals) && i < |args| && i < |params|
    ensures params[i] in vals && TryConst(args[i], env, fuel).Constant? && vals[params[i]] == ENum(TryConst(args[i], env, fuel).v)
  {
    hide TryConst;
  }

  /** A call with an argument that does not fold does not fold, if all before it do; nor does a call of no function. */
  lemma {:induction false} CallVaries(n: string, args: seq<Expr>, env: Env, fuel: nat, k: nat)
    ensures LookupFunc(env, n).None? ==> TryConst(ECall(n, args), env, fuel + 1) == Varies
    ensures LookupFunc(env, n).Some? && k < |LookupFunc(env, n).value.params| && FirstVarying(args, env, fuel, k) ==>
      TryConst(ECall(n, args), env, fuel + 1) == Varies
  {
    if LookupFunc(env, n).Some? && k < |LookupFunc(env, n).value.params| && FirstVarying(args, env, fuel, k) {
      ArgVaries(LookupFunc(env, n).value.params, args, env, fuel, k);
    }
  }

  ghost predicate FirstVarying(args: seq<Expr>, env: Env, fuel: nat, k: nat) {
    k < |args| && TryConst(args[k], env, fuel) == Varies && forall i :: 0 <= i < k ==> TryConst(args[i], env, fuel).Constant?
  }

  lemma {:induction false} ArgVaries(params: seq<string>, args: seq<Expr>, env: Env, fuel: nat, k: nat)
    requires k < |params| && FirstVarying(args, env, fuel, k)
    ensures FoldArgs(params, args, env, fuel) == ArgsVary
    decreases k
  {
    hide TryConst;
    if k > 0 {
      ArgVaries(params[1..], args[1..], env, fuel, k - 1);
    }
  }

  /** With folding, an expression that folds is built as its number and draws no state; one that does not is built as what it is. */
  lemma FoldedIsNumber(e: Expr, env: Env, fuel: nat, id: int)
    requires fuel > 0 && !e.ENull?
    ensures TryConst(e, env, fuel).Constant? ==> Eval(e, env, fuel, id, true) == Built(Prim(Const(TryConst(e, env, fuel).v)), id)
    ensures TryConst(e, env, fuel).Varies? && e.EAtom? ==> Eval(e, env, fuel, id, true) == Eval(e, env, fuel, id, false)
    ensures TryConst(e, env, fuel).Varies? && e.EIdent? && LookupVal(env, e.name).Some? ==>
      Eval(e, env, fuel, id, true) == Eval(LookupVal(env, e.name).value, env, fuel - 1, id, true)
  {
    hide TryConst;
  }
}
