/**
 Constant folding and evaluation of expressions to graphs.

 Definitions may be recursive, and neither the folder nor the evaluator guards
 against it, so both carry fuel; running out of it is the source's endless
 recursion. Evaluation is one function with a switch: with folding on it is the
 source's evaluator, with folding off it builds every arithmetic node.
 */
module Evaluator {
  import opened Wrappers
  import opened Samples
  import opened Graphs
  import opened Exprs

  datatype FoldResult = Constant(v: Sample) | Varies | Stuck

  datatype ArgsResult = ArgsFolded(vals: map<string, Expr>) | ArgsVary | ArgsStuck

  function FoldUnary(op: string, a: Sample): FoldResult {
    if op == "neg" then Constant(FLOAT.neg(a))
    else if op == "int" then Constant(FLOAT.ofInt(FLOAT.toInt(a)))
    else if op == "float" then Constant(a)
    else if op == "sin" then Constant(FLOAT.sin(a))
    else if op == "cos" then Constant(FLOAT.cos(a))
    else Varies
  }

  /** The scope of a folded call: parameters bound to numbers. */
  function FoldScope(env: Env, vals: map<string, Expr>): Env {
    Env(vals, map[], {}, Some(env))
  }

  /** The scope of an evaluated call: parameters bound to argument expressions. */
  function CallScope(env: Env, vals: map<string, Expr>): Env {
    Env(vals, env.funcs, {}, Some(env))
  }

  function TryConst(e: Expr, env: Env, fuel: nat): FoldResult
    decreases fuel, 1
  {
    if fuel == 0 then Stuck
    else match e
      case ENum(v) => Constant(v)
      case EIdent(n) =>
        var v := LookupVal(env, n);
        if v.Some? then TryConst(v.value, env, fuel - 1) else Varies
      case ECombine(c, l, r) =>
        if !c.CSeq? then Varies
        else
          var a := TryConst(l, env, fuel - 1);
          if !a.Constant? then a
          else if r.EAtom? && r.atom.AUnaryOp? then FoldUnary(r.atom.op, a.v)
          else Varies
      case ECall(n, args) =>
        var fd := LookupFunc(env, n);
        if fd.None? then Varies
        else
          var folded := FoldArgs(fd.value.params, args, env, fuel - 1);
          (match folded
           case ArgsVary => Varies
           case ArgsStuck => Stuck
           case ArgsFolded(vals) => TryConst(fd.value.body, FoldScope(env, vals), fuel - 1))
      case _ => Varies
  }

  /** Arguments are folded left to right; a later parameter of the same name wins. */
  function FoldArgs(params: seq<string>, args: seq<Expr>, env: Env, fuel: nat): ArgsResult
    decreases fuel, 2, |params|
  {
    if params == [] || args == [] then ArgsFolded(map[])
    else
      var a := TryConst(args[0], env, fuel);
      if a.Varies? then ArgsVary
      else if a.Stuck? then ArgsStuck
      else
        var rest := FoldArgs(params[1..], args[1..], env, fuel);
        if rest.ArgsFolded? then ArgsFolded(map[params[0] := ENum(a.v)] + rest.vals) else rest
  }

  function BindArgs(params: seq<string>, args: seq<Expr>): map<string, Expr> {
    if params == [] || args == [] then map[]
    else map[params[0] := args[0]] + BindArgs(params[1..], args[1..])
  }

  function BinOpNamed(op: string): Option<BinOp> {
    if op == "+" then Some(Add) else if op == "-" then Some(Sub)
    else if op == "*" then Some(Mul) else if op == "/" then Some(Div)
    else if op == "%" then Some(Mod) else if op == "^" then Some(Pow)
    else if op == "min" then Some(BinOp.Min) else if op == "max" then Some(BinOp.Max)
    else if op == "&" then Some(And) else if op == "|" then Some(Or)
    else if op == "xor" then Some(Xor) else if op == "<<" then Some(Shl)
    else if op == ">>" then Some(Shr) else if op == "atan2" then Some(Atan2)
    else if op == "remainder" then Some(Rem) else None
  }

  function UnaryOpNamed(op: string): Option<UnaryOp> {
    if op == "sin" then Some(Sin) else if op == "cos" then Some(Cos)
    else if op == "tan" then Some(Tan) else if op == "asin" then Some(Asin)
    else if op == "acos" then Some(Acos) else if op == "atan" then Some(Atan)
    else if op == "sqrt" then Some(Sqrt) else if op == "exp" then Some(Exp)
    else if op == "log" then Some(Log) else if op == "log10" then Some(Log10)
    else if op == "abs" then Some(Abs) else if op == "floor" then Some(Floor)
    else if op == "ceil" then Some(Ceil) else if op == "rint" then Some(Rint)
    else if op == "int" then Some(ToInt) else if op == "float" then Some(ToFloat)
    else if op == "neg" then Some(Neg) else None
  }

  /** The longest delay that a delay operator without a fixed length can serve. */
  const MAX_DELAY := 192000

  /** The node of an atom, numbered id if it has state, and the next free number. */
  function AtomNode(a: Atom, id: int): (Leaf, int) {
    match a
    case AWire => (Wire, id)
    case ACut => (Cut, id)
    case ABinOp(op) => (if BinOpNamed(op).Some? then Binary(BinOpNamed(op).value) else Wire, id)
    case AUnaryOp(op) => (if UnaryOpNamed(op).Some? then Unary(UnaryOpNamed(op).value) else Wire, id)
    case ASelect2 => (Select2, id)
    case AMem => (Mem(id), id + 1)
    case ADelay => (VarDelay(id, MAX_DELAY), id + 1)
    case ASlider(_, name, init, lo, hi, _) => (Slider(name, init, lo, hi), id)
    case AButton(name) => (Button(name), id)
    case ACheckbox(name) => (Checkbox(name), id)
    case ANentry(name, init, lo, hi, _) => (Slider(name, init, lo, hi), id)
  }

  /** Foreign is a node made by a native factory, which the model does not look into. */
  datatype Built = Built(graph: Graph, next: int) | Foreign | OutOfFuel

  function Combine(c: Combinator, a: Graph, b: Graph, id: int): Built {
    match c
    case CSeq => Built(Seq(a, b), id)
    case CPar => Built(Par(a, b), id)
    case CSplit => Built(Split(a, b), id)
    case CMerge => Built(Merge(a, b), id)
    case CRec => Built(Rec(a, b, id), id + 1)
  }

  function Eval(e: Expr, env: Env, fuel: nat, id: int, folding: bool): Built
    decreases fuel, 1
  {
    if fuel == 0 then OutOfFuel
    else if e.ENull? then Built(Prim(Wire), id)
    else
      var folded := if folding then TryConst(e, env, fuel) else Varies;
      match folded
      case Constant(v) => Built(Prim(Const(v)), id)
      case Stuck => OutOfFuel
      case Varies => EvalNode(e, env, fuel, id, folding)
  }

  /** Evaluation of an expression that did not fold. */
  function EvalNode(e: Expr, env: Env, fuel: nat, id: int, folding: bool): Built
    requires fuel > 0
    decreases fuel, 0
  {
    match e
    case ENull => Built(Prim(Wire), id)
    case ENum(v) => Built(Prim(Const(v)), id)
    case EAtom(a) => Built(Prim(AtomNode(a, id).0), AtomNode(a, id).1)
    case ECombine(c, l, r) =>
      var a := Eval(l, env, fuel - 1, id, folding);
      if !a.Built? then a
      else
        var b := Eval(r, env, fuel - 1, a.next, folding);
        if !b.Built? then b else Combine(c, a.graph, b.graph, b.next)
    case EGroup(_, _, body) =>
      var b := Eval(body, env, fuel - 1, id, folding);
      if b.Built? then Built(Group(b.graph), b.next) else b
    case EFixedDelay(length) =>
      var n := TryConst(length, env, fuel - 1);
      if n.Stuck? then OutOfFuel
      else
        var len := if n.Constant? then FLOAT.toInt(n.v) else 4096;
        Built(Prim(FixedDelay(id, Larger(1, len))), id + 1)
    case EIdent(n) =>
      var v := LookupVal(env, n);
      if v.Some? then Eval(v.value, env, fuel - 1, id, folding)
      else
        var fd := LookupFunc(env, n);
        if fd.Some? && fd.value.params == [] then Eval(fd.value.body, env, fuel - 1, id, folding)
        else Built(Prim(Wire), id)
    case ECall(n, args) =>
      if LookupNative(env, n) then Foreign
      else
        var fd := LookupFunc(env, n);
        if fd.None? then Built(Prim(Wire), id)
        else Eval(fd.value.body, CallScope(env, BindArgs(fd.value.params, args)), fuel - 1, id, folding)
  }
}
