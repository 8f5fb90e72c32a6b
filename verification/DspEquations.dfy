/**
 The equations of the language: what each combinator, operator, control and name
 means, sample by sample.
 */
module Equations {
  import opened Wrappers
  import opened Samples
  import opened Exprs
  import opened Evaluator
  import opened Graphs
  import opened Streams
  import opened Meanings
  import Folding

  // ---- Combinators.

  /** l : r feeds the one into the other. */
  lemma SeqMeans(l: Expr, r: Expr, env: Env, fuel: nat, ps: seq<Params>, xs: seq<Frame>)
    requires ArityOf(l, env, fuel).Some? && ArityOf(r, env, fuel).Some? && |ps| == |xs|
    ensures var a, b, e := ArityOf(l, env, fuel).value, ArityOf(r, env, fuel).value, ECombine(CSeq, l, r);
      && ArityOf(e, env, fuel + 1) == Some(Arity(a.ins, b.outs))
      && Sound(e, env, fuel + 1, ps, xs) == Sound(r, env, fuel, ps, Sound(l, env, fuel, ps, xs))
  {
    SoundUnfolds(ECombine(CSeq, l, r), env, fuel + 1, ps, xs);
  }

  /** l , r get their own channels, in order, and give their own. */
  lemma ParMeans(l: Expr, r: Expr, env: Env, fuel: nat, ps: seq<Params>, xs: seq<Frame>, ls: seq<Frame>, rs: seq<Frame>)
    requires ArityOf(l, env, fuel).Some? && ArityOf(r, env, fuel).Some? && |ps| == |xs| == |ls| == |rs|
    requires var a, b := ArityOf(l, env, fuel).value, ArityOf(r, env, fuel).value;
      forall t :: 0 <= t < |xs| ==> xs[t] == ls[t] + rs[t] && |ls[t]| == a.ins && |rs[t]| == b.ins
    ensures var a, b, e := ArityOf(l, env, fuel).value, ArityOf(r, env, fuel).value, ECombine(CPar, l, r);
      && ArityOf(e, env, fuel + 1) == Some(Arity(a.ins + b.ins, a.outs + b.outs))
      && forall t :: 0 <= t < |xs| ==>
        Sound(e, env, fuel + 1, ps, xs)[t] == Sound(l, env, fuel, ps, ls)[t] + Sound(r, env, fuel, ps, rs)[t]
  {
    hide Sound, ArityOf, Takes, Drops;
    JoinedArity(CPar, l, r, env, fuel);
    SoundUnfolds(ECombine(CPar, l, r), env, fuel + 1, ps, xs);
    PartsAre(xs, ls, rs, ArityOf(l, env, fuel).value.ins);
  }

  lemma PartsAre(xs: seq<Frame>, ls: seq<Frame>, rs: seq<Frame>, n: nat)
    requires |xs| == |ls| == |rs| && forall t :: 0 <= t < |xs| ==> xs[t] == ls[t] + rs[t] && |ls[t]| == n
    ensures Takes(xs, n) == ls && Drops(xs, n) == rs
  {
    forall t | 0 <= t < |xs| ensures Takes(xs, n)[t] == ls[t] && Drops(xs, n)[t] == rs[t] {}
  }

  /** l <: r feeds every input i of r from output i modulo the number of l's. */
  lemma SplitMeans(l: Expr, r: Expr, env: Env, fuel: nat, ps: seq<Params>, xs: seq<Frame>, zs: seq<Frame>)
    requires ArityOf(l, env, fuel).Some? && ArityOf(r, env, fuel).Some? && |ps| == |xs| == |zs|
    requires ArityOf(l, env, fuel).value.outs > 0
    requires var ys, n := Sound(l, env, fuel, ps, xs), ArityOf(r, env, fuel).value.ins;
      forall t :: 0 <= t < |xs| ==> |zs[t]| == n && forall i :: 0 <= i < n ==> zs[t][i] == ys[t][i % |ys[t]|]
    ensures var a, b, e := ArityOf(l, env, fuel).value, ArityOf(r, env, fuel).value, ECombine(CSplit, l, r);
      && ArityOf(e, env, fuel + 1) == Some(Arity(a.ins, b.outs))
      && Sound(e, env, fuel + 1, ps, xs) == Sound(r, env, fuel, ps, zs)
  {
    hide Sound, ArityOf, Fans, Folds;
    JoinedArity(CSplit, l, r, env, fuel);
    SoundUnfolds(ECombine(CSplit, l, r), env, fuel + 1, ps, xs);
    FansAre(Sound(l, env, fuel, ps, xs), ArityOf(r, env, fuel).value.ins, zs);
  }

  lemma JoinedArity(c: Combinator, l: Expr, r: Expr, env: Env, fuel: nat)
    requires ArityOf(l, env, fuel).Some? && ArityOf(r, env, fuel).Some?
    ensures ArityOf(ECombine(c, l, r), env, fuel + 1) == Joined(c, ArityOf(l, env, fuel).value, ArityOf(r, env, fuel).value)
  {
    hide Joined;
  }

  lemma FansAre(ys: seq<Frame>, n: nat, zs: seq<Frame>)
    requires |ys| == |zs| && forall t :: 0 <= t < |ys| ==> ys[t] != []
    requires forall t :: 0 <= t < |zs| ==> |zs[t]| == n && forall i :: 0 <= i < n ==> zs[t][i] == ys[t][i % |ys[t]|]
    ensures Fans(ys, n) == zs
  {
    forall t: nat | t < |zs| ensures Fans(ys, n)[t] == zs[t] {
      assert Fans(ys, n)[t] == Fan(ys[t], n);
    }
  }

  /** l :> r adds up, for every input j of r, the outputs of l that are j modulo the number of r's inputs. */
  lemma MergeMeans(l: Expr, r: Expr, env: Env, fuel: nat, ps: seq<Params>, xs: seq<Frame>)
    requires ArityOf(l, env, fuel).Some? && ArityOf(r, env, fuel).Some? && |ps| == |xs|
    requires ArityOf(r, env, fuel).value.ins > 0
    ensures var a, b, e := ArityOf(l, env, fuel).value, ArityOf(r, env, fuel).value, ECombine(CMerge, l, r);
      && ArityOf(e, env, fuel + 1) == Some(Arity(a.ins, b.outs))
      && Sound(e, env, fuel + 1, ps, xs) == Sound(r, env, fuel, ps, Folds(Sound(l, env, fuel, ps, xs), b.ins))
  {
    SoundUnfolds(ECombine(CMerge, l, r), env, fuel + 1, ps, xs);
  }

  /** l ~ r: the outputs of l, whose inputs after the first ones are r's outputs of one sample period ago, zeros at the start. */
  lemma {:induction false} RecMeans(l: Expr, r: Expr, env: Env, fuel: nat, ps: seq<Params>, xs: seq<Frame>, zs: seq<Frame>)
    requires ArityOf(l, env, fuel).Some? && ArityOf(r, env, fuel).Some? && |ps| == |xs| == |zs|
    requires ArityOf(r, env, fuel).value.outs <= ArityOf(l, env, fuel).value.ins
    requires ArityOf(ECombine(CRec, l, r), env, fuel + 1).Some?
    requires var a, b := ArityOf(l, env, fuel).value, ArityOf(r, env, fuel).value;
      var fs := Sound(r, env, fuel, ps, Sound(ECombine(CRec, l, r), env, fuel + 1, ps, xs));
      forall t :: 0 <= t < |xs| ==>
        |xs[t]| == a.ins - b.outs && zs[t] == xs[t] + if t == 0 then Zeros(b.outs) else fs[t - 1]
    ensures var a, b, e := ArityOf(l, env, fuel).value, ArityOf(r, env, fuel).value, ECombine(CRec, l, r);
      && ArityOf(e, env, fuel + 1) == Some(Arity(a.ins - b.outs, a.outs))
      && Sound(e, env, fuel + 1, ps, xs) == Sound(l, env, fuel, ps, zs)
  {
    hide Sound, ArityOf, LoopIn, Zeros;
    var e, a, b := ECombine(CRec, l, r), ArityOf(l, env, fuel).value, ArityOf(r, env, fuel).value;
    JoinedArity(CRec, l, r, env, fuel);
    LoopMeans(l, r, env, fuel, ps, xs);
    LoopInIs(xs, Sound(r, env, fuel, ps, Sound(e, env, fuel + 1, ps, xs)), a.ins - b.outs, b.outs, zs);
  }

  /** Two expressions with arities have one together unless a split has nothing to give, a merge nowhere to put it, or a loop feeds back more than fits. */
  lemma FitMeans(c: Combinator, l: Expr, r: Expr, env: Env, fuel: nat)
    requires ArityOf(l, env, fuel).Some? && ArityOf(r, env, fuel).Some?
    ensures var a, b := ArityOf(l, env, fuel).value, ArityOf(r, env, fuel).value;
      ArityOf(ECombine(c, l, r), env, fuel + 1).None? <==>
        || (c == CSplit && a.outs == 0 && b.ins > 0)
        || (c == CMerge && a.outs > 0 && b.ins == 0)
        || (c == CRec && b.outs > a.ins)
  {
    hide ArityOf;
    JoinedArity(c, l, r, env, fuel);
  }

  lemma LoopInIs(xs: seq<Frame>, fs: seq<Frame>, ext: nat, n: nat, zs: seq<Frame>)
    requires |xs| == |fs| == |zs| && forall t :: 0 <= t < |fs| ==> |fs[t]| == n
    requires forall t :: 0 <= t < |xs| ==> |xs[t]| == ext && zs[t] == xs[t] + if t == 0 then Zeros(n) else fs[t - 1]
    ensures LoopIn(xs, fs, ext, n) == zs
  {
    forall t: nat | t < |xs| ensures LoopIn(xs, fs, ext, n)[t] == zs[t] {
      assert Pad(xs[t], ext) == xs[t];
    }
  }

  /** The feedback equation holds of the whole stream. */
  lemma {:induction false} LoopMeans(l: Expr, r: Expr, env: Env, fuel: nat, ps: seq<Params>, xs: seq<Frame>)
    requires ArityOf(l, env, fuel).Some? && ArityOf(r, env, fuel).Some? && |ps| == |xs|
    requires ArityOf(ECombine(CRec, l, r), env, fuel + 1).Some?
    requires ArityOf(r, env, fuel).value.outs <= ArityOf(l, env, fuel).value.ins
    ensures var a, b, ys := ArityOf(l, env, fuel).value, ArityOf(r, env, fuel).value, Sound(ECombine(CRec, l, r), env, fuel + 1, ps, xs);
      ys == Sound(l, env, fuel, ps, LoopIn(xs, Sound(r, env, fuel, ps, ys), a.ins - b.outs, b.outs))
  {
    hide Sound, ArityOf, Eval, Run, WellFormed, NIn, NOut, LoopIn;
    var e := ECombine(CRec, l, r);
    LoopBuilt(l, r, env, fuel);
    var a := Eval(l, env, fuel, 0, false);
    var b := Eval(r, env, fuel, a.next, false);
    var g := Eval(e, env, fuel + 1, 0, false).graph;
    EvalSounds(e, env, fuel + 1, 0, ps, xs);
    var ys := Sound(e, env, fuel + 1, ps, xs);
    EvalSounds(r, env, fuel, a.next, ps, ys);
    LoopOfRun(a.graph, b.graph, g.id, ps, xs, ys);
    EvalSounds(l, env, fuel, 0, ps, LoopIn(xs, Sound(r, env, fuel, ps, ys), NIn(a.graph) - NOut(b.graph), NOut(b.graph)));
  }

  lemma LoopBuilt(l: Expr, r: Expr, env: Env, fuel: nat)
    requires ArityOf(ECombine(CRec, l, r), env, fuel + 1).Some?
    ensures ArityOf(l, env, fuel).Some? && ArityOf(r, env, fuel).Some?
    ensures var a, g := Eval(l, env, fuel, 0, false), Eval(ECombine(CRec, l, r), env, fuel + 1, 0, false);
      a.Built? && g.Built? &&
      var b := Eval(r, env, fuel, a.next, false);
      && b.Built? && WellFormed(a.graph) && WellFormed(b.graph) && WellFormed(g.graph)
      && ArityOf(l, env, fuel).value == Arity(NIn(a.graph), NOut(a.graph))
      && ArityOf(r, env, fuel).value == Arity(NIn(b.graph), NOut(b.graph))
      && g.graph.Rec? && g.graph.a == a.graph && g.graph.b == b.graph && NOut(b.graph) <= NIn(a.graph)
  {
    hide Eval, ArityOf, WellFormed, NIn, NOut;
    EvalHasArity(ECombine(CRec, l, r), env, fuel + 1, 0);
    OperandsBuilt(ECombine(CRec, l, r), env, fuel + 1, 0);
  }

  lemma LoopOfRun(a: Graph, b: Graph, id: int, ps: seq<Params>, xs: seq<Frame>, ys: seq<Frame>)
    requires WellFormed(Rec(a, b, id)) && |ps| == |xs| && ys == Run(Rec(a, b, id), ps, xs)
    ensures WellFormed(a) && WellFormed(b) && NOut(b) <= NIn(a)
    ensures ys == Run(a, ps, LoopIn(xs, Run(b, ps, ys), NIn(a) - NOut(b), NOut(b)))
  {
    hide Run, WellFormed, NIn, NOut, LoopIn, SolvesLoop;
    RecShape(Rec(a, b, id));
    RecSolvesLoop(a, b, id, ps, xs);
    SolvesIs(a, b, ps, xs, ys);
  }

  // ---- Words.

  /** Channel c of the frame that arrives now, or zero. */
  lemma ChannelIs(x: Frame, c: nat)
    ensures At(x, c) == if c < |x| then x[c] else ZERO
  {
  }

  lemma NamedBinary(op: string, o: BinOp, p: Params, h: seq<Frame>)
    requires h != [] && BinOpNamed(op) == Some(o)
    ensures Word(ABinOp(op), p, h) == [Apply2(o, At(h[|h| - 1], 0), At(h[|h| - 1], 1))]
  {
    hide BinOpNamed, Apply2, At;
  }

  lemma NamedUnary(op: string, o: UnaryOp, p: Params, h: seq<Frame>)
    requires h != [] && UnaryOpNamed(op) == Some(o)
    ensures Word(AUnaryOp(op), p, h) == [Apply1(o, At(h[|h| - 1], 0))]
  {
    hide UnaryOpNamed, Apply1, At;
  }

  lemma SymbolNames()
    ensures BinOpNamed("+") == Some(Add)
    ensures BinOpNamed("-") == Some(Sub)
    ensures BinOpNamed("*") == Some(Mul)
    ensures BinOpNamed("/") == Some(Div)
    ensures BinOpNamed("%") == Some(Mod)
    ensures BinOpNamed("^") == Some(Pow)
    ensures BinOpNamed("min") == Some(BinOp.Min)
    ensures BinOpNamed("max") == Some(BinOp.Max)
  {
  }

  lemma MoreBinaryNames()
    ensures BinOpNamed("&") == Some(And)
    ensures BinOpNamed("|") == Some(Or)
    ensures BinOpNamed("xor") == Some(Xor)
    ensures BinOpNamed("<<") == Some(Shl)
    ensures BinOpNamed(">>") == Some(Shr)
    ensures BinOpNamed("atan2") == Some(Atan2)
    ensures BinOpNamed("remainder") == Some(Rem)
  {
  }

  lemma AngleNames()
    ensures UnaryOpNamed("sin") == Some(Sin)
    ensures UnaryOpNamed("cos") == Some(Cos)
    ensures UnaryOpNamed("tan") == Some(Tan)
    ensures UnaryOpNamed("asin") == Some(Asin)
    ensures UnaryOpNamed("acos") == Some(Acos)
    ensures UnaryOpNamed("atan") == Some(Atan)
  {
  }

  lemma GrowthNames()
    ensures UnaryOpNamed("sqrt") == Some(Sqrt)
    ensures UnaryOpNamed("exp") == Some(Exp)
    ensures UnaryOpNamed("log") == Some(Log)
    ensures UnaryOpNamed("log10") == Some(Log10)
    ensures UnaryOpNamed("abs") == Some(Abs)
    ensures UnaryOpNamed("floor") == Some(Floor)
  {
  }

  lemma RoundingNames()
    ensures UnaryOpNamed("ceil") == Some(Ceil)
    ensures UnaryOpNamed("rint") == Some(Rint)
    ensures UnaryOpNamed("int") == Some(ToInt)
    ensures UnaryOpNamed("float") == Some(ToFloat)
    ensures UnaryOpNamed("neg") == Some(Neg)
  {
  }

  /** How many channels the words take and give. */
  lemma AtomArities(env: Env, fuel: nat)
    requires fuel > 0
    ensures ArityOf(EAtom(AWire), env, fuel) == Some(Arity(1, 1)) && ArityOf(EAtom(ACut), env, fuel) == Some(Arity(1, 0))
    ensures ArityOf(EAtom(AMem), env, fuel) == Some(Arity(1, 1)) && ArityOf(EAtom(ADelay), env, fuel) == Some(Arity(2, 1))
    ensures ArityOf(EAtom(ASelect2), env, fuel) == Some(Arity(3, 1))
    ensures forall op :: ArityOf(EAtom(AUnaryOp(op)), env, fuel) == Some(Arity(1, 1))
    ensures forall op :: BinOpNamed(op).Some? ==> ArityOf(EAtom(ABinOp(op)), env, fuel) == Some(Arity(2, 1))
    ensures forall name :: ArityOf(EAtom(AButton(name)), env, fuel) == ArityOf(EAtom(ACheckbox(name)), env, fuel) == Some(Arity(0, 1))
    ensures forall kind, name, u, v, w, z ::
      ArityOf(EAtom(ASlider(kind, name, u, v, w, z)), env, fuel) == ArityOf(EAtom(ANentry(name, u, v, w, z)), env, fuel) == Some(Arity(0, 1))
  {
    hide BinOpNamed;
  }

  /** The operators on two channels. */
  lemma BinaryOperators(p: Params, h: seq<Frame>, u: Sample, v: Sample)
    requires h != [] && u == At(h[|h| - 1], 0) && v == At(h[|h| - 1], 1)
    ensures Word(ABinOp("+"), p, h) == [FLOAT.add(u, v)]
    ensures Word(ABinOp("-"), p, h) == [FLOAT.binary(Sub, u, v)]
    ensures Word(ABinOp("*"), p, h) == [FLOAT.binary(Mul, u, v)]
    ensures Word(ABinOp("/"), p, h) == [if FLOAT.nonZero(v) then FLOAT.binary(Div, u, v) else ZERO]
    ensures Word(ABinOp("%"), p, h) == [if FLOAT.nonZero(v) then FLOAT.binary(Mod, u, v) else ZERO]
    ensures Word(ABinOp("^"), p, h) == [FLOAT.binary(Pow, u, v)]
    ensures Word(ABinOp("min"), p, h) == [FLOAT.binary(BinOp.Min, u, v)]
    ensures Word(ABinOp("max"), p, h) == [FLOAT.binary(BinOp.Max, u, v)]
    ensures Word(ABinOp("&"), p, h) == [FLOAT.binary(And, u, v)]
    ensures Word(ABinOp("|"), p, h) == [FLOAT.binary(Or, u, v)]
    ensures Word(ABinOp("xor"), p, h) == [FLOAT.binary(Xor, u, v)]
    ensures Word(ABinOp("<<"), p, h) == [FLOAT.binary(Shl, u, v)]
    ensures Word(ABinOp(">>"), p, h) == [FLOAT.binary(Shr, u, v)]
    ensures Word(ABinOp("atan2"), p, h) == [FLOAT.binary(Atan2, u, v)]
    ensures Word(ABinOp("remainder"), p, h) == [if FLOAT.nonZero(v) then FLOAT.binary(Rem, u, v) else ZERO]
  {
    hide BinOpNamed, Word, At;
    SymbolNames();
    MoreBinaryNames();
    NamedBinary("+", Add, p, h);
    NamedBinary("-", Sub, p, h);
    NamedBinary("*", Mul, p, h);
    NamedBinary("/", Div, p, h);
    NamedBinary("%", Mod, p, h);
    NamedBinary("^", Pow, p, h);
    NamedBinary("min", BinOp.Min, p, h);
    NamedBinary("max", BinOp.Max, p, h);
    NamedBinary("&", And, p, h);
    NamedBinary("|", Or, p, h);
    NamedBinary("xor", Xor, p, h);
    NamedBinary("<<", Shl, p, h);
    NamedBinary(">>", Shr, p, h);
    NamedBinary("atan2", Atan2, p, h);
    NamedBinary("remainder", Rem, p, h);
  }

  /** The functions of one channel: angles, */
  lemma AngleFunctions(p: Params, h: seq<Frame>, u: Sample)
    requires h != [] && u == At(h[|h| - 1], 0)
    ensures Word(AUnaryOp("sin"), p, h) == [FLOAT.sin(u)]
    ensures Word(AUnaryOp("cos"), p, h) == [FLOAT.cos(u)]
    ensures Word(AUnaryOp("tan"), p, h) == [FLOAT.unary(Tan, u)]
    ensures Word(AUnaryOp("asin"), p, h) == [FLOAT.unary(Asin, u)]
    ensures Word(AUnaryOp("acos"), p, h) == [FLOAT.unary(Acos, u)]
    ensures Word(AUnaryOp("atan"), p, h) == [FLOAT.unary(Atan, u)]
  {
    hide UnaryOpNamed, Word, At;
    AngleNames();
    NamedUnary("sin", Sin, p, h);
    NamedUnary("cos", Cos, p, h);
    NamedUnary("tan", Tan, p, h);
    NamedUnary("asin", Asin, p, h);
    NamedUnary("acos", Acos, p, h);
    NamedUnary("atan", Atan, p, h);
  }

  /** roots, exponentials, logarithms and sizes, */
  lemma GrowthFunctions(p: Params, h: seq<Frame>, u: Sample)
    requires h != [] && u == At(h[|h| - 1], 0)
    ensures Word(AUnaryOp("sqrt"), p, h) == [FLOAT.unary(Sqrt, u)]
    ensures Word(AUnaryOp("exp"), p, h) == [FLOAT.unary(Exp, u)]
    ensures Word(AUnaryOp("log"), p, h) == [FLOAT.unary(Log, u)]
    ensures Word(AUnaryOp("log10"), p, h) == [FLOAT.unary(Log10, u)]
    ensures Word(AUnaryOp("abs"), p, h) == [FLOAT.unary(Abs, u)]
    ensures Word(AUnaryOp("floor"), p, h) == [FLOAT.unary(Floor, u)]
  {
    hide UnaryOpNamed, Word, At;
    GrowthNames();
    NamedUnary("sqrt", Sqrt, p, h);
    NamedUnary("exp", Exp, p, h);
    NamedUnary("log", Log, p, h);
    NamedUnary("log10", Log10, p, h);
    NamedUnary("abs", Abs, p, h);
    NamedUnary("floor", Floor, p, h);
  }

  /** rounding, conversion and sign. */
  lemma RoundingFunctions(p: Params, h: seq<Frame>, u: Sample)
    requires h != [] && u == At(h[|h| - 1], 0)
    ensures Word(AUnaryOp("ceil"), p, h) == [FLOAT.unary(Ceil, u)]
    ensures Word(AUnaryOp("rint"), p, h) == [FLOAT.unary(Rint, u)]
    ensures Word(AUnaryOp("int"), p, h) == [FLOAT.ofInt(FLOAT.toInt(u))]
    ensures Word(AUnaryOp("float"), p, h) == [u]
    ensures Word(AUnaryOp("neg"), p, h) == [FLOAT.neg(u)]
  {
    hide UnaryOpNamed, Word, At;
    RoundingNames();
    NamedUnary("ceil", Ceil, p, h);
    NamedUnary("rint", Rint, p, h);
    NamedUnary("int", ToInt, p, h);
    NamedUnary("float", ToFloat, p, h);
    NamedUnary("neg", Neg, p, h);
  }

  /** Wire, cut and choice; the choice is the third channel when the first is not zero. */
  lemma WiringMeans(p: Params, h: seq<Frame>, u: Sample, v: Sample, w: Sample)
    requires h != [] && u == At(h[|h| - 1], 0) && v == At(h[|h| - 1], 1) && w == At(h[|h| - 1], 2)
    ensures Word(AWire, p, h) == [u] && Word(ACut, p, h) == []
    ensures Word(ASelect2, p, h) == [if FLOAT.nonZero(u) then w else v]
  {
  }

  /** The memory gives the frame before; the delay, what arrived as many frames ago as its second channel says, within bounds. */
  lemma DelaysMean(p: Params, h: seq<Frame>, d: int)
    requires h != [] && d == (if |h[|h| - 1]| > 1 then FLOAT.toInt(h[|h| - 1][1]) else 0)
    ensures Word(AMem, p, h) == [if |h| >= 2 then At(h[|h| - 2], 0) else ZERO]
    ensures var k := if d < 0 then 0 else if d > 191999 then 191999 else d;
      Word(ADelay, p, h) == [if k < |h| then At(h[|h| - 1 - k], 0) else ZERO]
  {
  }

  /** Controls give their parameter, or what they start from: sliders within their range, checkboxes as zero or one. */
  lemma ControlsMean(p: Params, h: seq<Frame>, kind: string, name: string, init: Sample, lo: Sample, hi: Sample, step: Sample)
    requires h != []
    ensures var v := if name in p then p[name] else init;
      Word(ASlider(kind, name, init, lo, hi, step), p, h) == Word(ANentry(name, init, lo, hi, step), p, h) == [FLOAT.clamp(v, lo, hi)]
    ensures var v := if name in p then p[name] else ZERO;
      && Word(AButton(name), p, h) == [v]
      && Word(ACheckbox(name), p, h) == [if FLOAT.nonZero(v) then FLOAT.one else ZERO]
  {
  }

  /** An atom's stream is what its word gives, sample by sample. */
  lemma AtomMeans(a: Atom, env: Env, fuel: nat, ps: seq<Params>, xs: seq<Frame>, t: nat)
    requires |ps| == |xs| && t < |xs|
    ensures ArityOf(EAtom(a), env, fuel + 1).Some?
    ensures Sound(EAtom(a), env, fuel + 1, ps, xs)[t] == Word(a, ps[t], xs[..t + 1])
  {
    hide Word, WordArity;
  }

  // ---- Products.

  lemma SomeFuel(e: Expr, env: Env, fuel: nat)
    requires ArityOf(e, env, fuel).Some?
    ensures fuel > 0
  {
  }

  /** A product outputs, sample by sample, its first channel times what e makes of the others. */
  lemma {:induction false} ProductMeans(e: Expr, env: Env, fuel: nat, ps: seq<Params>, xs: seq<Frame>, us: seq<Sample>, rs: seq<Frame>, t: nat)
    requires ArityOf(e, env, fuel).Some? && |ps| == |xs| == |us| == |rs| && t < |xs|
    requires ArityOf(e, env, fuel).value.outs == 1
    requires forall i :: 0 <= i < |xs| ==> xs[i] == [us[i]] + rs[i] && |rs[i]| == ArityOf(e, env, fuel).value.ins
    ensures var p := ECombine(CSeq, ECombine(CPar, EAtom(AWire), e), EAtom(ABinOp("*")));
      && ArityOf(p, env, fuel + 2) == Some(Arity(1 + ArityOf(e, env, fuel).value.ins, 1))
      && |Sound(e, env, fuel, ps, rs)[t]| == 1
      && Sound(p, env, fuel + 2, ps, xs)[t] == [FLOAT.binary(Mul, us[t], Sound(e, env, fuel, ps, rs)[t][0])]
  {
    hide Sound, ArityOf, Word, WordArity, BinOpNamed, TryConst;
    var wire, star := EAtom(AWire), EAtom(ABinOp("*"));
    var ls := seq(|us|, i requires 0 <= i < |us| => [us[i]]);
    SomeFuel(e, env, fuel);
    AtomArities(env, fuel);
    AtomArities(env, fuel + 1);
    SymbolNames();
    ParMeans(wire, e, env, fuel, ps, xs, ls, rs);
    var pair := ECombine(CPar, wire, e);
    SeqMeans(pair, star, env, fuel + 1, ps, xs);
    var ys := Sound(pair, env, fuel + 1, ps, xs);
    AtomMeans(AWire, env, fuel - 1, ps, ls, t);
    WiringMeans(ps[t], ls[..t + 1], us[t], At(ls[t], 1), At(ls[t], 2));
    AtomMeans(ABinOp("*"), env, fuel, ps, ys, t);
    var v := Sound(e, env, fuel, ps, rs)[t][0];
    assert ys[t] == [us[t], v];
    BinaryOperators(ps[t], ys[..t + 1], us[t], v);
  }

  // ---- Names.

  /** A number is a stream of itself; */
  lemma NumberMeans(v: Sample, env: Env, fuel: nat, ps: seq<Params>, xs: seq<Frame>, t: nat)
    requires |ps| == |xs| && t < |xs|
    ensures ArityOf(ENum(v), env, fuel + 1) == Some(Arity(0, 1)) && Sound(ENum(v), env, fuel + 1, ps, xs)[t] == [v]
  {
  }

  /** a group is its body; */
  lemma GroupMeans(kind: string, name: string, body: Expr, env: Env, fuel: nat, ps: seq<Params>, xs: seq<Frame>)
    requires ArityOf(body, env, fuel).Some? && |ps| == |xs|
    ensures ArityOf(EGroup(kind, name, body), env, fuel + 1) == ArityOf(body, env, fuel)
    ensures Sound(EGroup(kind, name, body), env, fuel + 1, ps, xs) == Sound(body, env, fuel, ps, xs)
  {
  }

  /** a fixed delay of n samples gives what arrived n - 1 samples ago, at least the present one, and 4095 ago if n is no number. */
  lemma FixedDelayMeans(length: Expr, env: Env, fuel: nat, ps: seq<Params>, xs: seq<Frame>, t: nat)
    requires !TryConst(length, env, fuel).Stuck? && |ps| == |xs| && t < |xs|
    ensures ArityOf(EFixedDelay(length), env, fuel + 1) == Some(Arity(1, 1))
    ensures var n := TryConst(length, env, fuel);
      var len := if n.Constant? then FLOAT.toInt(n.v) else 4096;
      var ago := if len <= 1 then 0 else len - 1;
      Sound(EFixedDelay(length), env, fuel + 1, ps, xs)[t] == [if ago <= t then At(xs[t - ago], 0) else ZERO]
  {
    hide TryConst, ArityOf, Sound;
    FixedDelayUnfolds(length, env, fuel, ps, xs, t);
  }

  lemma FixedDelayUnfolds(length: Expr, env: Env, fuel: nat, ps: seq<Params>, xs: seq<Frame>, t: nat)
    requires !TryConst(length, env, fuel).Stuck? && |ps| == |xs| && t < |xs|
    ensures ArityOf(EFixedDelay(length), env, fuel + 1) == Some(Arity(1, 1))
    ensures Sound(EFixedDelay(length), env, fuel + 1, ps, xs)[t] == [Delayed(xs[..t + 1], FixedLength(length, env, fuel) - 1)]
  {
    hide TryConst, Delayed, FixedLength, Sound, ArityOf, Run, LeafOut;
    FixedDelayArity(length, env, fuel);
    FixedDelaySounds(length, env, fuel + 1, 0, ps, xs);
    var l := FixedDelay(0, FixedLength(length, env, fuel));
    PrimRun(l, ps, xs, t);
    PlainOut(l, ps[t], xs[..t + 1]);
  }

  lemma FixedDelayArity(length: Expr, env: Env, fuel: nat)
    requires !TryConst(length, env, fuel).Stuck?
    ensures ArityOf(EFixedDelay(length), env, fuel + 1) == Some(Arity(1, 1))
  {
    hide TryConst;
  }

  /** A name that has a value is that value, read where the name stands. */
  lemma ValueMeans(n: string, env: Env, fuel: nat, ps: seq<Params>, xs: seq<Frame>)
    requires LookupVal(env, n).Some? && ArityOf(LookupVal(env, n).value, env, fuel).Some? && |ps| == |xs|
    ensures ArityOf(EIdent(n), env, fuel + 1) == ArityOf(LookupVal(env, n).value, env, fuel)
    ensures Sound(EIdent(n), env, fuel + 1, ps, xs) == Sound(LookupVal(env, n).value, env, fuel, ps, xs)
  {
    hide LookupVal, LookupFunc;
  }

  /** A call is the function's body, read where its parameters are the arguments. */
  lemma CallMeans(n: string, fd: FuncDef, args: seq<Expr>, env: Env, fuel: nat, ps: seq<Params>, xs: seq<Frame>)
    requires LookupFunc(env, n) == Some(fd) && !LookupNative(env, n) && |ps| == |xs|
    requires ArityOf(fd.body, CallScope(env, BindArgs(fd.params, args)), fuel).Some?
    ensures var inner := CallScope(env, BindArgs(fd.params, args));
      && ArityOf(ECall(n, args), env, fuel + 1) == ArityOf(fd.body, inner, fuel)
      && Sound(ECall(n, args), env, fuel + 1, ps, xs) == Sound(fd.body, inner, fuel, ps, xs)
  {
    hide LookupVal, LookupFunc, LookupNative, BindArgs, CallScope;
  }

  /** A name without value is the body of the function of that name if it has no parameters, and else a wire, as is a call of no function. */
  lemma {:induction false} OpenMeans(n: string, args: seq<Expr>, env: Env, fuel: nat, ps: seq<Params>, xs: seq<Frame>, t: nat)
    requires |ps| == |xs| && t < |xs|
    ensures LookupVal(env, n).None? && LookupFunc(env, n).Some? && LookupFunc(env, n).value.params == [] ==>
      ArityOf(EIdent(n), env, fuel + 1) == ArityOf(LookupFunc(env, n).value.body, env, fuel)
    ensures (LookupVal(env, n).None? && LookupFunc(env, n).Some? && LookupFunc(env, n).value.params == [] &&
             ArityOf(LookupFunc(env, n).value.body, env, fuel).Some?) ==>
      Sound(EIdent(n), env, fuel + 1, ps, xs) == Sound(LookupFunc(env, n).value.body, env, fuel, ps, xs)
    ensures LookupVal(env, n).None? && (LookupFunc(env, n).Some? ==> LookupFunc(env, n).value.params != []) ==>
      && ArityOf(EIdent(n), env, fuel + 1) == Some(Arity(1, 1)) && Sound(EIdent(n), env, fuel + 1, ps, xs)[t] == [At(xs[t], 0)]
    ensures LookupFunc(env, n).None? && !LookupNative(env, n) ==>
      && ArityOf(ECall(n, args), env, fuel + 1) == Some(Arity(1, 1)) && Sound(ECall(n, args), env, fuel + 1, ps, xs)[t] == [At(xs[t], 0)]
    ensures LookupNative(env, n) ==> ArityOf(ECall(n, args), env, fuel + 1).None?
  {
    hide LookupVal, LookupFunc, LookupNative, BindArgs, CallScope;
  }

  /** In the scope of a call the parameters given an argument have it as value; all else means what it meant outside. */
  lemma {:induction false} ScopeMeans(params: seq<string>, args: seq<Expr>, env: Env, n: string)
    requires forall i, j :: 0 <= i < j < |params| ==> params[i] != params[j]
    requires forall i :: 0 <= i < |args| ==> !args[i].ENull?
    ensures var inner := CallScope(env, BindArgs(params, args));
      && (forall i :: 0 <= i < |params| && i < |args| ==> LookupVal(inner, params[i]) == Some(args[i]))
      && ((forall i :: 0 <= i < |params| && i < |args| ==> params[i] != n) ==> LookupVal(inner, n) == LookupVal(env, n))
      && LookupFunc(inner, n) == LookupFunc(env, n) && (LookupNative(inner, n) <==> LookupNative(env, n))
  {
    BindingsAre(params, args);
    var bound := BindArgs(params, args);
    hide BindArgs;
    assert n in bound <==> exists i :: 0 <= i < |params| && i < |args| && params[i] == n;
  }

  lemma {:induction false} BindingsAre(params: seq<string>, args: seq<Expr>)
    requires forall i, j :: 0 <= i < j < |params| ==> params[i] != params[j]
    ensures var bound := BindArgs(params, args);
      && (forall i :: 0 <= i < |params| && i < |args| ==> params[i] in bound && bound[params[i]] == args[i])
      && (forall n :: n in bound ==> exists i :: 0 <= i < |params| && i < |args| && params[i] == n)
    decreases |params|
  {
    if params != [] && args != [] {
      BindingsAre(params[1..], args[1..]);
      var bound, rest := BindArgs(params, args), BindArgs(params[1..], args[1..]);
      forall i: nat | i < |params| && i < |args| ensures params[i] in bound && bound[params[i]] == args[i] {
        if i > 0 { assert params[1..][i - 1] == params[i] && args[1..][i - 1] == args[i]; }
        else { assert params[0] !in rest; }
      }
      forall n | n in bound ensures exists i :: 0 <= i < |params| && i < |args| && params[i] == n {
        if n != params[0] {
          var i :| 0 <= i < |params[1..]| && i < |args[1..]| && params[1..][i] == n;
          assert params[i + 1] == n;
        }
      }
    }
  }

  /** At top level, values, functions and natives are the ones defined there; a value of the null expression is none. */
  lemma TopMeans(env: Env, n: string)
    requires env.parent.None?
    ensures LookupVal(env, n) == if n in env.vals && env.vals[n] != ENull then Some(env.vals[n]) else None
    ensures LookupFunc(env, n) == if n in env.funcs then Some(env.funcs[n]) else None
    ensures LookupNative(env, n) <==> n in env.natives
  {
  }

  // ---- One meaning.

  /** The meaning of an expression does not depend on the amount given. */
  lemma {:induction false} OneMeaning(e: Expr, env: Env, f: nat, g: nat, ps: seq<Params>, xs: seq<Frame>)
    requires ArityOf(e, env, f).Some? && f <= g && |ps| == |xs|
    ensures ArityOf(e, env, g) == ArityOf(e, env, f) && Sound(e, env, g, ps, xs) == Sound(e, env, f, ps, xs)
  {
    hide ArityOf, Sound, Eval, Run, WellFormed, NIn, NOut;
    EvalHasArity(e, env, f, 0);
    Folding.EvalMonotone(e, env, f, g, 0, false);
    EvalHasArity(e, env, g, 0);
    EvalSounds(e, env, f, 0, ps, xs);
    EvalSounds(e, env, g, 0, ps, xs);
  }
}
