/**
 The meaning of an expression, read off its syntax: a function from input streams
 to output streams, without graphs, numbers or state; and that evaluation builds
 graphs of exactly this meaning.
 */
module Meanings {
  import opened Wrappers
  import opened Samples
  import opened Exprs
  import opened Evaluator
  import opened Graphs
  import opened Streams

  // ---- Arities.

  datatype Arity = Arity(ins: nat, outs: nat)

  function WordArity(a: Atom): Arity {
    match a
    case AWire => Arity(1, 1)
    case ACut => Arity(1, 0)
    case ABinOp(op) => if BinOpNamed(op).Some? then Arity(2, 1) else Arity(1, 1)
    case AUnaryOp(_) => Arity(1, 1)
    case ASelect2 => Arity(3, 1)
    case AMem => Arity(1, 1)
    case ADelay => Arity(2, 1)
    case _ => Arity(0, 1)
  }

  /** What a combinator makes of two arities, if they fit. */
  function Joined(c: Combinator, a: Arity, b: Arity): Option<Arity> {
    match c
    case CSeq => Some(Arity(a.ins, b.outs))
    case CPar => Some(Arity(a.ins + b.ins, a.outs + b.outs))
    case CSplit => if b.ins > 0 && a.outs == 0 then None else Some(Arity(a.ins, b.outs))
    case CMerge => if a.outs > 0 && b.ins == 0 then None else Some(Arity(a.ins, b.outs))
    case CRec => if b.outs > a.ins then None else Some(Arity(a.ins - b.outs, a.outs))
  }

  /**
   The arity of an expression; None when it has none, because a combinator's operands
   do not fit, a native function is called, or the definitions go round.
   */
  function ArityOf(e: Expr, env: Env, fuel: nat): Option<Arity>
    decreases fuel
  {
    if fuel == 0 then None
    else match e
      case ENull => Some(Arity(1, 1))
      case ENum(_) => Some(Arity(0, 1))
      case EAtom(a) => Some(WordArity(a))
      case ECombine(c, l, r) =>
        var a, b := ArityOf(l, env, fuel - 1), ArityOf(r, env, fuel - 1);
        if a.None? || b.None? then None else Joined(c, a.value, b.value)
      case EGroup(_, _, body) => ArityOf(body, env, fuel - 1)
      case EFixedDelay(length) => if TryConst(length, env, fuel - 1).Stuck? then None else Some(Arity(1, 1))
      case EIdent(n) =>
        if LookupVal(env, n).Some? then ArityOf(LookupVal(env, n).value, env, fuel - 1)
        else if LookupFunc(env, n).Some? && LookupFunc(env, n).value.params == [] then
          ArityOf(LookupFunc(env, n).value.body, env, fuel - 1)
        else Some(Arity(1, 1))
      case ECall(n, args) =>
        if LookupNative(env, n) then None
        else if LookupFunc(env, n).None? then Some(Arity(1, 1))
        else
          var fd := LookupFunc(env, n).value;
          ArityOf(fd.body, CallScope(env, BindArgs(fd.params, args)), fuel - 1)
  }

  // ---- Streams.

  /** What an atom outputs when the frames h have arrived, the last of them now. */
  function Word(a: Atom, p: Params, h: seq<Frame>): (y: Frame)
    requires h != []
    ensures |y| == WordArity(a).outs
  {
    var x := h[|h| - 1];
    match a
    case AWire => [At(x, 0)]
    case ACut => []
    case ABinOp(op) => [if BinOpNamed(op).Some? then Apply2(BinOpNamed(op).value, At(x, 0), At(x, 1)) else At(x, 0)]
    case AUnaryOp(op) => [if UnaryOpNamed(op).Some? then Apply1(UnaryOpNamed(op).value, At(x, 0)) else At(x, 0)]
    case ASelect2 => [if FLOAT.nonZero(At(x, 0)) then At(x, 2) else At(x, 1)]
    case AMem => [Delayed(h, 1)]
    case ADelay => [Delayed(h, Clamp(DelayArg(x), 0, MAX_DELAY - 1))]
    case ASlider(_, name, init, lo, hi, _) => [FLOAT.clamp(Param(p, name, init), lo, hi)]
    case AButton(name) => [Param(p, name, ZERO)]
    case ACheckbox(name) => [if FLOAT.nonZero(Param(p, name, ZERO)) then FLOAT.one else ZERO]
    case ANentry(name, init, lo, hi, _) => [FLOAT.clamp(Param(p, name, init), lo, hi)]
  }

  /** The fixed delay of an expression that gives one, in samples. */
  function FixedLength(length: Expr, env: Env, fuel: nat): nat {
    var n := TryConst(length, env, fuel);
    Larger(1, if n.Constant? then FLOAT.toInt(n.v) else 4096)
  }

  /** Where the arity of an expression comes from. */
  lemma ArityParts(e: Expr, env: Env, fuel: nat)
    requires ArityOf(e, env, fuel).Some?
    ensures fuel > 0
    ensures e.ENull? || e.EFixedDelay? ==> ArityOf(e, env, fuel).value.outs == 1
    ensures e.ENum? ==> ArityOf(e, env, fuel).value.outs == 1
    ensures e.EAtom? ==> ArityOf(e, env, fuel).value == WordArity(e.atom)
    ensures e.EGroup? ==> ArityOf(e.body, env, fuel - 1) == ArityOf(e, env, fuel)
    ensures e.EIdent? && LookupVal(env, e.name).Some? ==> ArityOf(LookupVal(env, e.name).value, env, fuel - 1) == ArityOf(e, env, fuel)
    ensures e.EIdent? && LookupVal(env, e.name).None? ==>
      if LookupFunc(env, e.name).Some? && LookupFunc(env, e.name).value.params == [] then
        ArityOf(LookupFunc(env, e.name).value.body, env, fuel - 1) == ArityOf(e, env, fuel)
      else ArityOf(e, env, fuel).value.outs == 1
    ensures e.ECall? ==>
      if LookupFunc(env, e.name).None? then ArityOf(e, env, fuel).value.outs == 1
      else
        var fd := LookupFunc(env, e.name).value;
        ArityOf(fd.body, CallScope(env, BindArgs(fd.params, e.args)), fuel - 1) == ArityOf(e, env, fuel)
    ensures e.ECombine? ==> ArityOf(e.left, env, fuel - 1).Some? && ArityOf(e.right, env, fuel - 1).Some?
    ensures e.ECombine? ==>
      Joined(e.comb, ArityOf(e.left, env, fuel - 1).value, ArityOf(e.right, env, fuel - 1).value) == ArityOf(e, env, fuel)
  {
    hide TryConst, BindArgs, LookupVal, LookupFunc, LookupNative, WordArity, Joined;
  }

  /** What operands that fit have in common. */
  lemma Fitting(c: Combinator, a: Arity, b: Arity)
    requires Joined(c, a, b).Some?
    ensures c.CSplit? && b.ins > 0 ==> a.outs > 0
    ensures c.CMerge? && a.outs > 0 ==> b.ins > 0
    ensures c.CRec? ==> b.outs <= a.ins
    ensures Joined(c, a, b).value.outs == if c.CPar? then a.outs + b.outs else if c.CRec? then a.outs else b.outs
  {
  }

  /** The output stream of an expression on an input stream, under the parameters ps. */
  ghost function Sound(e: Expr, env: Env, fuel: nat, ps: seq<Params>, xs: seq<Frame>): (ys: seq<Frame>)
    requires ArityOf(e, env, fuel).Some? && |ps| == |xs|
    ensures |ys| == |xs|
    ensures forall t :: 0 <= t < |ys| ==> |ys[t]| == ArityOf(e, env, fuel).value.outs
    decreases fuel, |xs|, 1
  {
    hide Word, WordArity, Joined, ArityOf, TryConst, LookupVal, LookupFunc, LookupNative, CallScope, BindArgs, FixedLength;
    ArityParts(e, env, fuel);
    match e
    case ENull => seq(|xs|, t requires 0 <= t < |xs| => [At(xs[t], 0)])
    case ENum(v) => seq(|xs|, t => [v])
    case EAtom(a) => seq(|xs|, t requires 0 <= t < |xs| => Word(a, ps[t], xs[..t + 1]))
    case EGroup(_, _, body) => Sound(body, env, fuel - 1, ps, xs)
    case EFixedDelay(length) =>
      seq(|xs|, t requires 0 <= t < |xs| => [Delayed(xs[..t + 1], FixedLength(length, env, fuel - 1) - 1)])
    case EIdent(n) =>
      if LookupVal(env, n).Some? then Sound(LookupVal(env, n).value, env, fuel - 1, ps, xs)
      else if LookupFunc(env, n).Some? && LookupFunc(env, n).value.params == [] then
        Sound(LookupFunc(env, n).value.body, env, fuel - 1, ps, xs)
      else seq(|xs|, t requires 0 <= t < |xs| => [At(xs[t], 0)])
    case ECall(n, args) =>
      if LookupFunc(env, n).None? then seq(|xs|, t requires 0 <= t < |xs| => [At(xs[t], 0)])
      else
        var fd := LookupFunc(env, n).value;
        Sound(fd.body, CallScope(env, BindArgs(fd.params, args)), fuel - 1, ps, xs)
    case ECombine(_, _, _) => Combined(e, env, fuel, ps, xs)
  }

  /** The output stream of two expressions put together. */
  ghost function Combined(e: Expr, env: Env, fuel: nat, ps: seq<Params>, xs: seq<Frame>): (ys: seq<Frame>)
    requires e.ECombine? && ArityOf(e, env, fuel).Some? && |ps| == |xs|
    ensures |ys| == |xs|
    ensures forall t :: 0 <= t < |ys| ==> |ys[t]| == ArityOf(e, env, fuel).value.outs
    decreases fuel, |xs|, 0
  {
    hide Joined, ArityOf, Fans, Folds, LoopIn, Takes, Drops;
    ArityParts(e, env, fuel);
    var l, r, f, a, b := e.left, e.right, fuel - 1, ArityOf(e.left, env, fuel - 1).value, ArityOf(e.right, env, fuel - 1).value;
    Fitting(e.comb, a, b);
    match e.comb
    case CSeq => Sound(r, env, f, ps, Sound(l, env, f, ps, xs))
    case CPar => Zip(Sound(l, env, f, ps, Takes(xs, a.ins)), Sound(r, env, f, ps, Drops(xs, a.ins)))
    case CSplit => Sound(r, env, f, ps, Fans(Sound(l, env, f, ps, xs), b.ins))
    case CMerge => Sound(r, env, f, ps, Folds(Sound(l, env, f, ps, xs), b.ins))
    case CRec =>
      if xs == [] then []
      else
        var before := ps[..|ps| - 1];
        var fs := Sound(r, env, f, before, Sound(e, env, fuel, before, xs[..|xs| - 1]));
        Sound(l, env, f, ps, LoopIn(xs, fs, a.ins - b.outs, b.outs))
  }

  // ---- Evaluation builds what is meant.

  /** An expression has an arity exactly when evaluation builds a well-formed graph of it, of that arity. */
  lemma {:induction false} EvalHasArity(e: Expr, env: Env, fuel: nat, id: int)
    ensures var r, s := Eval(e, env, fuel, id, false), ArityOf(e, env, fuel);
      && (s.Some? <==> r.Built? && WellFormed(r.graph))
      && (s.Some? ==> NIn(r.graph) == s.value.ins && NOut(r.graph) == s.value.outs)
    decreases fuel
  {
    hide TryConst, BindArgs, LookupVal, LookupFunc, AtomNode, WordArity, Joined;
    if fuel > 0 {
      match e
      case EAtom(a) => AtomArity(a, id);
      case ECombine(c, l, r) =>
        EvalHasArity(l, env, fuel - 1, id);
        var a := Eval(l, env, fuel - 1, id, false);
        if a.Built? {
          EvalHasArity(r, env, fuel - 1, a.next);
          var b := Eval(r, env, fuel - 1, a.next, false);
          if b.Built? { CombineArity(c, a.graph, b.graph, b.next); }
        }
      case EGroup(_, _, body) => EvalHasArity(body, env, fuel - 1, id);
      case EIdent(n) =>
        if LookupVal(env, n).Some? {
          EvalHasArity(LookupVal(env, n).value, env, fuel - 1, id);
        } else if LookupFunc(env, n).Some? {
          EvalHasArity(LookupFunc(env, n).value.body, env, fuel - 1, id);
        }
      case ECall(n, args) =>
        if LookupFunc(env, n).Some? {
          var fd := LookupFunc(env, n).value;
          EvalHasArity(fd.body, CallScope(env, BindArgs(fd.params, args)), fuel - 1, id);
        }
      case _ =>
    }
  }

  lemma AtomArity(a: Atom, id: int)
    ensures var l := AtomNode(a, id).0; LeafWellFormed(l) && WordArity(a) == Arity(LeafIn(l), LeafOuts(l))
  {
    hide BinOpNamed, UnaryOpNamed;
  }

  lemma CombineArity(c: Combinator, a: Graph, b: Graph, id: int)
    ensures var g := Combine(c, a, b, id).graph;
      var s := Joined(c, Arity(NIn(a), NOut(a)), Arity(NIn(b), NOut(b)));
      && (WellFormed(g) <==> WellFormed(a) && WellFormed(b) && s.Some?)
      && (s.Some? ==> s.value == Arity(NIn(g), NOut(g)))
  {
    hide NIn, NOut, WellFormed;
    Sides(a, b, id);
  }

  /** Evaluation builds a graph whose stream function is the expression's. */
  lemma {:induction false} EvalSounds(e: Expr, env: Env, fuel: nat, id: int, ps: seq<Params>, xs: seq<Frame>)
    requires ArityOf(e, env, fuel).Some? && |ps| == |xs|
    ensures var r := Eval(e, env, fuel, id, false);
      r.Built? && WellFormed(r.graph) && Run(r.graph, ps, xs) == Sound(e, env, fuel, ps, xs)
    decreases fuel, |xs|, 2
  {
    hide Sound, ArityOf, Run, WellFormed, Eval, TryConst;
    EvalHasArity(e, env, fuel, id);
    if e.ECombine? {
      CombineSounds(e, env, fuel, id, ps, xs);
    } else if e.EGroup? || e.EIdent? || e.ECall? {
      NamedSounds(e, env, fuel, id, ps, xs);
    } else {
      LeafSounds(e, env, fuel, id, ps, xs);
    }
  }

  lemma LeafSounds(e: Expr, env: Env, fuel: nat, id: int, ps: seq<Params>, xs: seq<Frame>)
    requires e.ENull? || e.ENum? || e.EAtom? || e.EFixedDelay?
    requires ArityOf(e, env, fuel).Some? && |ps| == |xs|
    requires Eval(e, env, fuel, id, false).Built? && WellFormed(Eval(e, env, fuel, id, false).graph)
    ensures Run(Eval(e, env, fuel, id, false).graph, ps, xs) == Sound(e, env, fuel, ps, xs)
  {
    hide Run, Sound, Eval, ArityOf, AtomNode, FixedLength;
    PlainBuilt(e, env, fuel, id);
    if e.EAtom? {
      WholeAtom(e.atom, env, fuel, id, ps, xs);
    } else if e.EFixedDelay? {
      FixedDelaySounds(e.length, env, fuel, id, ps, xs);
    } else if e.ENum? {
      NumberSounds(e.num, env, fuel, ps, xs);
    } else {
      WireSounds(Prim(Wire), ps, xs);
      NullSounds(env, fuel, ps, xs);
    }
  }

  lemma PlainBuilt(e: Expr, env: Env, fuel: nat, id: int)
    requires Eval(e, env, fuel, id, false).Built?
    ensures fuel > 0
    ensures var g := Eval(e, env, fuel, id, false).graph;
      && (e.ENull? ==> g == Prim(Wire)) && (e.ENum? ==> g == Prim(Const(e.num)))
      && (e.EAtom? ==> g == Prim(AtomNode(e.atom, id).0))
      && (e.EFixedDelay? ==> g == Prim(FixedDelay(id, FixedLength(e.length, env, fuel - 1))))
  {
    hide TryConst, AtomNode, LookupVal, LookupFunc, LookupNative, BindArgs, Combine;
  }

  lemma WholeAtom(a: Atom, env: Env, fuel: nat, id: int, ps: seq<Params>, xs: seq<Frame>)
    requires fuel > 0 && ArityOf(EAtom(a), env, fuel).Some? && |ps| == |xs|
    ensures var g := Prim(AtomNode(a, id).0); WellFormed(g) && Run(g, ps, xs) == Sound(EAtom(a), env, fuel, ps, xs)
  {
    hide Run, LeafOut, Word, WordArity, AtomNode, Sound, ArityOf, WellFormed, LeafWellFormed, NOut;
    AtomWellFormed(a, id);
    var g := Prim(AtomNode(a, id).0);
    forall t: nat | t < |xs| ensures Run(g, ps, xs)[t] == Sound(EAtom(a), env, fuel, ps, xs)[t] {
      PrimRun(g.leaf, ps, xs, t);
      AtomSounds(a, id, ps[t], xs[..t + 1]);
      AtomUnfolds(a, env, fuel, ps, xs, t);
    }
  }

  lemma AtomUnfolds(a: Atom, env: Env, fuel: nat, ps: seq<Params>, xs: seq<Frame>, t: nat)
    requires fuel > 0 && ArityOf(EAtom(a), env, fuel).Some? && |ps| == |xs| && t < |xs|
    ensures Sound(EAtom(a), env, fuel, ps, xs)[t] == Word(a, ps[t], xs[..t + 1])
  {
    hide Word, WordArity, ArityOf;
  }

  lemma AtomWellFormed(a: Atom, id: int)
    ensures WellFormed(Prim(AtomNode(a, id).0)) && LeafWellFormed(AtomNode(a, id).0)
  {
    hide BinOpNamed, UnaryOpNamed;
  }

  lemma FixedDelaySounds(length: Expr, env: Env, fuel: nat, id: int, ps: seq<Params>, xs: seq<Frame>)
    requires fuel > 0 && ArityOf(EFixedDelay(length), env, fuel).Some? && |ps| == |xs|
    ensures var g := Prim(FixedDelay(id, FixedLength(length, env, fuel - 1)));
      WellFormed(g) && Run(g, ps, xs) == Sound(EFixedDelay(length), env, fuel, ps, xs)
  {
    var l := FixedDelay(id, FixedLength(length, env, fuel - 1));
    assert LeafWellFormed(l) && WellFormed(Prim(l));
    hide Run, LeafOut, TryConst, FixedLength, Delayed, LeafWellFormed, WellFormed;
    forall t: nat | t < |xs| ensures Run(Prim(l), ps, xs)[t] == Sound(EFixedDelay(length), env, fuel, ps, xs)[t] {
      PrimRun(l, ps, xs, t);
      PlainOut(l, ps[t], xs[..t + 1]);
    }
  }

  lemma NumberSounds(v: Sample, env: Env, fuel: nat, ps: seq<Params>, xs: seq<Frame>)
    requires fuel > 0 && ArityOf(ENum(v), env, fuel).Some? && |ps| == |xs|
    ensures WellFormed(Prim(Const(v))) && Run(Prim(Const(v)), ps, xs) == Sound(ENum(v), env, fuel, ps, xs)
  {
    hide Run, LeafOut;
    assert WellFormed(Prim(Const(v)));
    forall t: nat | t < |xs| ensures Run(Prim(Const(v)), ps, xs)[t] == Sound(ENum(v), env, fuel, ps, xs)[t] {
      PrimRun(Const(v), ps, xs, t);
      PlainOut(Const(v), ps[t], xs[..t + 1]);
    }
  }

  lemma NullSounds(env: Env, fuel: nat, ps: seq<Params>, xs: seq<Frame>)
    requires fuel > 0 && ArityOf(ENull, env, fuel).Some? && |ps| == |xs|
    ensures Sound(ENull, env, fuel, ps, xs) == seq(|xs|, t requires 0 <= t < |xs| => [At(xs[t], 0)])
  {
  }

  lemma PlainOut(l: Leaf, p: Params, h: seq<Frame>)
    requires LeafWellFormed(l) && h != []
    ensures l.Wire? ==> LeafOut(l, p, h) == [At(h[|h| - 1], 0)]
    ensures l.Const? ==> LeafOut(l, p, h) == [l.val]
    ensures l.FixedDelay? ==> LeafOut(l, p, h) == [Delayed(h, l.len - 1)]
  {
  }

  lemma AtomSounds(a: Atom, id: int, p: Params, h: seq<Frame>)
    requires h != []
    ensures var l := AtomNode(a, id).0; LeafWellFormed(l) && LeafOut(l, p, h) == Word(a, p, h)
  {
    hide BinOpNamed, UnaryOpNamed, Apply1, Apply2;
  }

  lemma {:induction false} NamedSounds(e: Expr, env: Env, fuel: nat, id: int, ps: seq<Params>, xs: seq<Frame>)
    requires e.EGroup? || e.EIdent? || e.ECall?
    requires ArityOf(e, env, fuel).Some? && |ps| == |xs|
    requires Eval(e, env, fuel, id, false).Built? && WellFormed(Eval(e, env, fuel, id, false).graph)
    ensures Run(Eval(e, env, fuel, id, false).graph, ps, xs) == Sound(e, env, fuel, ps, xs)
    decreases fuel, |xs|, 0
  {
    hide TryConst, LookupVal, LookupFunc, LookupNative, BindArgs, Run, WellFormed;
    var g := Eval(e, env, fuel, id, false).graph;
    if e.EGroup? {
      EvalSounds(e.body, env, fuel - 1, id, ps, xs);
      GroupRun(g, ps, xs);
    } else if e.EIdent? && LookupVal(env, e.name).Some? {
      EvalSounds(LookupVal(env, e.name).value, env, fuel - 1, id, ps, xs);
    } else if e.EIdent? && LookupFunc(env, e.name).Some? && LookupFunc(env, e.name).value.params == [] {
      EvalSounds(LookupFunc(env, e.name).value.body, env, fuel - 1, id, ps, xs);
    } else if e.ECall? && LookupFunc(env, e.name).Some? {
      var fd := LookupFunc(env, e.name).value;
      EvalSounds(fd.body, CallScope(env, BindArgs(fd.params, e.args)), fuel - 1, id, ps, xs);
    } else {
      WireSounds(g, ps, xs);
    }
  }

  lemma WireSounds(g: Graph, ps: seq<Params>, xs: seq<Frame>)
    requires g == Prim(Wire) && WellFormed(g) && |ps| == |xs|
    ensures Run(g, ps, xs) == seq(|xs|, t requires 0 <= t < |xs| => [At(xs[t], 0)])
  {
    hide Run, LeafOut;
    forall t: nat | t < |xs| ensures Run(g, ps, xs)[t] == [At(xs[t], 0)] {
      PrimRun(Wire, ps, xs, t);
      PlainOut(Wire, ps[t], xs[..t + 1]);
    }
  }

  lemma GroupRun(g: Graph, ps: seq<Params>, xs: seq<Frame>)
    requires g.Group? && WellFormed(g) && WellFormed(g.body) && |ps| == |xs|
    ensures Run(g, ps, xs) == Run(g.body, ps, xs)
  {
  }

  lemma {:induction false} CombineSounds(e: Expr, env: Env, fuel: nat, id: int, ps: seq<Params>, xs: seq<Frame>)
    requires e.ECombine? && ArityOf(e, env, fuel).Some? && |ps| == |xs|
    requires Eval(e, env, fuel, id, false).Built? && WellFormed(Eval(e, env, fuel, id, false).graph)
    ensures Run(Eval(e, env, fuel, id, false).graph, ps, xs) == Sound(e, env, fuel, ps, xs)
    decreases fuel, |xs|, 1
  {
    hide Eval, ArityOf, Run, WellFormed, Sound;
    match e.comb
    case CSeq => SeqSounds(e, env, fuel, id, ps, xs);
    case CPar => ParSounds(e, env, fuel, id, ps, xs);
    case CRec => RecSounds(e, env, fuel, id, ps, xs);
    case _ => FanSounds(e, env, fuel, id, ps, xs);
  }

  lemma {:induction false} SeqSounds(e: Expr, env: Env, fuel: nat, id: int, ps: seq<Params>, xs: seq<Frame>)
    requires e.ECombine? && e.comb.CSeq? && ArityOf(e, env, fuel).Some? && |ps| == |xs|
    requires Eval(e, env, fuel, id, false).Built? && WellFormed(Eval(e, env, fuel, id, false).graph)
    ensures Run(Eval(e, env, fuel, id, false).graph, ps, xs) == Sound(e, env, fuel, ps, xs)
    decreases fuel, |xs|, 0
  {
    hide Eval, ArityOf, Run, WellFormed, TryConst, Combine, Joined, Sound, Takes, Drops, Fans, Folds, LoopIn, Zip, NIn, NOut;
    var l, r, f := e.left, e.right, fuel - 1;
    OperandsBuilt(e, env, fuel, id);
    SoundUnfolds(e, env, fuel, ps, xs);
    var a := Eval(l, env, f, id, false);
    var b := Eval(r, env, f, a.next, false);
    var g := Eval(e, env, fuel, id, false).graph;
    EvalSounds(l, env, f, id, ps, xs);
    EvalSounds(r, env, f, a.next, ps, Sound(l, env, f, ps, xs));
    SeqRun(g, ps, xs);
  }

  lemma {:induction false} ParSounds(e: Expr, env: Env, fuel: nat, id: int, ps: seq<Params>, xs: seq<Frame>)
    requires e.ECombine? && e.comb.CPar? && ArityOf(e, env, fuel).Some? && |ps| == |xs|
    requires Eval(e, env, fuel, id, false).Built? && WellFormed(Eval(e, env, fuel, id, false).graph)
    ensures Run(Eval(e, env, fuel, id, false).graph, ps, xs) == Sound(e, env, fuel, ps, xs)
    decreases fuel, |xs|, 0
  {
    hide Eval, ArityOf, Run, WellFormed, TryConst, Combine, Joined, Sound, Takes, Drops, Fans, Folds, LoopIn, Zip, NIn, NOut;
    var l, r, f := e.left, e.right, fuel - 1;
    OperandsBuilt(e, env, fuel, id);
    SoundUnfolds(e, env, fuel, ps, xs);
    var a := Eval(l, env, f, id, false);
    var b := Eval(r, env, f, a.next, false);
    var g := Eval(e, env, fuel, id, false).graph;
    EvalSounds(l, env, f, id, ps, Takes(xs, NIn(a.graph)));
    EvalSounds(r, env, f, a.next, ps, Drops(xs, NIn(a.graph)));
    ParRun(g, ps, xs);
  }

  lemma {:induction false} FanSounds(e: Expr, env: Env, fuel: nat, id: int, ps: seq<Params>, xs: seq<Frame>)
    requires e.ECombine? && (e.comb.CSplit? || e.comb.CMerge?) && ArityOf(e, env, fuel).Some? && |ps| == |xs|
    requires Eval(e, env, fuel, id, false).Built? && WellFormed(Eval(e, env, fuel, id, false).graph)
    ensures Run(Eval(e, env, fuel, id, false).graph, ps, xs) == Sound(e, env, fuel, ps, xs)
    decreases fuel, |xs|, 0
  {
    hide Eval, ArityOf, Run, WellFormed, TryConst, Combine, Joined, Sound, Takes, Drops, Fans, Folds, LoopIn, Zip, NIn, NOut;
    var l, r, f := e.left, e.right, fuel - 1;
    OperandsBuilt(e, env, fuel, id);
    SoundUnfolds(e, env, fuel, ps, xs);
    var a := Eval(l, env, f, id, false);
    var b := Eval(r, env, f, a.next, false);
    var g := Eval(e, env, fuel, id, false).graph;
    EvalSounds(l, env, f, id, ps, xs);
    var ys := Sound(l, env, f, ps, xs);
    if e.comb.CSplit? {
      EvalSounds(r, env, f, a.next, ps, Fans(ys, NIn(b.graph)));
      SplitRun(g, ps, xs);
    } else {
      EvalSounds(r, env, f, a.next, ps, Folds(ys, NIn(b.graph)));
      MergeRun(g, ps, xs);
    }
  }

  lemma {:induction false} RecSounds(e: Expr, env: Env, fuel: nat, id: int, ps: seq<Params>, xs: seq<Frame>)
    requires e.ECombine? && e.comb.CRec? && ArityOf(e, env, fuel).Some? && |ps| == |xs|
    requires Eval(e, env, fuel, id, false).Built? && WellFormed(Eval(e, env, fuel, id, false).graph)
    ensures Run(Eval(e, env, fuel, id, false).graph, ps, xs) == Sound(e, env, fuel, ps, xs)
    decreases fuel, |xs|, 0
  {
    hide Eval, ArityOf, Run, WellFormed, TryConst, Combine, Joined, Sound, Takes, Drops, Fans, Folds, LoopIn, Zip, NIn, NOut;
    var l, r, f := e.left, e.right, fuel - 1;
    OperandsBuilt(e, env, fuel, id);
    SoundUnfolds(e, env, fuel, ps, xs);
    var a := Eval(l, env, f, id, false);
    var b := Eval(r, env, f, a.next, false);
    var g := Eval(e, env, fuel, id, false).graph;
    if xs == [] {
      assert |Run(g, ps, xs)| == 0;
    } else {
      var before := ps[..|ps| - 1];
      EvalSounds(e, env, fuel, id, before, xs[..|xs| - 1]);
      var ys := Sound(e, env, fuel, before, xs[..|xs| - 1]);
      EvalSounds(r, env, f, a.next, before, ys);
      var fs := Sound(r, env, f, before, ys);
      EvalSounds(l, env, f, id, ps, LoopIn(xs, fs, NIn(a.graph) - NOut(b.graph), NOut(b.graph)));
      RecUnfold(g, ps, xs, fs);
    }
  }

  /** What a combination is built from. */
  lemma OperandsBuilt(e: Expr, env: Env, fuel: nat, id: int)
    requires e.ECombine? && ArityOf(e, env, fuel).Some?
    requires Eval(e, env, fuel, id, false).Built? && WellFormed(Eval(e, env, fuel, id, false).graph)
    ensures fuel > 0 && ArityOf(e.left, env, fuel - 1).Some? && ArityOf(e.right, env, fuel - 1).Some?
    ensures var a := Eval(e.left, env, fuel - 1, id, false);
      a.Built? &&
      var b := Eval(e.right, env, fuel - 1, a.next, false);
      && b.Built? && WellFormed(a.graph) && WellFormed(b.graph)
      && ArityOf(e.left, env, fuel - 1).value == Arity(NIn(a.graph), NOut(a.graph))
      && ArityOf(e.right, env, fuel - 1).value == Arity(NIn(b.graph), NOut(b.graph))
      && var g := Eval(e, env, fuel, id, false).graph;
         match e.comb
         case CSeq => g == Seq(a.graph, b.graph)
         case CPar => g == Par(a.graph, b.graph)
         case CSplit => g == Split(a.graph, b.graph) && (NIn(b.graph) > 0 ==> NOut(a.graph) > 0)
         case CMerge => g == Merge(a.graph, b.graph) && (NOut(a.graph) > 0 ==> NIn(b.graph) > 0)
         case CRec => g.Rec? && g.a == a.graph && g.b == b.graph && NOut(b.graph) <= NIn(a.graph)
  {
    hide TryConst, NIn, NOut;
    EvalHasArity(e.left, env, fuel - 1, id);
    var a := Eval(e.left, env, fuel - 1, id, false);
    if a.Built? { EvalHasArity(e.right, env, fuel - 1, a.next); }
  }

  lemma SoundUnfolds(e: Expr, env: Env, fuel: nat, ps: seq<Params>, xs: seq<Frame>)
    requires e.ECombine? && ArityOf(e, env, fuel).Some? && |ps| == |xs|
    ensures fuel > 0 && ArityOf(e.left, env, fuel - 1).Some? && ArityOf(e.right, env, fuel - 1).Some?
    ensures var l, r, f, y := e.left, e.right, fuel - 1, Sound(e, env, fuel, ps, xs);
      var a, b := ArityOf(l, env, f).value, ArityOf(r, env, f).value;
      match e.comb
      case CSeq => y == Sound(r, env, f, ps, Sound(l, env, f, ps, xs))
      case CPar => y == Zip(Sound(l, env, f, ps, Takes(xs, a.ins)), Sound(r, env, f, ps, Drops(xs, a.ins)))
      case CSplit => (b.ins > 0 ==> a.outs > 0) && y == Sound(r, env, f, ps, Fans(Sound(l, env, f, ps, xs), b.ins))
      case CMerge => (a.outs > 0 ==> b.ins > 0) && y == Sound(r, env, f, ps, Folds(Sound(l, env, f, ps, xs), b.ins))
      case CRec => b.outs <= a.ins && (xs != [] ==>
        var before := ps[..|ps| - 1];
        y == Sound(l, env, f, ps, LoopIn(xs, Sound(r, env, f, before, Sound(e, env, fuel, before, xs[..|xs| - 1])),
                                         a.ins - b.outs, b.outs)))
  {
    hide Word, WordArity, Fans, Folds, LoopIn, Takes, Drops, FixedLength, Zip;
  }
}
