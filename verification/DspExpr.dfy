/** The parsed language: expressions, function definitions and lexical environments. */
module Exprs {
  import opened Wrappers
  import opened Samples

  datatype Atom =
    | AWire
    | ACut
    | ABinOp(op: string)
    | AUnaryOp(op: string)
    | ASelect2
    | AMem
    | ADelay
    | ASlider(kind: string, name: string, init: Sample, lo: Sample, hi: Sample, step: Sample)
    | AButton(name: string)
    | ACheckbox(name: string)
    | ANentry(name: string, init: Sample, lo: Sample, hi: Sample, step: Sample)

  datatype Combinator = CSeq | CPar | CSplit | CMerge | CRec

  /** ENull stands for the null expression that skipped declarations leave behind. */
  datatype Expr =
    | ENull
    | ENum(num: Sample)
    | EAtom(atom: Atom)
    | ECombine(comb: Combinator, left: Expr, right: Expr)
    | EFixedDelay(length: Expr)
    | EGroup(kind: string, name: string, body: Expr)
    | EIdent(name: string)
    | ECall(name: string, args: seq<Expr>)

  datatype FuncDef = FuncDef(params: seq<string>, body: Expr)

  datatype Env = Env(vals: map<string, Expr>, funcs: map<string, FuncDef>, natives: set<string>, parent: Option<Env>)

  /** A name bound to the null expression has no value, here or further out. */
  function LookupVal(env: Env, n: string): Option<Expr> {
    if n in env.vals then if env.vals[n].ENull? then None else Some(env.vals[n])
    else if env.parent.Some? then LookupVal(env.parent.value, n)
    else None
  }

  function LookupFunc(env: Env, n: string): Option<FuncDef> {
    if n in env.funcs then Some(env.funcs[n])
    else if env.parent.Some? then LookupFunc(env.parent.value, n)
    else None
  }

  predicate LookupNative(env: Env, n: string) {
    n in env.natives || (env.parent.Some? && LookupNative(env.parent.value, n))
  }
}
