/**
 The grammar of expressions as a recursive-descent parser over tokens.

 The five binary operators are five precedence levels of one left-associative
 pattern, so `ParseLevel` has the level as a parameter: 0 is `~`, then merge,
 split, `:` and `,`; level 5 is an atom.
 */
module Syntax {
  import opened Wrappers
  import opened Samples
  import opened Exprs

  datatype Tok =
    | TNum | TId | TStr
    | TColon | TComma | TSemi | TEq | TLP | TRP | TLB | TRB
    | TSplit | TMerge | TTilde | TUnder | TBang | TAt
    | TPlus | TMinus | TStar | TSlash | TPercent | TCaret
    | TAmp | TPipe | TLShift | TRShift | TDot
    | TEof

  datatype Token = Token(kind: Tok, text: string, num: Sample)

  /** A parse, or the exception. */
  datatype Parse = Parsed(e: Expr, pos: nat) | Failed

  datatype ArgsParse = ArgsParsed(args: seq<Expr>, pos: nat) | ArgsFailed

  /** What the tokenizer produces: the last token, and only that one, is the end marker. */
  ghost predicate TokenList(ts: seq<Token>) {
    && ts != [] && ts[|ts| - 1].kind == TEof
    && (forall i :: 0 <= i < |ts| - 1 ==> ts[i].kind != TEof)
  }

  /** The current token; past the end it is the end marker again. */
  function Cur(ts: seq<Token>, pos: nat): Token
    requires ts != []
  {
    ts[Lesser(pos, |ts| - 1)]
  }

  const UNARY_OPS: set<string> := {
    "sin", "cos", "tan", "asin", "acos", "atan", "sqrt", "exp", "log", "log10",
    "abs", "floor", "ceil", "rint", "int", "float", "neg"
  }

  const BINARY_WORDS: set<string> := {"min", "max", "atan2", "remainder", "xor"}

  const GROUP_WORDS: set<string> := {"hgroup", "vgroup", "tgroup"}

  const SKIPPED_WORDS: set<string> := {"declare", "import"}

  function LevelToken(k: nat): Tok
    requires k < 5
  {
    if k == 0 then TTilde else if k == 1 then TMerge else if k == 2 then TSplit else if k == 3 then TColon else TComma
  }

  function LevelOp(k: nat): Combinator
    requires k < 5
  {
    if k == 0 then CRec else if k == 1 then CMerge else if k == 2 then CSplit else if k == 3 then CSeq else CPar
  }

  /** The one-token operators other than `*`. */
  function SymbolAtom(t: Tok): Option<Atom> {
    match t
    case TUnder => Some(AWire)
    case TBang => Some(ACut)
    case TPlus => Some(ABinOp("+"))
    case TMinus => Some(ABinOp("-"))
    case TSlash => Some(ABinOp("/"))
    case TPercent => Some(ABinOp("%"))
    case TCaret => Some(ABinOp("^"))
    case TAmp => Some(ABinOp("&"))
    case TPipe => Some(ABinOp("|"))
    case TLShift => Some(ABinOp("<<"))
    case TRShift => Some(ABinOp(">>"))
    case TAt => Some(ADelay)
    case _ => None
  }

  /** The words that are whole atoms. */
  function WordAtom(name: string): Option<Atom> {
    if name in UNARY_OPS then Some(AUnaryOp(name))
    else if name == "mem" then Some(AMem)
    else if name == "select2" then Some(ASelect2)
    else if name in BINARY_WORDS then Some(ABinOp(name))
    else None
  }

  /** A qualified name: dots followed by identifiers are absorbed. */
  function Qualified(ts: seq<Token>, pos: nat, name: string): (r: (string, nat))
    requires TokenList(ts) && pos < |ts|
    ensures pos <= r.1 < |ts|
    decreases |ts| - pos
  {
    if Sees(ts, pos, TDot) && ts[pos + 1].kind == TId then
      Qualified(ts, pos + 2, name + "." + ts[pos + 1].text)
    else (name, pos)
  }

  /** The next semicolon or the end. */
  function SkipStatement(ts: seq<Token>, pos: nat): (r: nat)
    requires TokenList(ts) && pos < |ts|
    ensures pos <= r < |ts|
    decreases |ts| - pos
  {
    if Cur(ts, pos).kind == TSemi || Cur(ts, pos).kind == TEof then pos else SkipStatement(ts, pos + 1)
  }

  /** The current token is a t; it is then not the last. */
  predicate Sees(ts: seq<Token>, pos: nat, t: Tok)
    requires TokenList(ts) && t != TEof
    ensures Sees(ts, pos, t) ==> pos + 1 < |ts|
  {
    Cur(ts, pos).kind == t
  }

  /** `( label )` */
  function ParseLabelled(ts: seq<Token>, pos: nat, button: bool): (r: Parse)
    requires TokenList(ts) && pos < |ts|
    ensures r.Parsed? ==> pos < r.pos < |ts|
  {
    if Sees(ts, pos, TLP) && Sees(ts, pos + 2, TRP) then
      var name := Cur(ts, pos + 1).text;
      Parsed(EAtom(if button then AButton(name) else ACheckbox(name)), pos + 3)
    else Failed
  }

  /** `( label , init , lo , hi , step )` */
  function ParseSlider(ts: seq<Token>, pos: nat, kind: string): (r: Parse)
    requires TokenList(ts) && pos < |ts|
    ensures r.Parsed? ==> pos < r.pos < |ts|
  {
    if Sees(ts, pos, TLP) && Sees(ts, pos + 2, TComma) && Sees(ts, pos + 4, TComma) && Sees(ts, pos + 6, TComma)
       && Sees(ts, pos + 8, TComma) && Sees(ts, pos + 10, TRP) then
      var name, init, lo, hi, step :=
        Cur(ts, pos + 1).text, Cur(ts, pos + 3).num, Cur(ts, pos + 5).num, Cur(ts, pos + 7).num, Cur(ts, pos + 9).num;
      Parsed(EAtom(if kind == "nentry" then ANentry(name, init, lo, hi, step) else ASlider(kind, name, init, lo, hi, step)),
             pos + 11)
    else Failed
  }

  function ParseLevel(ts: seq<Token>, pos: nat, k: nat): (r: Parse)
    requires TokenList(ts) && pos < |ts| && k <= 5
    ensures r.Parsed? ==> pos < r.pos < |ts|
    decreases |ts| - pos, 6 - k
  {
    if k == 5 then ParseAtom(ts, pos)
    else
      var l := ParseLevel(ts, pos, k + 1);
      if l.Parsed? then ParseLoop(ts, l.e, l.pos, k) else Failed
  }

  /** The loop of one level: operators of that level, folded to the left. */
  function ParseLoop(ts: seq<Token>, l: Expr, pos: nat, k: nat): (r: Parse)
    requires TokenList(ts) && pos < |ts| && k < 5
    ensures r.Parsed? ==> pos <= r.pos < |ts|
    decreases |ts| - pos, 6
  {
    if Sees(ts, pos, LevelToken(k)) then
      var r := ParseLevel(ts, pos + 1, k + 1);
      if r.Parsed? then ParseLoop(ts, ECombine(LevelOp(k), l, r.e), r.pos, k) else Failed
    else Parsed(l, pos)
  }

  function ParseAtom(ts: seq<Token>, pos: nat): (r: Parse)
    requires TokenList(ts) && pos < |ts|
    ensures r.Parsed? ==> pos < r.pos < |ts|
    decreases |ts| - pos, 0
  {
    var t := Cur(ts, pos);
    if t.kind == TEof then Failed
    else if t.kind == TNum then Parsed(ENum(t.num), pos + 1)
    else if SymbolAtom(t.kind).Some? then Parsed(EAtom(SymbolAtom(t.kind).value), pos + 1)
    else if t.kind == TStar then
      if Sees(ts, pos + 1, TLP) then
        var x := ParseLevel(ts, pos + 2, 0);
        if x.Parsed? && Sees(ts, x.pos, TRP) then
          Parsed(ECombine(CSeq, ECombine(CPar, EAtom(AWire), x.e), EAtom(ABinOp("*"))), x.pos + 1)
        else Failed
      else Parsed(EAtom(ABinOp("*")), pos + 1)
    else if t.kind == TLP then
      var x := ParseLevel(ts, pos + 1, 0);
      if x.Parsed? && Sees(ts, x.pos, TRP) then Parsed(x.e, x.pos + 1) else Failed
    else if t.kind == TId then
      var q := Qualified(ts, pos + 1, t.text);
      ParseWord(ts, q.1, q.0)
    else Failed
  }

  /** What follows a name that has just been read. */
  function ParseWord(ts: seq<Token>, pos: nat, name: string): (r: Parse)
    requires TokenList(ts) && 0 < pos < |ts|
    ensures r.Parsed? ==> pos <= r.pos < |ts|
    decreases |ts| - pos, 7
  {
    if WordAtom(name).Some? then Parsed(EAtom(WordAtom(name).value), pos)
    else if name == "hslider" || name == "vslider" || name == "nentry" then ParseSlider(ts, pos, name)
    else if name == "button" then ParseLabelled(ts, pos, true)
    else if name == "checkbox" then ParseLabelled(ts, pos, false)
    else if name in GROUP_WORDS then
      if Sees(ts, pos, TLP) && Sees(ts, pos + 2, TComma) then
        var body := ParseLevel(ts, pos + 3, 0);
        if body.Parsed? && Sees(ts, body.pos, TRP) then
          Parsed(EGroup(name, Cur(ts, pos + 1).text, body.e), body.pos + 1)
        else Failed
      else Failed
    else if name in SKIPPED_WORDS then Parsed(ENull, SkipStatement(ts, pos))
    else if Sees(ts, pos, TLP) then
      if Sees(ts, pos + 1, TRP) then Parsed(ECall(name, []), pos + 2)
      else
        var a := ParseArgs(ts, pos + 1);
        if a.ArgsParsed? && Sees(ts, a.pos, TRP) then Parsed(ECall(name, a.args), a.pos + 1) else Failed
    else Parsed(EIdent(name), pos)
  }

  /** One argument, and more after each comma that it leaves behind. */
  function ParseArgs(ts: seq<Token>, pos: nat): (r: ArgsParse)
    requires TokenList(ts) && pos < |ts|
    ensures r.ArgsParsed? ==> pos < r.pos < |ts| && r.args != []
    decreases |ts| - pos, 8
  {
    var a := ParseLevel(ts, pos, 0);
    if a.Failed? then ArgsFailed
    else if Sees(ts, a.pos, TComma) then
      var rest := ParseArgs(ts, a.pos + 1);
      if rest.ArgsParsed? then ArgsParsed([a.e] + rest.args, rest.pos) else ArgsFailed
    else ArgsParsed([a.e], a.pos)
  }
}
