/**
 Writing and parsing: every way of writing a tree down, with or without
 parentheses that the levels make superfluous, is read back as that tree; and every
 parsed call has at most one argument.
 */
module Printing {
  import opened Wrappers
  import opened Samples
  import opened Exprs
  import opened Syntax

  // ---- Tokens.

  /** A way to write numbers down; which one does not matter to the grammar. */
  const NUMERAL: Sample -> string

  /** The merge token alone carries its spelling. */
  function Symbol(t: Tok): Token { Token(t, if t == TMerge then ":>" else "", ZERO) }

  function Word(name: string): Token { Token(TId, name, ZERO) }

  function Number(v: Sample): Token { Token(TNum, NUMERAL(v), v) }

  function LevelOf(c: Combinator): (k: nat)
    ensures k < 5 && LevelOp(k) == c
  {
    match c
    case CRec => 0
    case CMerge => 1
    case CSplit => 2
    case CSeq => 3
    case CPar => 4
  }

  function OpSymbol(op: string): Option<Tok> {
    if op == "+" then Some(TPlus) else if op == "-" then Some(TMinus)
    else if op == "*" then Some(TStar) else if op == "/" then Some(TSlash)
    else if op == "%" then Some(TPercent) else if op == "^" then Some(TCaret)
    else if op == "&" then Some(TAmp) else if op == "|" then Some(TPipe)
    else if op == "<<" then Some(TLShift) else if op == ">>" then Some(TRShift)
    else None
  }

  const SLIDER_WORDS: set<string> := {"hslider", "vslider"}

  const CONTROL_WORDS: set<string> := {"nentry", "button", "checkbox"}

  /** The words that the grammar does not read as plain names. */
  predicate Reserved(name: string) {
    WordAtom(name).Some? || name in SLIDER_WORDS || name in CONTROL_WORDS || name in GROUP_WORDS || name in SKIPPED_WORDS
  }

  predicate PrintableAtom(a: Atom) {
    match a
    case ABinOp(op) => OpSymbol(op).Some? || op in BINARY_WORDS
    case AUnaryOp(op) => op in UNARY_OPS
    case ASlider(kind, _, _, _, _, _) => kind in SLIDER_WORDS
    case _ => true
  }

  function Title(name: string): Token { Token(TStr, name, ZERO) }

  function PrintFields(name: string, init: Sample, lo: Sample, hi: Sample, step: Sample): (s: seq<Token>)
    ensures |s| == 11
  {
    [Symbol(TLP), Title(name), Symbol(TComma), Number(init), Symbol(TComma), Number(lo),
     Symbol(TComma), Number(hi), Symbol(TComma), Number(step), Symbol(TRP)]
  }

  function PrintAtom(a: Atom): seq<Token> {
    match a
    case AWire => [Symbol(TUnder)]
    case ACut => [Symbol(TBang)]
    case ABinOp(op) => [if OpSymbol(op).Some? then Symbol(OpSymbol(op).value) else Word(op)]
    case AUnaryOp(op) => [Word(op)]
    case ASelect2 => [Word("select2")]
    case AMem => [Word("mem")]
    case ADelay => [Symbol(TAt)]
    case ASlider(kind, name, init, lo, hi, step) => [Word(kind)] + PrintFields(name, init, lo, hi, step)
    case AButton(name) => [Word("button"), Symbol(TLP), Title(name), Symbol(TRP)]
    case ACheckbox(name) => [Word("checkbox"), Symbol(TLP), Title(name), Symbol(TRP)]
    case ANentry(name, init, lo, hi, step) => [Word("nentry")] + PrintFields(name, init, lo, hi, step)
  }

  // ---- Written forms.

  /** An expression as it is written: which parentheses stand, and whether a product is written `*(factor)`. */
  datatype Form =
    | Numeral(num: Sample)
    | Primitive(atom: Atom)
    | Name(parts: seq<string>)
    | BareCall(parts: seq<string>)
    | Call(parts: seq<string>, arg: Form)
    | Grouped(kind: string, title: string, body: Form)
    | Infix(comb: Combinator, left: Form, right: Form)
    | Parens(inner: Form)
    | Scaled(factor: Form)

  /** The name that parts with dots between them spell. */
  function Joined(parts: seq<string>): string
    requires parts != []
  {
    if |parts| == 1 then parts[0] else Joined(parts[..|parts| - 1]) + "." + parts[|parts| - 1]
  }

  predicate ProperName(parts: seq<string>) { parts != [] && !Reserved(Joined(parts)) }

  /**
   A form that may stand at level k: an operator binds at its own level, to the left,
   so its left operand may stand at that level and its right one at the next.
   */
  predicate Proper(f: Form, k: nat) {
    match f
    case Numeral(_) => true
    case Primitive(a) => PrintableAtom(a)
    case Name(parts) => ProperName(parts)
    case BareCall(parts) => ProperName(parts)
    case Call(parts, arg) => ProperName(parts) && Proper(arg, 0)
    case Grouped(kind, _, body) => kind in GROUP_WORDS && Proper(body, 0)
    case Infix(c, l, r) => k <= LevelOf(c) && Proper(l, LevelOf(c)) && Proper(r, LevelOf(c) + 1)
    case Parens(inner) => Proper(inner, 0)
    case Scaled(factor) => Proper(factor, 0)
  }

  /** The tree that a form stands for: names are joined, and `*(e)` is `(_, e) : *`. */
  function Tree(f: Form): Expr
    requires Proper(f, 0)
  {
    match f
    case Numeral(v) => ENum(v)
    case Primitive(a) => EAtom(a)
    case Name(parts) => EIdent(Joined(parts))
    case BareCall(parts) => ECall(Joined(parts), [])
    case Call(parts, arg) => ECall(Joined(parts), [Tree(arg)])
    case Grouped(kind, title, body) => EGroup(kind, title, Tree(body))
    case Infix(c, l, r) =>
      Loosened(l, LevelOf(c));
      Loosened(r, LevelOf(c) + 1);
      ECombine(c, Tree(l), Tree(r))
    case Parens(inner) => Tree(inner)
    case Scaled(factor) => ECombine(CSeq, ECombine(CPar, EAtom(AWire), Tree(factor)), EAtom(ABinOp("*")))
  }

  /** A form that may stand at a level may stand at every lower one. */
  lemma Loosened(f: Form, k: nat)
    requires Proper(f, k)
    ensures forall j :: 0 <= j <= k ==> Proper(f, j)
  {
  }

  function WriteName(parts: seq<string>): (s: seq<Token>)
    requires parts != []
    ensures s != []
  {
    if |parts| == 1 then [Word(parts[0])]
    else WriteName(parts[..|parts| - 1]) + [Symbol(TDot), Word(parts[|parts| - 1])]
  }

  function Write(f: Form): (s: seq<Token>)
    requires Proper(f, 0)
    ensures s != []
  {
    match f
    case Numeral(v) => [Number(v)]
    case Primitive(a) => PrintAtom(a)
    case Name(parts) => WriteName(parts)
    case BareCall(parts) => WriteName(parts) + [Symbol(TLP)] + [Symbol(TRP)]
    case Call(parts, arg) => WriteName(parts) + [Symbol(TLP)] + Write(arg) + [Symbol(TRP)]
    case Grouped(kind, title, body) => [Word(kind), Symbol(TLP), Title(title), Symbol(TComma)] + Write(body) + [Symbol(TRP)]
    case Infix(c, l, r) =>
      Loosened(l, LevelOf(c));
      Loosened(r, LevelOf(c) + 1);
      Write(l) + [Symbol(LevelToken(LevelOf(c)))] + Write(r)
    case Parens(inner) => [Symbol(TLP)] + Write(inner) + [Symbol(TRP)]
    case Scaled(factor) => [Symbol(TStar), Symbol(TLP)] + Write(factor) + [Symbol(TRP)]
  }

  // ---- Reading back.

  /** The tokens s stand at pos, and something follows them. */
  ghost predicate At(ts: seq<Token>, pos: nat, s: seq<Token>) {
    pos + |s| < |ts| && ts[pos..pos + |s|] == s
  }

  lemma AtSplit(ts: seq<Token>, pos: nat, s: seq<Token>, t: seq<Token>)
    requires At(ts, pos, s + t)
    ensures At(ts, pos, s) && At(ts, pos + |s|, t)
  {
    assert ts[pos..pos + |s|] == ts[pos..pos + |s + t|][..|s|];
    assert ts[pos + |s|..pos + |s + t|] == ts[pos..pos + |s + t|][|s|..];
  }

  lemma AtHead(ts: seq<Token>, pos: nat, s: seq<Token>)
    requires At(ts, pos, s)
    ensures forall i :: 0 <= i < |s| ==> ts[pos + i] == s[i]
  {
    forall i | 0 <= i < |s| ensures ts[pos + i] == s[i] {
      assert ts[pos..pos + |s|][i] == s[i];
    }
  }

  /** The same of the first token alone. */
  lemma AtFirst(ts: seq<Token>, pos: nat, s: seq<Token>)
    requires At(ts, pos, s) && s != []
    ensures ts[pos] == s[0]
  {
    assert ts[pos..pos + |s|][0] == ts[pos];
  }

  lemma AtWithin(ts: seq<Token>, pos: nat, s: seq<Token>)
    requires At(ts, pos, s)
    ensures pos + |s| < |ts|
  {
  }

  /** A token after which a parse at level k is complete. */
  predicate Stops(t: Tok, k: nat) {
    t != TLP && t != TDot && forall j :: k <= j < 5 ==> t != LevelToken(j)
  }

  lemma SymbolBack(op: string)
    requires OpSymbol(op).Some?
    ensures op != "*" ==> OpSymbol(op).value != TStar && SymbolAtom(OpSymbol(op).value) == Some(ABinOp(op))
    ensures op == "*" ==> OpSymbol(op).value == TStar
  {
  }

  lemma WordBack(op: string)
    requires op in BINARY_WORDS || op in UNARY_OPS || op == "mem" || op == "select2"
    ensures WordAtom(op) == Some(if op in UNARY_OPS then AUnaryOp(op) else if op == "mem" then AMem
                                 else if op == "select2" then ASelect2 else ABinOp(op))
  {
  }

  lemma ControlWords(name: string)
    requires name in SLIDER_WORDS || name in CONTROL_WORDS || name in GROUP_WORDS
    ensures WordAtom(name).None?
  {
  }

  /** A name followed by neither a dot nor, for plain names, a parenthesis is read whole. */
  lemma NameBack(ts: seq<Token>, pos: nat, name: string)
    requires TokenList(ts) && pos + 1 < |ts| && ts[pos] == Word(name) && ts[pos + 1].kind != TDot
    ensures ParseAtom(ts, pos) == ParseWord(ts, pos + 1, name)
  {
    hide ParseLevel, ParseWord;
  }

  lemma WordAtomBack(w: string, a: Atom, ts: seq<Token>, pos: nat)
    requires TokenList(ts) && pos + 1 < |ts| && ts[pos] == Word(w) && ts[pos + 1].kind != TDot
    requires WordAtom(w) == Some(a)
    ensures ParseAtom(ts, pos) == Parsed(EAtom(a), pos + 1)
  {
    hide ParseLevel, WordAtom, ParseAtom;
    NameBack(ts, pos, w);
  }

  lemma SymbolAtomBack(op: string, ts: seq<Token>, pos: nat)
    requires OpSymbol(op).Some? && TokenList(ts) && pos + 1 < |ts|
    requires ts[pos].kind == OpSymbol(op).value && ts[pos + 1].kind != TLP
    ensures ParseAtom(ts, pos) == Parsed(EAtom(ABinOp(op)), pos + 1)
  {
    hide ParseLevel, ParseWord, OpSymbol, SymbolAtom;
    SymbolBack(op);
    StarIsNoSymbol();
  }

  lemma StarIsNoSymbol()
    ensures SymbolAtom(TStar).None? && SymbolAtom(TLP).None? && SymbolAtom(TId).None? && SymbolAtom(TNum).None? && SymbolAtom(TEof).None?
  {
  }

  lemma PlainSymbolBack(a: Atom, ts: seq<Token>, pos: nat)
    requires a.AWire? || a.ACut? || a.ADelay?
    requires TokenList(ts) && pos + 1 < |ts| && ts[pos] == PrintAtom(a)[0]
    ensures ParseAtom(ts, pos) == Parsed(EAtom(a), pos + 1)
  {
    hide ParseLevel, ParseWord, WordAtom;
  }

  lemma AtomBack(a: Atom, ts: seq<Token>, pos: nat)
    requires PrintableAtom(a) && TokenList(ts) && At(ts, pos, PrintAtom(a)) && Stops(ts[pos + |PrintAtom(a)|].kind, 5)
    ensures ParseAtom(ts, pos) == Parsed(EAtom(a), pos + |PrintAtom(a)|)
  {
    hide ParseAtom, WordAtom, TokenList, SymbolAtom, At, PrintFields, OpSymbol;
    AtFirst(ts, pos, PrintAtom(a));
    AtWithin(ts, pos, PrintAtom(a));
    if a.AWire? || a.ACut? || a.ADelay? {
      PlainSymbolBack(a, ts, pos);
    } else if a.ABinOp? && OpSymbol(a.op).Some? {
      SymbolAtomBack(a.op, ts, pos);
    } else if a.ABinOp? || a.AUnaryOp? || a.AMem? || a.ASelect2? {
      WordFormBack(a, ts, pos);
    } else if a.AButton? || a.ACheckbox? {
      LabelBack(a, ts, pos);
    } else {
      SliderBack(a, ts, pos);
    }
  }

  /** An atom that is written as one word. */
  lemma WordFormBack(a: Atom, ts: seq<Token>, pos: nat)
    requires (a.ABinOp? && OpSymbol(a.op).None?) || a.AUnaryOp? || a.AMem? || a.ASelect2?
    requires PrintableAtom(a) && TokenList(ts) && pos + 1 < |ts| && ts[pos] == PrintAtom(a)[0] && ts[pos + 1].kind != TDot
    ensures ParseAtom(ts, pos) == Parsed(EAtom(a), pos + 1) && |PrintAtom(a)| == 1
  {
    hide ParseAtom, WordAtom, TokenList, OpSymbol;
    var w := if a.AMem? then "mem" else if a.ASelect2? then "select2" else a.op;
    WordBack(w);
    WordAtomBack(w, a, ts, pos);
  }

  lemma LabelBack(a: Atom, ts: seq<Token>, pos: nat)
    requires (a.AButton? || a.ACheckbox?) && TokenList(ts) && At(ts, pos, PrintAtom(a))
    ensures ParseAtom(ts, pos) == Parsed(EAtom(a), pos + |PrintAtom(a)|)
  {
    hide ParseLevel, WordAtom, ParseAtom, ParseWord, At, TokenList, PrintAtom;
    var w := if a.AButton? then "button" else "checkbox";
    var s := [Word(w), Symbol(TLP), Title(a.name), Symbol(TRP)];
    PrintLabel(a);
    AtHead(ts, pos, s);
    AtWithin(ts, pos, s);
    assert ts[pos + 0] == s[0] && ts[pos + 1] == s[1] && ts[pos + 2] == s[2] && ts[pos + 3] == s[3];
    NameBack(ts, pos, w);
    LabelWord(ts, pos + 1, a);
  }

  lemma PrintLabel(a: Atom)
    requires a.AButton? || a.ACheckbox?
    ensures PrintAtom(a) == [Word(if a.AButton? then "button" else "checkbox"), Symbol(TLP), Title(a.name), Symbol(TRP)]
  {
  }

  lemma LabelWord(ts: seq<Token>, pos: nat, a: Atom)
    requires (a.AButton? || a.ACheckbox?) && TokenList(ts) && 0 < pos && pos + 3 < |ts|
    requires ts[pos].kind == TLP && ts[pos + 1] == Title(a.name) && ts[pos + 2].kind == TRP
    ensures ParseWord(ts, pos, if a.AButton? then "button" else "checkbox") == Parsed(EAtom(a), pos + 3)
  {
    hide ParseLevel, WordAtom, ParseAtom, TokenList, SkipStatement, ParseArgs, ParseSlider;
    ControlWords(if a.AButton? then "button" else "checkbox");
  }

  lemma SliderBack(a: Atom, ts: seq<Token>, pos: nat)
    requires (a.ASlider? || a.ANentry?) && PrintableAtom(a) && TokenList(ts) && At(ts, pos, PrintAtom(a))
    ensures ParseAtom(ts, pos) == Parsed(EAtom(a), pos + |PrintAtom(a)|)
  {
    hide ParseLevel, WordAtom, ParseAtom, ParseSlider, TokenList, PrintFields, ParseWord, PrintAtom, PrintableAtom, At;
    var w := if a.ASlider? then a.kind else "nentry";
    PrintSlider(a);
    var fields := PrintFields(a.name, a.init, a.lo, a.hi, a.step);
    AtSplit(ts, pos, [Word(w)], fields);
    AtFirst(ts, pos, [Word(w)]);
    AtWithin(ts, pos + 1, fields);
    FieldsBack(w, a.name, a.init, a.lo, a.hi, a.step, ts, pos + 1);
    NameBack(ts, pos, w);
    SliderWord(ts, pos + 1, w);
  }

  lemma PrintSlider(a: Atom)
    requires (a.ASlider? || a.ANentry?) && PrintableAtom(a)
    ensures a.ASlider? ==> a.kind in SLIDER_WORDS && a.kind != "nentry"
    ensures PrintAtom(a) == [Word(if a.ASlider? then a.kind else "nentry")] + PrintFields(a.name, a.init, a.lo, a.hi, a.step)
  {
    hide PrintFields;
  }

  lemma SliderWord(ts: seq<Token>, pos: nat, w: string)
    requires TokenList(ts) && 0 < pos < |ts| && (w in SLIDER_WORDS || w == "nentry")
    ensures ParseWord(ts, pos, w) == ParseSlider(ts, pos, w)
  {
    hide ParseLevel, WordAtom, ParseSlider, TokenList;
    ControlWords(w);
  }

  lemma FieldsBack(w: string, name: string, init: Sample, lo: Sample, hi: Sample, step: Sample, ts: seq<Token>, pos: nat)
    requires TokenList(ts) && At(ts, pos, PrintFields(name, init, lo, hi, step))
    ensures ts[pos].kind == TLP
    ensures ParseSlider(ts, pos, w) ==
            Parsed(EAtom(if w == "nentry" then ANentry(name, init, lo, hi, step) else ASlider(w, name, init, lo, hi, step)), pos + 11)
  {
    hide TokenList, At, NUMERAL, ParseSlider;
    var s := PrintFields(name, init, lo, hi, step);
    AtHead(ts, pos, s);
    AtWithin(ts, pos, s);
    assert ts[pos + 0] == s[0] && ts[pos + 1] == s[1] && ts[pos + 2] == s[2] && ts[pos + 3] == s[3] && ts[pos + 4] == s[4];
    assert ts[pos + 5] == s[5] && ts[pos + 6] == s[6] && ts[pos + 7] == s[7] && ts[pos + 8] == s[8] && ts[pos + 9] == s[9];
    assert ts[pos + 10] == s[10];
    FieldsSeen(w, ts, pos);
  }

  /** Ten tokens of the right kinds are read as a slider. */
  lemma FieldsSeen(w: string, ts: seq<Token>, pos: nat)
    requires TokenList(ts) && pos + 11 < |ts|
    requires ts[pos].kind == TLP && ts[pos + 2].kind == TComma && ts[pos + 4].kind == TComma && ts[pos + 6].kind == TComma
    requires ts[pos + 8].kind == TComma && ts[pos + 10].kind == TRP
    ensures var name, init, lo, hi, step := ts[pos + 1].text, ts[pos + 3].num, ts[pos + 5].num, ts[pos + 7].num, ts[pos + 9].num;
      ParseSlider(ts, pos, w) ==
      Parsed(EAtom(if w == "nentry" then ANentry(name, init, lo, hi, step) else ASlider(w, name, init, lo, hi, step)), pos + 11)
  {
    hide TokenList;
  }

  lemma ParenBack(ts: seq<Token>, pos: nat, e: Expr, end: nat)
    requires TokenList(ts) && pos + 1 < |ts| && ts[pos].kind == TLP
    requires ParseLevel(ts, pos + 1, 0) == Parsed(e, end) && end < |ts| && ts[end].kind == TRP
    ensures ParseAtom(ts, pos) == Parsed(e, end + 1)
  {
    hide ParseLevel, ParseWord, SymbolAtom;
    StarIsNoSymbol();
  }

  // ---- Names.

  /** The parser reads on over dots to the end of a name. */
  lemma {:induction false} QualifiedBack(ts: seq<Token>, pos: nat, parts: seq<string>, n: nat)
    requires TokenList(ts) && 1 <= n <= |parts| && At(ts, pos, WriteName(parts)) && ts[pos + |WriteName(parts)|].kind != TDot
    ensures pos + 2 * n - 1 < |ts|
    ensures Qualified(ts, pos + 2 * n - 1, Joined(parts[..n])) == (Joined(parts), pos + |WriteName(parts)|)
    decreases |parts| - n
  {
    hide TokenList, At, WriteName, Qualified, Joined;
    NameLength(parts);
    AtWithin(ts, pos, WriteName(parts));
    if n == |parts| {
      assert parts[..n] == parts;
      NameEnds(ts, pos + 2 * n - 1, Joined(parts));
    } else {
      QualifiedBack(ts, pos, parts, n + 1);
      NextPart(ts, pos, parts, n);
      PartJoins(parts, n);
      NameGoesOn(ts, pos + 2 * n - 1, Joined(parts[..n]));
    }
  }

  lemma NameEnds(ts: seq<Token>, pos: nat, name: string)
    requires TokenList(ts) && pos < |ts| && ts[pos].kind != TDot
    ensures Qualified(ts, pos, name) == (name, pos)
  {
    hide TokenList;
  }

  lemma NameGoesOn(ts: seq<Token>, pos: nat, name: string)
    requires TokenList(ts) && pos + 2 < |ts| && ts[pos].kind == TDot && ts[pos + 1].kind == TId
    ensures Qualified(ts, pos, name) == Qualified(ts, pos + 2, name + "." + ts[pos + 1].text)
  {
    hide TokenList;
  }

  lemma PartJoins(parts: seq<string>, n: nat)
    requires 1 <= n < |parts|
    ensures Joined(parts[..n + 1]) == Joined(parts[..n]) + "." + parts[n]
  {
    assert parts[..n + 1][..n] == parts[..n];
  }

  lemma {:induction false} NameLength(parts: seq<string>)
    requires parts != []
    ensures |WriteName(parts)| == 2 * |parts| - 1
    decreases |parts|
  {
    if |parts| > 1 { NameLength(parts[..|parts| - 1]); }
  }

  /** Part n stands after a dot. */
  lemma {:induction false} NextPart(ts: seq<Token>, pos: nat, parts: seq<string>, n: nat)
    requires 1 <= n < |parts| && At(ts, pos, WriteName(parts))
    ensures pos + 2 * n < |ts| && ts[pos + 2 * n - 1].kind == TDot && ts[pos + 2 * n] == Word(parts[n])
    decreases |parts|
  {
    hide At;
    var init, last := WriteName(parts[..|parts| - 1]), [Symbol(TDot), Word(parts[|parts| - 1])];
    NameLength(parts[..|parts| - 1]);
    AtSplit(ts, pos, init, last);
    if n == |parts| - 1 {
      AtHead(ts, pos + |init|, last);
      AtWithin(ts, pos + |init|, last);
      assert ts[pos + |init| + 0] == last[0] && ts[pos + |init| + 1] == last[1];
    } else {
      NextPart(ts, pos, parts[..|parts| - 1], n);
    }
  }

  lemma {:induction false} FirstPart(parts: seq<string>)
    requires parts != []
    ensures WriteName(parts)[0] == Word(parts[0]) && Joined(parts[..1]) == parts[0]
    decreases |parts|
  {
    if |parts| > 1 { FirstPart(parts[..|parts| - 1]); }
  }

  /** A written name is read whole. */
  lemma {:induction false} FullNameBack(ts: seq<Token>, pos: nat, parts: seq<string>)
    requires TokenList(ts) && parts != [] && At(ts, pos, WriteName(parts)) && ts[pos + |WriteName(parts)|].kind != TDot
    ensures ParseAtom(ts, pos) == ParseWord(ts, pos + |WriteName(parts)|, Joined(parts))
  {
    hide ParseLevel, ParseWord, WriteName, Joined, Qualified, At, SymbolAtom;
    AtFirst(ts, pos, WriteName(parts));
    FirstPart(parts);
    QualifiedBack(ts, pos, parts, 1);
    StarIsNoSymbol();
  }

  // ---- Whole forms.

  /** A form is read whole at every level whose operators do not follow it. */
  lemma {:induction false} LevelBack(f: Form, ts: seq<Token>, pos: nat, k: nat)
    requires k <= 5 && Proper(f, k) && Proper(f, 0) && TokenList(ts) && At(ts, pos, Write(f))
    requires Stops(ts[pos + |Write(f)|].kind, k)
    ensures ParseLevel(ts, pos, k) == Parsed(Tree(f), pos + |Write(f)|)
    decreases f, 2 * (6 - k) + 1
  {
    hide ParseAtom, Write, Tree, Proper, At;
    AtWithin(ts, pos, Write(f));
    if k == 5 {
      NotInfix(f);
      FormBack(f, ts, pos);
      LastLevel(ts, pos);
    } else {
      ChainBack(f, ts, pos, k);
      LoopStops(ts, Tree(f), pos + |Write(f)|, k);
    }
  }

  lemma NotInfix(f: Form)
    requires Proper(f, 5)
    ensures !f.Infix?
  {
  }

  lemma LastLevel(ts: seq<Token>, pos: nat)
    requires TokenList(ts) && pos < |ts|
    ensures ParseLevel(ts, pos, 5) == ParseAtom(ts, pos)
  {
    hide ParseAtom;
  }

  lemma LoopStops(ts: seq<Token>, e: Expr, pos: nat, k: nat)
    requires TokenList(ts) && pos < |ts| && k < 5 && ts[pos].kind != LevelToken(k)
    ensures ParseLoop(ts, e, pos, k) == Parsed(e, pos)
  {
    hide TokenList, ParseLevel;
  }

  /** What has been read of a level goes on as its left operand. */
  lemma {:induction false} ChainBack(f: Form, ts: seq<Token>, pos: nat, k: nat)
    requires k < 5 && Proper(f, k) && Proper(f, 0) && TokenList(ts) && At(ts, pos, Write(f))
    requires Stops(ts[pos + |Write(f)|].kind, k + 1)
    ensures pos + |Write(f)| < |ts|
    ensures ParseLevel(ts, pos, k) == ParseLoop(ts, Tree(f), pos + |Write(f)|, k)
    decreases f, 2 * (6 - k)
  {
    hide ParseAtom, ParseLevel, ParseLoop, Write, Tree, Proper, At, Stops, Symbol, LevelToken, LevelOf, LevelOp, TokenList;
    AtWithin(ts, pos, Write(f));
    if f.Infix? && LevelOf(f.comb) == k {
      InfixParts(f);
      InfixAt(f, ts, pos);
      ChainBack(f.left, ts, pos, k);
      LevelBack(f.right, ts, pos + |Write(f.left)| + 1, k + 1);
      ChainTurn(f, ts, pos, k);
    } else {
      HigherUp(f, k);
      LevelBack(f, ts, pos, k + 1);
      LevelStarts(ts, pos, k, Tree(f), pos + |Write(f)|);
    }
  }

  /** The left operand has been read, and the right one is. */
  lemma ChainTurn(f: Form, ts: seq<Token>, pos: nat, k: nat)
    requires f.Infix? && Proper(f, 0) && Proper(f.left, 0) && Proper(f.right, 0) && LevelOf(f.comb) == k
    requires TokenList(ts) && At(ts, pos, Write(f)) && pos + |Write(f.left)| < |ts|
    requires ParseLevel(ts, pos, k) == ParseLoop(ts, Tree(f.left), pos + |Write(f.left)|, k)
    requires ParseLevel(ts, pos + |Write(f.left)| + 1, k + 1) == Parsed(Tree(f.right), pos + |Write(f)|)
    ensures pos + |Write(f)| < |ts| && ParseLevel(ts, pos, k) == ParseLoop(ts, Tree(f), pos + |Write(f)|, k)
  {
    hide ParseAtom, ParseLevel, ParseLoop, Write, Tree, Proper, At, LevelToken, LevelOf, LevelOp, TokenList;
    InfixParts(f);
    InfixAt(f, ts, pos);
    LoopTurn(ts, Tree(f.left), pos + |Write(f.left)|, Tree(f.right), pos + |Write(f)|, k);
  }

  /** The two operands, and the operator between them. */
  lemma InfixParts(f: Form)
    requires f.Infix? && Proper(f, 0)
    ensures Proper(f.left, LevelOf(f.comb)) && Proper(f.right, LevelOf(f.comb) + 1) && Proper(f.left, 0) && Proper(f.right, 0)
    ensures Write(f) == Write(f.left) + [Symbol(LevelToken(LevelOf(f.comb)))] + Write(f.right)
    ensures Tree(f) == ECombine(LevelOp(LevelOf(f.comb)), Tree(f.left), Tree(f.right))
  {
    hide LevelToken, LevelOp;
    Loosened(f.left, LevelOf(f.comb));
    Loosened(f.right, LevelOf(f.comb) + 1);
  }

  lemma InfixAt(f: Form, ts: seq<Token>, pos: nat)
    requires f.Infix? && Proper(f, 0) && Proper(f.left, 0) && Proper(f.right, 0) && At(ts, pos, Write(f))
    ensures At(ts, pos, Write(f.left)) && At(ts, pos + |Write(f.left)| + 1, Write(f.right))
    ensures |Write(f)| == |Write(f.left)| + 1 + |Write(f.right)| && pos + |Write(f)| < |ts|
    ensures ts[pos + |Write(f.left)|] == Symbol(LevelToken(LevelOf(f.comb)))
    ensures Stops(ts[pos + |Write(f.left)|].kind, LevelOf(f.comb) + 1)
  {
    hide Write, Tree, Proper, At, LevelToken, LevelOf, LevelOp, Stops;
    InfixParts(f);
    StopTokens(LevelOf(f.comb));
    AtWithin(ts, pos, Write(f));
    var op := [Symbol(LevelToken(LevelOf(f.comb)))];
    AtSplit(ts, pos, Write(f.left) + op, Write(f.right));
    AtSplit(ts, pos, Write(f.left), op);
    AtFirst(ts, pos + |Write(f.left)|, op);
  }

  lemma HigherUp(f: Form, k: nat)
    requires k < 5 && Proper(f, k) && !(f.Infix? && LevelOf(f.comb) == k)
    ensures Proper(f, k + 1)
  {
    hide LevelOf;
  }

  lemma StopTokens(k: nat)
    requires k < 5
    ensures Stops(LevelToken(k), k + 1) && Stops(TRP, k) && Stops(TRP, k + 1) && Stops(TSemi, k) && Stops(TEof, k)
  {
  }

  lemma LevelStarts(ts: seq<Token>, pos: nat, k: nat, e: Expr, end: nat)
    requires TokenList(ts) && k < 5 && pos < |ts| && end < |ts| && ParseLevel(ts, pos, k + 1) == Parsed(e, end)
    ensures ParseLevel(ts, pos, k) == ParseLoop(ts, e, end, k)
  {
    hide ParseAtom, ParseLoop, TokenList;
  }

  lemma LoopTurn(ts: seq<Token>, l: Expr, mid: nat, r: Expr, end: nat, k: nat)
    requires TokenList(ts) && k < 5 && mid + 1 < |ts| && end < |ts| && ts[mid].kind == LevelToken(k)
    requires ParseLevel(ts, mid + 1, k + 1) == Parsed(r, end)
    ensures ParseLoop(ts, l, mid, k) == ParseLoop(ts, ECombine(LevelOp(k), l, r), end, k)
  {
    hide ParseAtom, ParseLevel, TokenList;
  }

  /** Everything but an operator is one atom to the parser. */
  lemma {:induction false} FormBack(f: Form, ts: seq<Token>, pos: nat)
    requires !f.Infix? && Proper(f, 0) && TokenList(ts) && At(ts, pos, Write(f)) && Stops(ts[pos + |Write(f)|].kind, 5)
    ensures ParseAtom(ts, pos) == Parsed(Tree(f), pos + |Write(f)|)
    decreases f, 2
  {
    hide Write, Proper, Tree, ParseAtom, Stops, At, TokenList;
    match f
    case Numeral(v) => NumeralBack(v, ts, pos);
    case Primitive(a) => WriteAtom(a); AtomBack(a, ts, pos);
    case Name(parts) => NamePartsBack(parts, ts, pos);
    case BareCall(parts) => BareCallBack(parts, ts, pos);
    case Call(parts, arg) => CallBack(parts, arg, ts, pos);
    case Grouped(_, _, _) => GroupBack(f, ts, pos);
    case Parens(inner) => ParensBack(inner, ts, pos);
    case Scaled(factor) => ScaledBack(factor, ts, pos);
  }

  lemma WriteAtom(a: Atom)
    requires Proper(Primitive(a), 0)
    ensures PrintableAtom(a) && Write(Primitive(a)) == PrintAtom(a) && Tree(Primitive(a)) == EAtom(a)
  {
    hide PrintAtom, PrintableAtom;
  }

  lemma NumeralBack(v: Sample, ts: seq<Token>, pos: nat)
    requires Proper(Numeral(v), 0) && TokenList(ts) && At(ts, pos, Write(Numeral(v)))
    ensures ParseAtom(ts, pos) == Parsed(Tree(Numeral(v)), pos + |Write(Numeral(v))|)
  {
    hide ParseLevel, ParseWord, SymbolAtom;
    AtFirst(ts, pos, Write(Numeral(v)));
  }

  lemma NamePartsBack(parts: seq<string>, ts: seq<Token>, pos: nat)
    requires Proper(Name(parts), 0) && TokenList(ts) && At(ts, pos, Write(Name(parts))) && Stops(ts[pos + |Write(Name(parts))|].kind, 5)
    ensures ParseAtom(ts, pos) == Parsed(Tree(Name(parts)), pos + |Write(Name(parts))|)
  {
    hide ParseAtom, TokenList, WriteName, Joined, WordAtom, At, Reserved, ParseWord;
    AtWithin(ts, pos, WriteName(parts));
    FullNameBack(ts, pos, parts);
    PlainWord(ts, pos + |WriteName(parts)|, Joined(parts));
  }

  /** A name of no other meaning that no parenthesis follows. */
  lemma PlainWord(ts: seq<Token>, pos: nat, n: string)
    requires TokenList(ts) && 0 < pos < |ts| && !Reserved(n) && ts[pos].kind != TLP
    ensures ParseWord(ts, pos, n) == Parsed(EIdent(n), pos)
  {
    hide ParseLevel, WordAtom, ParseAtom, ParseArgs, ParseSlider, ParseLabelled, SkipStatement;
  }

  lemma BareCallBack(parts: seq<string>, ts: seq<Token>, pos: nat)
    requires Proper(BareCall(parts), 0) && TokenList(ts) && At(ts, pos, Write(BareCall(parts)))
    ensures ParseAtom(ts, pos) == Parsed(Tree(BareCall(parts)), pos + |Write(BareCall(parts))|)
  {
    hide ParseAtom, TokenList, WriteName, Joined, At, Reserved, ParseWord;
    var s := WriteName(parts);
    AtWithin(ts, pos, s + [Symbol(TLP)] + [Symbol(TRP)]);
    AtSplit(ts, pos, s + [Symbol(TLP)], [Symbol(TRP)]);
    AtSplit(ts, pos, s, [Symbol(TLP)]);
    AtFirst(ts, pos + |s|, [Symbol(TLP)]);
    AtFirst(ts, pos + |s| + 1, [Symbol(TRP)]);
    FullNameBack(ts, pos, parts);
    BareCallWord(ts, pos + |s|, Joined(parts));
  }

  lemma BareCallWord(ts: seq<Token>, pos: nat, n: string)
    requires TokenList(ts) && 0 < pos && pos + 2 < |ts| && !Reserved(n) && ts[pos].kind == TLP && ts[pos + 1].kind == TRP
    ensures ParseWord(ts, pos, n) == Parsed(ECall(n, []), pos + 2)
  {
    hide ParseLevel, WordAtom, ParseAtom, ParseArgs;
  }

  lemma {:induction false} CallBack(parts: seq<string>, arg: Form, ts: seq<Token>, pos: nat)
    requires Proper(Call(parts, arg), 0) && TokenList(ts) && At(ts, pos, Write(Call(parts, arg)))
    ensures ParseAtom(ts, pos) == Parsed(Tree(Call(parts, arg)), pos + |Write(Call(parts, arg))|)
    decreases arg, 20
  {
    hide ParseAtom, TokenList, WriteName, Joined, At, Reserved, ParseWord, Write, Tree, Proper, Stops, ParseLevel;
    CallParts(parts, arg);
    var mid := pos + |WriteName(parts)|;
    var end := mid + 1 + |Write(arg)|;
    CallAt(parts, arg, ts, pos);
    ArgBack(Joined(parts), arg, ts, mid, end);
    FullNameBack(ts, pos, parts);
  }

  lemma {:induction false} ArgBack(n: string, arg: Form, ts: seq<Token>, mid: nat, end: nat)
    requires !Reserved(n) && Proper(arg, 0) && TokenList(ts) && At(ts, mid + 1, Write(arg)) && end == mid + 1 + |Write(arg)|
    requires 0 < mid && end + 1 < |ts| && ts[mid].kind == TLP && ts[mid + 1] == Write(arg)[0] && ts[end].kind == TRP
    ensures ParseWord(ts, mid, n) == Parsed(ECall(n, [Tree(arg)]), end + 1)
    decreases arg, 18
  {
    hide TokenList, At, Reserved, ParseWord, Write, Tree, Proper, Stops, ParseLevel;
    FirstToken(arg);
    ClosedBack(arg, ts, mid + 1, end);
    CallWord(ts, mid, n, Tree(arg), end);
  }

  /** A form with a closing parenthesis after it. */
  lemma {:induction false} ClosedBack(f: Form, ts: seq<Token>, pos: nat, end: nat)
    requires Proper(f, 0) && TokenList(ts) && At(ts, pos, Write(f)) && end == pos + |Write(f)| && end < |ts| && ts[end].kind == TRP
    ensures ParseLevel(ts, pos, 0) == Parsed(Tree(f), end)
    decreases f, 14
  {
    hide ParseLevel, Write, Proper, Tree, At, TokenList, Stops;
    StopTokens(0);
    LevelBack(f, ts, pos, 0);
  }

  lemma CallAt(parts: seq<string>, arg: Form, ts: seq<Token>, pos: nat)
    requires parts != [] && Proper(arg, 0) && At(ts, pos, WriteName(parts) + [Symbol(TLP)] + Write(arg) + [Symbol(TRP)])
    ensures var mid, end := pos + |WriteName(parts)|, pos + |WriteName(parts)| + 1 + |Write(arg)|;
      && end + 1 < |ts| && |WriteName(parts) + [Symbol(TLP)] + Write(arg) + [Symbol(TRP)]| == end + 1 - pos && At(ts, pos, WriteName(parts)) && At(ts, mid + 1, Write(arg))
      && ts[mid].kind == TLP && ts[mid + 1] == Write(arg)[0] && ts[end].kind == TRP
  {
    hide WriteName, Write, Proper, At;
    var s, b := WriteName(parts), Write(arg);
    AtWithin(ts, pos, s + [Symbol(TLP)] + b + [Symbol(TRP)]);
    AtSplit(ts, pos, s + [Symbol(TLP)] + b, [Symbol(TRP)]);
    AtSplit(ts, pos, s + [Symbol(TLP)], b);
    AtSplit(ts, pos, s, [Symbol(TLP)]);
    AtFirst(ts, pos + |s|, [Symbol(TLP)]);
    AtFirst(ts, pos + |s| + 1, b);
    AtFirst(ts, pos + |s| + 1 + |b|, [Symbol(TRP)]);
  }

  lemma CallParts(parts: seq<string>, arg: Form)
    requires Proper(Call(parts, arg), 0)
    ensures ProperName(parts) && Proper(arg, 0) && Tree(Call(parts, arg)) == ECall(Joined(parts), [Tree(arg)])
    ensures Write(Call(parts, arg)) == WriteName(parts) + [Symbol(TLP)] + Write(arg) + [Symbol(TRP)]
  {
    hide Joined, WriteName, Reserved;
  }

  lemma CallWord(ts: seq<Token>, pos: nat, n: string, arg: Expr, end: nat)
    requires TokenList(ts) && 0 < pos && pos + 1 < |ts| && !Reserved(n) && ts[pos].kind == TLP && ts[pos + 1].kind != TRP
    requires ParseLevel(ts, pos + 1, 0) == Parsed(arg, end) && end < |ts| && ts[end].kind == TRP
    ensures ParseWord(ts, pos, n) == Parsed(ECall(n, [arg]), end + 1)
  {
    hide ParseLevel, WordAtom, ParseAtom, ParseArgs;
    OneArgument(ts, pos + 1, arg, end);
  }

  lemma OneArgument(ts: seq<Token>, pos: nat, arg: Expr, end: nat)
    requires TokenList(ts) && pos < |ts| && ParseLevel(ts, pos, 0) == Parsed(arg, end) && end < |ts|
    requires ts[end].kind != TComma
    ensures ParseArgs(ts, pos) == ArgsParsed([arg], end)
  {
    hide ParseLevel;
  }

  /** No form is written with a closing parenthesis first. */
  lemma {:induction false} FirstToken(f: Form)
    requires Proper(f, 0)
    ensures Write(f)[0].kind != TRP
    decreases f
  {
    hide Write, Proper, Tree;
    if f.Infix? {
      InfixParts(f);
      FirstToken(f.left);
    } else {
      FirstOfOne(f);
    }
  }

  lemma FirstOfOne(f: Form)
    requires Proper(f, 0) && !f.Infix?
    ensures Write(f)[0].kind != TRP
  {
    hide WordAtom, Joined, Reserved, WriteName;
    if f.Name? || f.BareCall? || f.Call? { FirstPart(f.parts); }
  }

  lemma {:induction false} GroupBack(f: Form, ts: seq<Token>, pos: nat)
    requires f.Grouped? && Proper(f, 0) && TokenList(ts) && At(ts, pos, Write(f))
    ensures ParseAtom(ts, pos) == Parsed(Tree(f), pos + |Write(f)|)
    decreases f, 1
  {
    hide ParseLevel, WordAtom, ParseAtom, ParseWord, TokenList, Stops, Write, Tree, At;
    GroupParts(f);
    GroupAt(f, ts, pos);
    ControlWords(f.kind);
    NameBack(ts, pos, f.kind);
    ClosedBack(f.body, ts, pos + 4, pos + 4 + |Write(f.body)|);
    GroupWord(ts, pos + 1, f.kind, Tree(f.body), pos + 4 + |Write(f.body)|);
  }

  lemma GroupParts(f: Form)
    requires f.Grouped? && Proper(f, 0)
    ensures f.kind in GROUP_WORDS && Proper(f.body, 0) && Tree(f) == EGroup(f.kind, f.title, Tree(f.body))
    ensures Write(f) == [Word(f.kind), Symbol(TLP), Title(f.title), Symbol(TComma)] + Write(f.body) + [Symbol(TRP)]
  {
  }

  lemma GroupAt(f: Form, ts: seq<Token>, pos: nat)
    requires f.Grouped? && Proper(f, 0) && Proper(f.body, 0) && At(ts, pos, Write(f))
    ensures At(ts, pos + 4, Write(f.body))
    ensures |Write(f)| == 5 + |Write(f.body)| && pos + |Write(f)| < |ts|
    ensures ts[pos] == Word(f.kind) && ts[pos + 1].kind == TLP && ts[pos + 2].text == f.title && ts[pos + 3].kind == TComma
    ensures ts[pos + 4 + |Write(f.body)|].kind == TRP
  {
    hide Write, Tree, At, Proper;
    GroupParts(f);
    AtWithin(ts, pos, Write(f));
    var head := [Word(f.kind), Symbol(TLP), Title(f.title), Symbol(TComma)];
    AtSplit(ts, pos, head + Write(f.body), [Symbol(TRP)]);
    AtSplit(ts, pos, head, Write(f.body));
    AtHead(ts, pos, head);
    AtFirst(ts, pos + 4 + |Write(f.body)|, [Symbol(TRP)]);
    assert ts[pos + 0] == head[0] && ts[pos + 1] == head[1] && ts[pos + 2] == head[2] && ts[pos + 3] == head[3];
  }

  lemma GroupWord(ts: seq<Token>, pos: nat, kind: string, body: Expr, end: nat)
    requires TokenList(ts) && 0 < pos && pos + 3 < |ts| && kind in GROUP_WORDS && WordAtom(kind).None?
    requires ts[pos].kind == TLP && ts[pos + 2].kind == TComma
    requires ParseLevel(ts, pos + 3, 0) == Parsed(body, end) && end < |ts| && ts[end].kind == TRP
    ensures ParseWord(ts, pos, kind) == Parsed(EGroup(kind, ts[pos + 1].text, body), end + 1)
  {
    hide ParseLevel, WordAtom, ParseAtom;
  }

  lemma {:induction false} ParensBack(inner: Form, ts: seq<Token>, pos: nat)
    requires Proper(Parens(inner), 0) && TokenList(ts) && At(ts, pos, Write(Parens(inner)))
    ensures ParseAtom(ts, pos) == Parsed(Tree(Parens(inner)), pos + |Write(Parens(inner))|)
    decreases inner, 20
  {
    hide ParseAtom, TokenList, At, Stops, ParseLevel, Proper, Write, Tree;
    InnerIs(inner);
    BracketsAre(inner);
    var b := Write(inner);
    AtWithin(ts, pos, [Symbol(TLP)] + b + [Symbol(TRP)]);
    AtSplit(ts, pos, [Symbol(TLP)] + b, [Symbol(TRP)]);
    AtSplit(ts, pos, [Symbol(TLP)], b);
    AtFirst(ts, pos, [Symbol(TLP)]);
    AtFirst(ts, pos + 1 + |b|, [Symbol(TRP)]);
    ClosedBack(inner, ts, pos + 1, pos + 1 + |b|);
    ParenBack(ts, pos, Tree(inner), pos + 1 + |b|);
  }

  /** What stands in parentheses, or in those of a product. */
  lemma BracketsAre(f: Form)
    requires Proper(f, 0)
    ensures forall k: nat :: Proper(Parens(f), k) && Proper(Scaled(f), k)
    ensures Tree(Parens(f)) == Tree(f)
    ensures Tree(Scaled(f)) == ECombine(CSeq, ECombine(CPar, EAtom(AWire), Tree(f)), EAtom(ABinOp("*")))
    ensures Write(Parens(f)) == [Symbol(TLP)] + Write(f) + [Symbol(TRP)]
    ensures Write(Scaled(f)) == [Symbol(TStar), Symbol(TLP)] + Write(f) + [Symbol(TRP)]
  {
  }

  lemma InnerIs(inner: Form)
    requires Proper(Parens(inner), 0)
    ensures Proper(inner, 0)
  {
  }

  lemma FactorIs(factor: Form)
    requires Proper(Scaled(factor), 0)
    ensures Proper(factor, 0)
  {
  }

  /** A star and parentheses multiply what comes in by what they hold. */
  lemma {:induction false} ScaledBack(factor: Form, ts: seq<Token>, pos: nat)
    requires Proper(Scaled(factor), 0) && TokenList(ts) && At(ts, pos, Write(Scaled(factor)))
    ensures Proper(factor, 0) && Tree(Scaled(factor)) == ECombine(CSeq, ECombine(CPar, EAtom(AWire), Tree(factor)), EAtom(ABinOp("*")))
    ensures ParseAtom(ts, pos) == Parsed(Tree(Scaled(factor)), pos + |Write(Scaled(factor))|)
    decreases factor, 20
  {
    hide ParseAtom, TokenList, At, Stops, ParseLevel, Proper, Write, Tree;
    FactorIs(factor);
    BracketsAre(factor);
    var head, b := [Symbol(TStar), Symbol(TLP)], Write(factor);
    AtWithin(ts, pos, head + b + [Symbol(TRP)]);
    AtSplit(ts, pos, head + b, [Symbol(TRP)]);
    AtSplit(ts, pos, head, b);
    AtHead(ts, pos, head);
    AtFirst(ts, pos + 2 + |b|, [Symbol(TRP)]);
    assert ts[pos + 0] == head[0] && ts[pos + 1] == head[1];
    ClosedBack(factor, ts, pos + 2, pos + 2 + |b|);
    StarWord(ts, pos, Tree(factor), pos + 2 + |b|);
  }

  lemma StarWord(ts: seq<Token>, pos: nat, e: Expr, end: nat)
    requires TokenList(ts) && pos + 2 < |ts| && ts[pos].kind == TStar && ts[pos + 1].kind == TLP
    requires ParseLevel(ts, pos + 2, 0) == Parsed(e, end) && end < |ts| && ts[end].kind == TRP
    ensures ParseAtom(ts, pos) == Parsed(ECombine(CSeq, ECombine(CPar, EAtom(AWire), e), EAtom(ABinOp("*"))), end + 1)
  {
    hide ParseLevel, ParseWord, SymbolAtom;
    StarIsNoSymbol();
  }

  /** Parsing a written form, at the end of the input, gives its tree. */
  lemma {:induction false} WriteThenParse(f: Form)
    requires Proper(f, 0)
    ensures TokenList(Write(f) + [Symbol(TEof)])
    ensures ParseLevel(Write(f) + [Symbol(TEof)], 0, 0) == Parsed(Tree(f), |Write(f)|)
  {
    hide Write, Proper, Tree, ParseLevel;
    var ts := Write(f) + [Symbol(TEof)];
    NoEnd(f);
    assert ts[0..|Write(f)|] == Write(f);
    StopTokens(0);
    LevelBack(f, ts, 0, 0);
  }

  // ---- Every tree can be written, with parentheses around every operator.

  /** The trees the grammar can express: calls have at most one argument, and names have one part. */
  predicate Printable(e: Expr) {
    match e
    case ENum(_) => true
    case EAtom(a) => PrintableAtom(a)
    case ECombine(_, l, r) => Printable(l) && Printable(r)
    case EGroup(kind, _, body) => kind in GROUP_WORDS && Printable(body)
    case EIdent(n) => !Reserved(n)
    case ECall(n, args) => !Reserved(n) && |args| <= 1 && forall i :: 0 <= i < |args| ==> Printable(args[i])
    case _ => false
  }

  function Full(e: Expr): (f: Form)
    requires Printable(e)
    ensures !f.Infix?
  {
    match e
    case ENum(v) => Numeral(v)
    case EAtom(a) => Primitive(a)
    case ECombine(c, l, r) => Parens(Infix(c, Full(l), Full(r)))
    case EGroup(kind, name, body) => Grouped(kind, name, Full(body))
    case EIdent(n) => Name([n])
    case ECall(n, args) => if args == [] then BareCall([n]) else Call([n], Full(args[0]))
  }

  /** The full form of a tree is a proper one, of that tree. */
  lemma {:induction false} FullIs(e: Expr)
    requires Printable(e)
    ensures Proper(Full(e), 0) && Tree(Full(e)) == e && forall k :: 0 <= k <= 5 ==> Proper(Full(e), k)
    decreases e
  {
    hide Reserved, PrintableAtom, LevelOf;
    match e
    case ECombine(c, l, r) =>
      FullIs(l);
      FullIs(r);
      assert Proper(Full(l), LevelOf(c)) && Proper(Full(r), LevelOf(c) + 1);
      assert Proper(Infix(c, Full(l), Full(r)), 0);
    case EGroup(_, _, body) => FullIs(body);
    case ECall(n, args) => if args != [] { FullIs(args[0]); assert [args[0]] == args; }
    case _ =>
  }

  function Print(e: Expr): seq<Token>
    requires Printable(e)
  {
    FullIs(e);
    Write(Full(e))
  }

  /** Parsing a printed tree, at the end of the input, gives the tree back. */
  lemma {:induction false} PrintThenParse(e: Expr)
    requires Printable(e)
    ensures TokenList(Print(e) + [Symbol(TEof)])
    ensures ParseLevel(Print(e) + [Symbol(TEof)], 0, 0) == Parsed(e, |Print(e)|)
  {
    hide Printable, Full, Write, Proper, Tree, ParseLevel;
    FullIs(e);
    WriteThenParse(Full(e));
  }

  // ---- Precedence.

  /**
   Between three operands without parentheses, the operator further right in the list
   binds tighter; of two equal ones the first is taken first.
   */
  lemma {:induction false} Precedence(p: Expr, q: Expr, r: Expr, i: nat, j: nat)
    requires Printable(p) && Printable(q) && Printable(r) && i < 5 && j < 5
    ensures var ops := [(TTilde, CRec), (TMerge, CMerge), (TSplit, CSplit), (TColon, CSeq), (TComma, CPar)];
      var (t, c), (u, d) := ops[i], ops[j];
      var s := Print(p) + [Symbol(t)] + Print(q) + [Symbol(u)] + Print(r);
      && TokenList(s + [Symbol(TEof)])
      && ParseLevel(s + [Symbol(TEof)], 0, 0) ==
         Parsed(if i < j then ECombine(c, p, ECombine(d, q, r)) else ECombine(d, ECombine(c, p, q), r), |s|)
  {
    hide Printable, Full, Write, Proper, Tree, ParseLevel, Print;
    OperatorTable();
    FullIs(p);
    FullIs(q);
    FullIs(r);
    var c, d := LevelOp(i), LevelOp(j);
    PrintIs(p);
    PrintIs(q);
    PrintIs(r);
    if i < j {
      TighterRight(Full(p), Full(q), Full(r), c, d);
      WriteThenParse(Infix(c, Full(p), Infix(d, Full(q), Full(r))));
    } else {
      LeftFirst(Full(p), Full(q), Full(r), c, d);
      WriteThenParse(Infix(d, Infix(c, Full(p), Full(q)), Full(r)));
    }
  }

  lemma PrintIs(e: Expr)
    requires Printable(e)
    ensures Proper(Full(e), 0) && Print(e) == Write(Full(e))
  {
    hide Printable, Full, Write, Proper;
    FullIs(e);
  }

  lemma OperatorTable()
    ensures LevelToken(0) == TTilde && LevelToken(1) == TMerge && LevelToken(2) == TSplit && LevelToken(3) == TColon && LevelToken(4) == TComma
    ensures LevelOp(0) == CRec && LevelOp(1) == CMerge && LevelOp(2) == CSplit && LevelOp(3) == CSeq && LevelOp(4) == CPar
    ensures forall k :: 0 <= k < 5 ==> LevelOf(LevelOp(k)) == k
  {
  }

  lemma TighterRight(p: Form, q: Form, r: Form, c: Combinator, d: Combinator)
    requires (forall k :: 0 <= k <= 5 ==> Proper(p, k) && Proper(q, k) && Proper(r, k)) && LevelOf(c) < LevelOf(d)
    ensures var f := Infix(c, p, Infix(d, q, r));
      && Proper(f, 0) && Tree(f) == ECombine(c, Tree(p), ECombine(d, Tree(q), Tree(r)))
      && Write(f) == Write(p) + [Symbol(LevelToken(LevelOf(c)))] + Write(q) + [Symbol(LevelToken(LevelOf(d)))] + Write(r)
  {
    hide LevelToken, LevelOf, Proper, Write, Tree;
    var g := Infix(d, q, r);
    assert Proper(q, LevelOf(d)) && Proper(r, LevelOf(d) + 1) && Proper(p, LevelOf(c));
    InfixProper(d, q, r, 0);
    InfixProper(d, q, r, LevelOf(c) + 1);
    InfixProper(c, p, g, 0);
    InfixWritten(d, q, r);
    InfixWritten(c, p, g);
    var x, y := [Symbol(LevelToken(LevelOf(c)))], [Symbol(LevelToken(LevelOf(d)))];
    assert Write(p) + x + Write(q) + y + Write(r) == Write(p) + x + (Write(q) + y + Write(r));
  }

  lemma LeftFirst(p: Form, q: Form, r: Form, c: Combinator, d: Combinator)
    requires (forall k :: 0 <= k <= 5 ==> Proper(p, k) && Proper(q, k) && Proper(r, k)) && LevelOf(c) >= LevelOf(d)
    ensures var f := Infix(d, Infix(c, p, q), r);
      && Proper(f, 0) && Tree(f) == ECombine(d, ECombine(c, Tree(p), Tree(q)), Tree(r))
      && Write(f) == Write(p) + [Symbol(LevelToken(LevelOf(c)))] + Write(q) + [Symbol(LevelToken(LevelOf(d)))] + Write(r)
  {
    hide LevelToken, LevelOf, Proper, Write, Tree;
    var g := Infix(c, p, q);
    assert Proper(p, LevelOf(c)) && Proper(q, LevelOf(c) + 1) && Proper(r, LevelOf(d) + 1);
    InfixProper(c, p, q, 0);
    InfixProper(c, p, q, LevelOf(d));
    InfixProper(d, g, r, 0);
    InfixWritten(c, p, q);
    InfixWritten(d, g, r);
  }

  lemma InfixProper(c: Combinator, l: Form, r: Form, k: nat)
    requires k <= LevelOf(c) && Proper(l, LevelOf(c)) && Proper(r, LevelOf(c) + 1)
    ensures Proper(Infix(c, l, r), k) && Proper(l, 0) && Proper(r, 0)
  {
    hide LevelOf;
    Loosened(l, LevelOf(c));
    Loosened(r, LevelOf(c) + 1);
  }

  lemma InfixWritten(c: Combinator, l: Form, r: Form)
    requires Proper(Infix(c, l, r), 0) && Proper(l, 0) && Proper(r, 0)
    ensures Write(Infix(c, l, r)) == Write(l) + [Symbol(LevelToken(LevelOf(c)))] + Write(r)
    ensures Tree(Infix(c, l, r)) == ECombine(c, Tree(l), Tree(r))
  {
    hide LevelToken, LevelOf, Write, Tree, Proper;
    InfixParts(Infix(c, l, r));
  }

  // ---- No written form holds an end mark.

  lemma {:induction false} NoEnd(f: Form)
    requires Proper(f, 0)
    ensures NoEnds(Write(f))
    decreases f
  {
    hide Write, Proper, Tree, LevelToken, LevelOf, NoEnds, WriteName, Joined, Symbol;
    if f.Infix? {
      InfixParts(f);
      NoEnd(f.left);
      NoEnd(f.right);
      InfixNoEnd(f);
    } else if f.Grouped? {
      GroupParts(f);
      NoEnd(f.body);
      GroupNoEnd(f.kind, f.title, Write(f.body));
    } else if f.Call? {
      CallParts(f.parts, f.arg);
      NoEnd(f.arg);
      NoEndName(f.parts);
      CallNoEnd(WriteName(f.parts), Write(f.arg));
    } else if f.Parens? || f.Scaled? {
      var g := if f.Parens? then f.inner else f.factor;
      BracketParts(f);
      NoEnd(g);
      BracketedNoEnd(f, g);
    } else {
      NoEndLeaf(f);
    }
  }

  lemma InfixNoEnd(f: Form)
    requires f.Infix? && Proper(f, 0) && Proper(f.left, 0) && Proper(f.right, 0)
    requires NoEnds(Write(f.left)) && NoEnds(Write(f.right))
    ensures NoEnds(Write(f))
  {
    hide Write, Proper, Tree, LevelToken, LevelOf, NoEnds;
    InfixParts(f);
    NoEndToken(LevelOf(f.comb));
    NoEndsJoin(Write(f.left), Symbol(LevelToken(LevelOf(f.comb))), Write(f.right));
  }

  lemma GroupNoEnd(kind: string, title: string, s: seq<Token>)
    requires NoEnds(s)
    ensures NoEnds([Word(kind), Symbol(TLP), Title(title), Symbol(TComma)] + s + [Symbol(TRP)])
  {
    hide NoEnds;
    NoEndsFour([Word(kind), Symbol(TLP), Title(title), Symbol(TComma)]);
    NoEndsClosed([Word(kind), Symbol(TLP), Title(title), Symbol(TComma)], s);
  }

  lemma CallNoEnd(s: seq<Token>, t: seq<Token>)
    requires NoEnds(s) && NoEnds(t)
    ensures NoEnds(s + [Symbol(TLP)] + t + [Symbol(TRP)])
  {
    hide NoEnds;
    NoEndsJoin(s, Symbol(TLP), t);
    NoEndsClosed(s + [Symbol(TLP)] + t, []);
    assert s + [Symbol(TLP)] + t + [] + [Symbol(TRP)] == s + [Symbol(TLP)] + t + [Symbol(TRP)];
  }

  lemma BracketParts(f: Form)
    requires Proper(f, 0) && (f.Parens? || f.Scaled?)
    ensures var g := if f.Parens? then f.inner else f.factor;
      Proper(g, 0) && Write(f) == (if f.Parens? then [Symbol(TLP)] else [Symbol(TStar), Symbol(TLP)]) + Write(g) + [Symbol(TRP)]
  {
  }

  lemma BracketedNoEnd(f: Form, g: Form)
    requires Proper(f, 0) && Proper(g, 0) && (f.Parens? || f.Scaled?) && NoEnds(Write(g))
    requires Write(f) == (if f.Parens? then [Symbol(TLP)] else [Symbol(TStar), Symbol(TLP)]) + Write(g) + [Symbol(TRP)]
    ensures NoEnds(Write(f))
  {
    hide Write, Proper;
  }

  lemma NoEndLeaf(f: Form)
    requires Proper(f, 0) && (f.Numeral? || f.Primitive? || f.Name? || f.BareCall?)
    ensures NoEnds(Write(f))
  {
    hide PrintAtom, NoEnds, PrintableAtom, Reserved, NUMERAL, WriteName, Joined;
    match f
    case Numeral(v) => NoEndOne(Number(v));
    case Primitive(a) => NoEndAtom(a);
    case Name(parts) => NoEndName(parts);
    case BareCall(parts) => NoEndName(parts); BareNoEnd(parts);
  }

  lemma BareNoEnd(parts: seq<string>)
    requires parts != [] && NoEnds(WriteName(parts))
    ensures NoEnds(WriteName(parts) + [Symbol(TLP)] + [Symbol(TRP)])
  {
    hide WriteName;
  }

  lemma {:induction false} NoEndName(parts: seq<string>)
    requires parts != []
    ensures NoEnds(WriteName(parts))
    decreases |parts|
  {
    if |parts| > 1 { NoEndName(parts[..|parts| - 1]); }
  }

  lemma NoEndsJoin(s: seq<Token>, t: Token, u: seq<Token>)
    requires NoEnds(s) && NoEnds(u) && t.kind != TEof
    ensures NoEnds(s + [t] + u)
  {
  }

  lemma NoEndsClosed(head: seq<Token>, s: seq<Token>)
    requires NoEnds(head) && (s == [] || NoEnds(s))
    ensures NoEnds(head + s + [Symbol(TRP)])
  {
  }

  /** No token is the end mark. */
  predicate NoEnds(s: seq<Token>) { forall i :: 0 <= i < |s| ==> s[i].kind != TEof }

  lemma NoEndOne(t: Token)
    requires t.kind != TEof
    ensures NoEnds([t])
  {
  }

  lemma NoEndsFour(s: seq<Token>)
    requires |s| == 4 && s[0].kind != TEof && s[1].kind != TEof && s[2].kind != TEof && s[3].kind != TEof
    ensures NoEnds(s)
  {
  }

  lemma NoEndsAfter(t: Token, s: seq<Token>)
    requires t.kind != TEof && NoEnds(s)
    ensures NoEnds([t] + s)
  {
  }

  lemma NoEndAtom(a: Atom)
    ensures NoEnds(PrintAtom(a))
  {
    hide OpSymbol, NUMERAL, PrintFields, NoEnds;
    if a.ASlider? || a.ANentry? {
      NoEndFields(a.name, a.init, a.lo, a.hi, a.step);
      var w := if a.ASlider? then a.kind else "nentry";
      NoEndOne(Word(w));
      NoEndsAfter(Word(w), PrintFields(a.name, a.init, a.lo, a.hi, a.step));
    } else if a.AButton? || a.ACheckbox? {
      NoEndsFour(PrintAtom(a));
    } else {
      if a.ABinOp? && OpSymbol(a.op).Some? { NoEndOp(a.op); }
      NoEndOne(PrintAtom(a)[0]);
    }
  }

  lemma NoEndFields(name: string, init: Sample, lo: Sample, hi: Sample, step: Sample)
    ensures NoEnds(PrintFields(name, init, lo, hi, step))
  {
    hide NUMERAL;
  }

  lemma NoEndOp(op: string)
    requires OpSymbol(op).Some?
    ensures OpSymbol(op).value != TEof
  {
  }

  lemma NoEndToken(k: nat)
    requires k < 5
    ensures LevelToken(k) != TEof
  {
  }

  /** What may stand where: an operator at its own level and every lower one, all else anywhere; names and titles are free but for the words of the grammar. */
  lemma FormsAre(f: Form, k: nat)
    ensures f.Numeral? || (f.Primitive? && (f.atom.AWire? || f.atom.ACut? || f.atom.AMem? || f.atom.ADelay? || f.atom.ASelect2?)) ==> Proper(f, k)
    ensures f.Primitive? && (f.atom.AButton? || f.atom.ACheckbox? || f.atom.ANentry?) ==> Proper(f, k)
    ensures f.Primitive? && f.atom.ASlider? ==> (Proper(f, k) <==> f.atom.kind == "hslider" || f.atom.kind == "vslider")
    ensures f.Name? || f.BareCall? ==> (Proper(f, k) <==> f.parts != [] && !Reserved(Joined(f.parts)))
    ensures f.Call? ==> (Proper(f, k) <==> f.parts != [] && !Reserved(Joined(f.parts)) && Proper(f.arg, 0))
    ensures f.Grouped? ==> (Proper(f, k) <==> (f.kind == "hgroup" || f.kind == "vgroup" || f.kind == "tgroup") && Proper(f.body, 0))
    ensures f.Infix? ==> (Proper(f, k) <==> k <= LevelOf(f.comb) && Proper(f.left, LevelOf(f.comb)) && Proper(f.right, LevelOf(f.comb) + 1))
    ensures f.Parens? ==> (Proper(f, k) <==> Proper(f.inner, 0))
    ensures f.Scaled? ==> (Proper(f, k) <==> Proper(f.factor, 0))
  {
    hide Reserved, Joined, LevelOf, OpSymbol, BINARY_WORDS, UNARY_OPS;
  }

  /** The operators that can be written: ten symbols, five words of two channels and seventeen of one. */
  lemma OperatorsAre(op: string)
    ensures PrintableAtom(ABinOp(op)) <==> op in {
      "+", "-", "*", "/", "%", "^", "&", "|", "<<", ">>", "min", "max", "atan2", "remainder", "xor"
    }
    ensures PrintableAtom(AUnaryOp(op)) <==> op in {
      "sin", "cos", "tan", "asin", "acos", "atan", "sqrt", "exp", "log", "log10", "abs", "floor", "ceil",
      "rint", "int", "float", "neg"
    }
  {
  }

  // ---- The words and symbols of the grammar.

  /** The one-token primitives, wherever they stand; a star is one unless a parenthesis follows. */
  lemma PrimitiveSymbols(ts: seq<Token>, pos: nat)
    requires TokenList(ts) && pos + 1 < |ts|
    ensures ts[pos].kind == TUnder ==> ParseAtom(ts, pos) == Parsed(EAtom(AWire), pos + 1)
    ensures ts[pos].kind == TBang ==> ParseAtom(ts, pos) == Parsed(EAtom(ACut), pos + 1)
    ensures ts[pos].kind == TAt ==> ParseAtom(ts, pos) == Parsed(EAtom(ADelay), pos + 1)
    ensures ts[pos].kind == TPlus ==> ParseAtom(ts, pos) == Parsed(EAtom(ABinOp("+")), pos + 1)
    ensures ts[pos].kind == TMinus ==> ParseAtom(ts, pos) == Parsed(EAtom(ABinOp("-")), pos + 1)
    ensures ts[pos].kind == TSlash ==> ParseAtom(ts, pos) == Parsed(EAtom(ABinOp("/")), pos + 1)
    ensures ts[pos].kind == TPercent ==> ParseAtom(ts, pos) == Parsed(EAtom(ABinOp("%")), pos + 1)
    ensures ts[pos].kind == TCaret ==> ParseAtom(ts, pos) == Parsed(EAtom(ABinOp("^")), pos + 1)
    ensures ts[pos].kind == TAmp ==> ParseAtom(ts, pos) == Parsed(EAtom(ABinOp("&")), pos + 1)
    ensures ts[pos].kind == TPipe ==> ParseAtom(ts, pos) == Parsed(EAtom(ABinOp("|")), pos + 1)
    ensures ts[pos].kind == TLShift ==> ParseAtom(ts, pos) == Parsed(EAtom(ABinOp("<<")), pos + 1)
    ensures ts[pos].kind == TRShift ==> ParseAtom(ts, pos) == Parsed(EAtom(ABinOp(">>")), pos + 1)
    ensures ts[pos].kind == TStar && ts[pos + 1].kind != TLP ==> ParseAtom(ts, pos) == Parsed(EAtom(ABinOp("*")), pos + 1)
    ensures ts[pos].kind == TNum ==> ParseAtom(ts, pos) == Parsed(ENum(ts[pos].num), pos + 1)
    ensures ts[pos].kind in {TEof, TColon, TComma, TSemi, TEq, TRP, TLB, TRB, TStr, TSplit, TMerge, TTilde, TDot} ==> ParseAtom(ts, pos) == Failed
  {
    hide ParseAtom, SymbolAtom;
    SymbolTable();
    MoreSymbols();
    LastSymbols();
    SymbolRead(ts, pos);
    OthersRead(ts, pos);
  }

  lemma SymbolTable()
    ensures SymbolAtom(TUnder) == Some(AWire) && SymbolAtom(TBang) == Some(ACut) && SymbolAtom(TAt) == Some(ADelay)
    ensures SymbolAtom(TPlus) == Some(ABinOp("+")) && SymbolAtom(TMinus) == Some(ABinOp("-")) && SymbolAtom(TSlash) == Some(ABinOp("/"))
  {
  }

  lemma MoreSymbols()
    ensures SymbolAtom(TPercent) == Some(ABinOp("%")) && SymbolAtom(TCaret) == Some(ABinOp("^")) && SymbolAtom(TAmp) == Some(ABinOp("&"))
  {
  }

  lemma LastSymbols()
    ensures SymbolAtom(TPipe) == Some(ABinOp("|")) && SymbolAtom(TLShift) == Some(ABinOp("<<")) && SymbolAtom(TRShift) == Some(ABinOp(">>"))
  {
  }

  lemma SymbolRead(ts: seq<Token>, pos: nat)
    requires TokenList(ts) && pos + 1 < |ts|
    ensures SymbolAtom(ts[pos].kind).Some? ==> ParseAtom(ts, pos) == Parsed(EAtom(SymbolAtom(ts[pos].kind).value), pos + 1)
  {
    hide ParseLevel, ParseWord, Qualified;
  }

  lemma OthersRead(ts: seq<Token>, pos: nat)
    requires TokenList(ts) && pos + 1 < |ts|
    ensures ts[pos].kind == TStar && ts[pos + 1].kind != TLP ==> ParseAtom(ts, pos) == Parsed(EAtom(ABinOp("*")), pos + 1)
    ensures ts[pos].kind == TNum ==> ParseAtom(ts, pos) == Parsed(ENum(ts[pos].num), pos + 1)
    ensures ts[pos].kind in {TEof, TColon, TComma, TSemi, TEq, TRP, TLB, TRB, TStr, TSplit, TMerge, TTilde, TDot} ==> ParseAtom(ts, pos) == Failed
  {
    hide ParseLevel, ParseWord, Qualified;
  }

  /** The words that are primitives, and all the words that are no names. */
  lemma PrimitiveWords(w: string)
    ensures w in {
      "sin", "cos", "tan", "asin", "acos", "atan", "sqrt", "exp", "log", "log10", "abs", "floor", "ceil",
      "rint", "int", "float", "neg"
    } ==> WordAtom(w) == Some(AUnaryOp(w))
    ensures w in {"min", "max", "atan2", "remainder", "xor"} ==> WordAtom(w) == Some(ABinOp(w))
    ensures WordAtom("mem") == Some(AMem) && WordAtom("select2") == Some(ASelect2)
    ensures Reserved(w) <==> w in {
      "sin", "cos", "tan", "asin", "acos", "atan", "sqrt", "exp", "log", "log10", "abs", "floor", "ceil",
      "rint", "int", "float", "neg", "min", "max", "atan2", "remainder", "xor", "mem", "select2", "hslider",
      "vslider", "nentry", "button", "checkbox", "hgroup", "vgroup", "tgroup", "declare", "import"
    }
  {
  }

  /** What controls, groups, parentheses and calls demand; whatever stands in the place of a label or a number is taken for one. */
  lemma ControlDemands(ts: seq<Token>, pos: nat, button: bool, kind: string)
    requires TokenList(ts) && pos + 11 < |ts|
    ensures ParseLabelled(ts, pos, button) ==
      if ts[pos].kind == TLP && ts[pos + 2].kind == TRP then
        Parsed(EAtom(if button then AButton(ts[pos + 1].text) else ACheckbox(ts[pos + 1].text)), pos + 3)
      else Failed
    ensures ParseSlider(ts, pos, kind).Parsed? <==>
      && ts[pos].kind == TLP && ts[pos + 2].kind == TComma && ts[pos + 4].kind == TComma && ts[pos + 6].kind == TComma
      && ts[pos + 8].kind == TComma && ts[pos + 10].kind == TRP
  {
  }

  /** An opening parenthesis, a group's title and a call's first parenthesis must be closed after a whole expression. */
  lemma BracketDemands(ts: seq<Token>, pos: nat, n: string)
    requires TokenList(ts) && 0 < pos && pos + 4 < |ts|
    ensures ts[pos].kind == TLP ==>
      var x := ParseLevel(ts, pos + 1, 0);
      ParseAtom(ts, pos) == if x.Parsed? && ts[x.pos].kind == TRP then Parsed(x.e, x.pos + 1) else Failed
    ensures ts[pos].kind == TStar && ts[pos + 1].kind == TLP && ParseAtom(ts, pos).Parsed? ==>
      var x := ParseLevel(ts, pos + 2, 0); x.Parsed? && ts[x.pos].kind == TRP
    ensures n in GROUP_WORDS ==>
      var x := ParseLevel(ts, pos + 3, 0);
      ParseWord(ts, pos, n).Parsed? <==> ts[pos].kind == TLP && ts[pos + 2].kind == TComma && x.Parsed? && ts[x.pos].kind == TRP
    ensures !Reserved(n) && ts[pos].kind == TLP && ts[pos + 1].kind != TRP && ParseWord(ts, pos, n).Parsed? ==>
      var x := ParseLevel(ts, pos + 1, 0); x.Parsed? && ts[x.pos].kind == TRP
  {
    hide ParseLevel, ParseAtom, ParseWord, GROUP_WORDS, Reserved;
    ParenDemands(ts, pos);
    if n in GROUP_WORDS { GroupDemands(ts, pos, n); }
    if !Reserved(n) && ts[pos].kind == TLP && ts[pos + 1].kind != TRP && ParseWord(ts, pos, n).Parsed? {
      CallDemands(ts, pos, n);
    }
  }

  lemma ParenDemands(ts: seq<Token>, pos: nat)
    requires TokenList(ts) && 0 < pos && pos + 4 < |ts|
    ensures ts[pos].kind == TLP ==>
      var x := ParseLevel(ts, pos + 1, 0);
      ParseAtom(ts, pos) == if x.Parsed? && ts[x.pos].kind == TRP then Parsed(x.e, x.pos + 1) else Failed
    ensures ts[pos].kind == TStar && ts[pos + 1].kind == TLP && ParseAtom(ts, pos).Parsed? ==>
      var x := ParseLevel(ts, pos + 2, 0); x.Parsed? && ts[x.pos].kind == TRP
  {
    hide ParseLevel, SymbolAtom, ParseWord;
    StarIsNoSymbol();
  }

  lemma GroupDemands(ts: seq<Token>, pos: nat, n: string)
    requires TokenList(ts) && 0 < pos && pos + 4 < |ts| && n in GROUP_WORDS
    ensures var x := ParseLevel(ts, pos + 3, 0);
      ParseWord(ts, pos, n).Parsed? <==> ts[pos].kind == TLP && ts[pos + 2].kind == TComma && x.Parsed? && ts[x.pos].kind == TRP
  {
    hide ParseLevel, WordAtom;
    ControlWords(n);
  }

  lemma CallDemands(ts: seq<Token>, pos: nat, n: string)
    requires TokenList(ts) && 0 < pos && pos + 4 < |ts| && !Reserved(n)
    requires ts[pos].kind == TLP && ts[pos + 1].kind != TRP && ParseWord(ts, pos, n).Parsed?
    ensures var x := ParseLevel(ts, pos + 1, 0); x.Parsed? && ts[x.pos].kind == TRP
  {
    hide ParseLevel, WordAtom;
    ArgsWord(ts, pos, n);
    OneArg(ts, pos + 1);
  }

  /** A declaration or an import in the place of an expression stands for nothing, up to the next semicolon or the end. */
  lemma {:induction false} SkippedWord(ts: seq<Token>, pos: nat, end: nat, n: string)
    requires TokenList(ts) && 0 < pos <= end < |ts| && (n == "declare" || n == "import")
    requires ts[end].kind == TSemi || ts[end].kind == TEof
    requires forall i :: pos <= i < end ==> ts[i].kind != TSemi && ts[i].kind != TEof
    ensures ParseWord(ts, pos, n) == Parsed(ENull, end)
  {
    hide TokenList, SkipStatement, WordAtom;
    SkipsTo(ts, pos, end);
    SkippedWords(n);
  }

  lemma SkippedWords(n: string)
    requires n == "declare" || n == "import"
    ensures WordAtom(n).None? && n in SKIPPED_WORDS
    ensures n !in SLIDER_WORDS && n !in CONTROL_WORDS && n !in GROUP_WORDS
  {
  }

  lemma {:induction false} SkipsTo(ts: seq<Token>, pos: nat, end: nat)
    requires TokenList(ts) && pos <= end < |ts| && (ts[end].kind == TSemi || ts[end].kind == TEof)
    requires forall i :: pos <= i < end ==> ts[i].kind != TSemi && ts[i].kind != TEof
    ensures SkipStatement(ts, pos) == end
    decreases end - pos
  {
    hide TokenList;
    if pos < end { SkipsTo(ts, pos + 1, end); }
  }

  // ---- The comma belongs to `,`: a call never gets a second argument.

  predicate OneArgCalls(e: Expr) {
    match e
    case ECombine(_, l, r) => OneArgCalls(l) && OneArgCalls(r)
    case EFixedDelay(length) => OneArgCalls(length)
    case EGroup(_, _, body) => OneArgCalls(body)
    case ECall(_, args) => |args| <= 1 && forall i :: 0 <= i < |args| ==> OneArgCalls(args[i])
    case _ => true
  }

  /** A parsed level leaves none of its operators behind. */
  lemma {:induction false} LevelExhausts(ts: seq<Token>, pos: nat, k: nat, j: nat)
    requires TokenList(ts) && pos < |ts| && k <= j < 5 && ParseLevel(ts, pos, k).Parsed?
    ensures Cur(ts, ParseLevel(ts, pos, k).pos).kind != LevelToken(j)
    decreases |ts| - pos, 6 - k
  {
    hide ParseAtom;
    var l := ParseLevel(ts, pos, k + 1);
    if k < j {
      LevelExhausts(ts, pos, k + 1, j);
    }
    LoopExhausts(ts, l.e, l.pos, k, j);
  }

  lemma {:induction false} LoopExhausts(ts: seq<Token>, l: Expr, pos: nat, k: nat, j: nat)
    requires TokenList(ts) && pos < |ts| && k <= j < 5 && ParseLoop(ts, l, pos, k).Parsed?
    requires k < j ==> Cur(ts, pos).kind != LevelToken(j)
    ensures Cur(ts, ParseLoop(ts, l, pos, k).pos).kind != LevelToken(j)
    decreases |ts| - pos, 6
  {
    hide ParseAtom, ParseLevel;
    if Sees(ts, pos, LevelToken(k)) {
      var r := ParseLevel(ts, pos + 1, k + 1);
      if k < j {
        LevelExhausts(ts, pos + 1, k + 1, j);
      }
      LoopExhausts(ts, ECombine(LevelOp(k), l, r.e), r.pos, k, j);
    }
  }

  /** Whatever the tokens, every call in a parsed tree has at most one argument. */
  lemma {:induction false} CallsHaveOneArgument(ts: seq<Token>, pos: nat, k: nat)
    requires TokenList(ts) && pos < |ts| && k <= 5 && ParseLevel(ts, pos, k).Parsed?
    ensures OneArgCalls(ParseLevel(ts, pos, k).e)
    decreases |ts| - pos, 6 - k
  {
    hide ParseAtom;
    if k == 5 {
      AtomOneArg(ts, pos);
    } else {
      CallsHaveOneArgument(ts, pos, k + 1);
      var l := ParseLevel(ts, pos, k + 1);
      LoopOneArg(ts, l.e, l.pos, k);
    }
  }

  lemma {:induction false} LoopOneArg(ts: seq<Token>, l: Expr, pos: nat, k: nat)
    requires TokenList(ts) && pos < |ts| && k < 5 && ParseLoop(ts, l, pos, k).Parsed? && OneArgCalls(l)
    ensures OneArgCalls(ParseLoop(ts, l, pos, k).e)
    decreases |ts| - pos, 6
  {
    hide ParseLevel;
    if Sees(ts, pos, LevelToken(k)) {
      CallsHaveOneArgument(ts, pos + 1, k + 1);
      var r := ParseLevel(ts, pos + 1, k + 1);
      LoopOneArg(ts, ECombine(LevelOp(k), l, r.e), r.pos, k);
    }
  }

  lemma {:induction false} AtomOneArg(ts: seq<Token>, pos: nat)
    requires TokenList(ts) && pos < |ts| && ParseAtom(ts, pos).Parsed?
    ensures OneArgCalls(ParseAtom(ts, pos).e)
    decreases |ts| - pos, 0
  {
    hide ParseLevel, ParseWord, SymbolAtom;
    var t := Cur(ts, pos);
    if SymbolAtom(t.kind).Some? {
    } else if t.kind == TStar && Sees(ts, pos + 1, TLP) {
      CallsHaveOneArgument(ts, pos + 2, 0);
      var x := ParseLevel(ts, pos + 2, 0);
      assert OneArgCalls(ECombine(CPar, EAtom(AWire), x.e));
    } else if t.kind == TLP {
      CallsHaveOneArgument(ts, pos + 1, 0);
    } else if t.kind == TId {
      var q := Qualified(ts, pos + 1, t.text);
      WordOneArg(ts, q.1, q.0);
    }
  }

  /** The arguments after an opening parenthesis: the first level takes the commas too. */
  lemma OneArg(ts: seq<Token>, pos: nat)
    requires TokenList(ts) && pos < |ts| && ParseArgs(ts, pos).ArgsParsed?
    ensures ParseLevel(ts, pos, 0).Parsed? && ParseArgs(ts, pos).args == [ParseLevel(ts, pos, 0).e]
  {
    hide ParseLevel;
    LevelExhausts(ts, pos, 0, 4);
  }

  lemma ArgsWord(ts: seq<Token>, pos: nat, name: string)
    requires TokenList(ts) && 0 < pos < |ts| && Sees(ts, pos, TLP) && !Sees(ts, pos + 1, TRP)
    requires WordAtom(name).None? && name !in SLIDER_WORDS && name !in CONTROL_WORDS && name !in GROUP_WORDS && name !in SKIPPED_WORDS
    requires ParseWord(ts, pos, name).Parsed?
    ensures ParseArgs(ts, pos + 1).ArgsParsed? && ParseWord(ts, pos, name).e == ECall(name, ParseArgs(ts, pos + 1).args)
  {
    hide ParseArgs, ParseLevel, WordAtom;
  }

  lemma {:induction false} WordOneArg(ts: seq<Token>, pos: nat, name: string)
    requires TokenList(ts) && 0 < pos < |ts| && ParseWord(ts, pos, name).Parsed?
    ensures OneArgCalls(ParseWord(ts, pos, name).e)
    decreases |ts| - pos, 7
  {
    hide ParseLevel, WordAtom, ParseArgs;
    if WordAtom(name).None? && name !in SLIDER_WORDS && name !in CONTROL_WORDS {
      if name in GROUP_WORDS {
        CallsHaveOneArgument(ts, pos + 3, 0);
      } else if name !in SKIPPED_WORDS && Sees(ts, pos, TLP) && !Sees(ts, pos + 1, TRP) {
        ArgsWord(ts, pos, name);
        OneArg(ts, pos + 1);
        CallsHaveOneArgument(ts, pos + 1, 0);
      }
    }
  }
}
