/**
 Patches: texts that use the short form of a product, from their characters to
 their samples.
 */
module Patches {
  import opened Wrappers
  import opened Samples
  import opened Exprs
  import opened Syntax
  import opened Lexing
  import opened Printing
  import opened Programs
  import opened Graphs
  import opened Streams
  import Meanings
  import Equations

  /** The wire beside e, and both into a product. */
  function Product(e: Expr): Expr { ECombine(CSeq, ECombine(CPar, EAtom(AWire), e), EAtom(ABinOp("*"))) }

  /** (_, (f)) : * */
  function LongProduct(f: Form): Form {
    Infix(CSeq, Parens(Infix(CPar, Primitive(AWire), Parens(f))), Primitive(ABinOp("*")))
  }

  lemma ProductForms(f: Form)
    requires Proper(f, 0)
    ensures Proper(Scaled(f), 0) && Tree(Scaled(f)) == Product(Tree(f))
    ensures Proper(LongProduct(f), 0) && Tree(LongProduct(f)) == Product(Tree(f))
  {
    hide Proper, Tree, Write, LevelOf;
    OneWord(AWire);
    OneWord(ABinOp("*"));
    BracketsAre(f);
    LevelsAre();
    var wire, pair := Primitive(AWire), Infix(CPar, Primitive(AWire), Parens(f));
    InfixProper(CPar, wire, Parens(f), 0);
    InfixWritten(CPar, wire, Parens(f));
    BracketsAre(pair);
    InfixProper(CSeq, Parens(pair), Primitive(ABinOp("*")), 0);
    InfixWritten(CSeq, Parens(pair), Primitive(ABinOp("*")));
  }

  lemma OneWord(a: Atom)
    requires a == AWire || a == ABinOp("*")
    ensures forall k: nat :: Proper(Primitive(a), k)
    ensures Tree(Primitive(a)) == EAtom(a)
  {
    hide OpSymbol, BINARY_WORDS;
    StarIsAtom();
  }

  lemma StarIsAtom()
    ensures PrintableAtom(ABinOp("*"))
  {
  }

  /** A star, an expression in parentheses: the tree of the wire beside it, both into a product, as the long form has it. */
  lemma {:induction false} StarParses(f: Form)
    requires Proper(f, 0)
    ensures var short, e := [Symbol(TStar), Symbol(TLP)] + Write(f) + [Symbol(TRP), Symbol(TEof)],
        ECombine(CSeq, ECombine(CPar, EAtom(AWire), Tree(f)), EAtom(ABinOp("*")));
      && TokenList(short) && ParseLevel(short, 0, 0) == Parsed(e, |short| - 1)
      && Proper(LongProduct(f), 0) && TokenList(Write(LongProduct(f)) + [Symbol(TEof)])
      && ParseLevel(Write(LongProduct(f)) + [Symbol(TEof)], 0, 0) == Parsed(e, |Write(LongProduct(f))|)
  {
    hide ParseLevel, TokenList, Proper, Tree, Write;
    ProductForms(f);
    BracketsAre(f);
    WriteThenParse(Scaled(f));
    WriteThenParse(LongProduct(f));
    assert Write(Scaled(f)) + [Symbol(TEof)] == [Symbol(TStar), Symbol(TLP)] + Write(f) + [Symbol(TRP), Symbol(TEof)];
  }

  /** One more token at the front of a text. */
  lemma {:induction false} OneMore(k: Tok, src: string, rest: string, all: seq<Token>, ts: seq<Token>, end: Option<seq<Token>>)
    requires IsSymbol(k) && k != TSlash && k != TPlus && k != TColon && k != TMerge
    requires src == SymbolText(k) + rest && all == [Symbol(k)] + ts
    requires Lex(rest, 0) == After(ts, end)
    ensures Lex(src, 0) == After(all, end)
  {
    hide Lex, SymbolText, Spellable, Spell;
    SymbolTokens(k);
    TokenFirst(Symbol(k), rest);
    Afters([Symbol(k)], ts, end);
  }

  lemma {:induction false} SpaceThen(src: string, rest: string)
    requires src == [' '] + rest
    ensures Lex(src, 0) == Lex(rest, 0)
  {
    BlankFirst(' ', rest);
  }

  lemma Afters(s: seq<Token>, t: seq<Token>, rest: Option<seq<Token>>)
    ensures After(s, After(t, rest)) == After(s + t, rest)
  {
    if rest.Some? { assert s + (t + rest.value) == s + t + rest.value; }
  }

  lemma NoneBeforeIs(rest: Option<seq<Token>>)
    ensures rest == After([], rest)
  {
    NoneBefore(rest);
  }

  /** What ends the text, and what begins it. */
  lemma {:induction false} TextEnds(rest: string)
    ensures Lex(");" + rest, 0) == After([Symbol(TRP), Symbol(TSemi)], Lex(rest, 0))
  {
    hide Lex, SymbolText, After, IsSymbol;
    BracketSpellings();
    TheSymbols();
    NoneBeforeIs(Lex(rest, 0));
    OneMore(TSemi, ";" + rest, rest, [Symbol(TSemi)], [], Lex(rest, 0));
    OneMore(TRP, ");" + rest, ";" + rest, [Symbol(TRP), Symbol(TSemi)], [Symbol(TSemi)], Lex(rest, 0));
  }

  lemma TheSymbols()
    ensures IsSymbol(TRP) && IsSymbol(TLP) && IsSymbol(TSemi) && IsSymbol(TStar) && IsSymbol(TEq)
  {
  }

  lemma {:induction false} StarOpens(rest: string)
    ensures Lex("*(" + rest, 0) == After([Symbol(TStar), Symbol(TLP)], Lex(rest, 0))
  {
    hide Lex, SymbolText, After, IsSymbol;
    BracketSpellings();
    ArithmeticSpellings();
    TheSymbols();
    NoneBeforeIs(Lex(rest, 0));
    OneMore(TLP, "(" + rest, rest, [Symbol(TLP)], [], Lex(rest, 0));
    OneMore(TStar, "*(" + rest, "(" + rest, [Symbol(TStar), Symbol(TLP)], [Symbol(TLP)], Lex(rest, 0));
  }

  lemma {:induction false} TextOpens(rest: string)
    ensures Lex("process = *(" + rest, 0) == After([Word("process"), Symbol(TEq), Symbol(TStar), Symbol(TLP)], Lex(rest, 0))
  {
    hide Lex, SymbolText, After, IsSymbol;
    var t2, all := "*(" + rest, Lex(rest, 0);
    var t1 := [' '] + t2;
    var t0 := ['='] + t1;
    StarOpens(rest);
    SpaceThen(t1, t2);
    EqualsThen(t0, t1, [Symbol(TStar), Symbol(TLP)], all);
    SpaceThen([' '] + t0, t0);
    ProcessFirst([' '] + t0);
    Afters([Word("process")], [Symbol(TEq), Symbol(TStar), Symbol(TLP)], all);
    assert [Symbol(TEq)] + [Symbol(TStar), Symbol(TLP)] == [Symbol(TEq), Symbol(TStar), Symbol(TLP)];
    assert [Word("process")] + [Symbol(TEq), Symbol(TStar), Symbol(TLP)] == [Word("process"), Symbol(TEq), Symbol(TStar), Symbol(TLP)];
    OpensAs(rest);
  }

  lemma Joins(all: string, a: string, b: string, rest: string)
    requires all == a + b
    ensures all + rest == a + (b + rest)
  {
  }

  lemma Joins3(a: string, b: string, c: string)
    ensures a + (b + c) == a + b + c
  {
  }

  lemma OpensAs(rest: string)
    ensures "process = *(" + rest == "process" + ([' '] + (['='] + ([' '] + ("*(" + rest))))
  {
    Joins(" *(", [' '], "*(", rest);
    Joins("= *(", ['='], " *(", rest);
    Joins(" = *(", [' '], "= *(", rest);
    Joins("process = *(", "process", " = *(", rest);
  }

  lemma {:induction false} EqualsThen(src: string, rest: string, ts: seq<Token>, end: Option<seq<Token>>)
    requires src == ['='] + rest && Lex(rest, 0) == After(ts, end)
    ensures Lex(src, 0) == After([Symbol(TEq)] + ts, end)
  {
    hide Lex, SymbolText, After, IsSymbol;
    BracketSpellings();
    TheSymbols();
    OneMore(TEq, src, rest, [Symbol(TEq)] + ts, ts, end);
  }

  lemma {:induction false} ProcessFirst(rest: string)
    requires rest != "" && rest[0] == ' '
    ensures Lex("process" + rest, 0) == After([Word("process")], Lex(rest, 0))
  {
    hide Lex, IsWord;
    FixedWords();
    TextClasses("process");
    TokenFirst(Word("process"), rest);
  }

  /**
   The text of a product: whatever reads as a form before the closing parenthesis, the
   process is the wire beside the form's tree, both into a product.
   */
  lemma {:induction false} StarTextReads(f: Form, inner: string)
    requires Proper(f, 0) && Lex(inner + ");", 0) == Some(Write(f) + [Symbol(TRP), Symbol(TSemi), EOF])
    ensures ProperDefs([ProcessDef(Scaled(f))]) && IsTextOf("process = *(" + inner + ");", [ProcessDef(Scaled(f))])
    ensures ParseText("process = *(" + inner + ");") == Some(Program(Env(map[], map[], {}, None),
      ECombine(CSeq, ECombine(CPar, EAtom(AWire), Tree(f)), EAtom(ABinOp("*")))))
  {
    hide Lex, Write, WriteDefs, ProperDef, DefineAll, Tree, ParseText, After;
    var ds := [ProcessDef(Scaled(f))];
    ProductForms(f);
    BracketsAre(f);
    TextOpens(inner + ");");
    Joins3("process = *(", inner, ");");
    AfterIs([Word("process"), Symbol(TEq), Symbol(TStar), Symbol(TLP)], Write(f) + [Symbol(TRP), Symbol(TSemi), EOF]);
    OneDefined(START, Scaled(f));
    StarDefs(f);
    TextBack("process = *(" + inner + ");", ds);
  }

  /** The tokens of a form, with spaces after them, are such an inner text; */
  lemma {:induction false} FormIsInner(f: Form)
    requires Proper(f, 0) && Writable(f)
    ensures Lex(Render(Write(f)) + ");", 0) == Some(Write(f) + [Symbol(TRP), Symbol(TSemi), EOF])
  {
    hide Lex, Render, Write, Writable, Spellable;
    FormSpells(f);
    RenderedFirst(Write(f), ");");
    TextEnds("");
    LexEnd("");
    assert ");" + "" == ");" && Write(f) + ([Symbol(TRP), Symbol(TSemi)] + [EOF]) == Write(f) + [Symbol(TRP), Symbol(TSemi), EOF];
  }

  /** and so is a numeral on its own. */
  lemma {:induction false} NumeralIsInner(v: Sample)
    requires WritableNum(v)
    ensures Lex(NUMERAL(v) + ");", 0) == Some([Number(v), Symbol(TRP), Symbol(TSemi), EOF])
  {
    hide Lex, IsNumeral;
    NumberSpells(v);
    TextClasses(NUMERAL(v));
    TokenFirst(Number(v), ");");
    TextEnds("");
    LexEnd("");
    assert ");" + "" == ");" && [Number(v)] + ([Symbol(TRP), Symbol(TSemi)] + [EOF]) == [Number(v), Symbol(TRP), Symbol(TSemi), EOF];
  }

  /** What a text outputs, if it is a program whose process has an arity. */
  ghost function Outputs(src: string, fuel: nat, ps: seq<Params>, xs: seq<Frame>): Option<seq<Frame>>
    requires |ps| == |xs|
  {
    var p := ParseText(src);
    if p.None? || Meanings.ArityOf(p.value.process, p.value.env, fuel).None? then None
    else Some(Meanings.Sound(p.value.process, p.value.env, fuel, ps, xs))
  }

  /** The text `process = *(e);` outputs its first channel times what e makes of the others. */
  lemma {:induction false} StarTextSounds(f: Form, inner: string, fuel: nat, ps: seq<Params>, xs: seq<Frame>, us: seq<Sample>, rs: seq<Frame>, t: nat)
    requires Proper(f, 0) && Lex(inner + ");", 0) == Some(Write(f) + [Symbol(TRP), Symbol(TSemi), EOF])
    requires |ps| == |xs| == |us| == |rs| && t < |xs|
    requires Meanings.ArityOf(Tree(f), START.env, fuel).Some? && Meanings.ArityOf(Tree(f), START.env, fuel).value.outs == 1
    requires forall i :: 0 <= i < |xs| ==> xs[i] == [us[i]] + rs[i] && |rs[i]| == Meanings.ArityOf(Tree(f), START.env, fuel).value.ins
    ensures var ys := Outputs("process = *(" + inner + ");", fuel + 2, ps, xs);
      ys.Some? && |ys.value| == |xs| && ys.value[t] == [FLOAT.binary(Mul, us[t], Meanings.Sound(Tree(f), START.env, fuel, ps, rs)[t][0])]
  {
    hide Lex, Write, Tree, ParseText, Meanings.ArityOf, Meanings.Sound;
    StarTextReads(f, inner);
    Equations.ProductMeans(Tree(f), START.env, fuel, ps, xs, us, rs, t);
  }

  /** A comment, a line end, and a gain: the comment ends with its line, and every sample is multiplied. */
  lemma {:induction false} GainSounds(v: Sample, note: string, fuel: nat, ps: seq<Params>, xs: seq<Frame>, t: nat)
    requires WritableNum(v) && |ps| == |xs| && t < |xs| && fuel >= 3
    requires forall i :: 0 <= i < |note| ==> note[i] != '\n'
    requires forall i :: 0 <= i < |xs| ==> |xs[i]| == 1
    ensures var ys := Outputs("//" + note + "\n" + ("process = *(" + NUMERAL(v) + ");"), fuel, ps, xs);
      ys.Some? && |ys.value| == |xs| && ys.value[t] == [FLOAT.binary(Mul, xs[t][0], v)]
  {
    hide Lex, Meanings.ArityOf, Meanings.Sound, ParseDefs, WritableNum;
    NumeralIsInner(v);
    NumeralForm(v);
    assert [Number(v)] + [Symbol(TRP), Symbol(TSemi), EOF] == [Number(v), Symbol(TRP), Symbol(TSemi), EOF];
    LineCommentFirst(note, "process = *(" + NUMERAL(v) + ");");
    var us, rs: seq<Frame> := seq(|xs|, i requires 0 <= i < |xs| => xs[i][0]), seq(|xs|, i => []);
    Equations.NumberMeans(v, START.env, fuel - 3, ps, rs, t);
    StarTextSounds(Numeral(v), NUMERAL(v), fuel - 2, ps, xs, us, rs, t);
  }

  lemma NumeralForm(v: Sample)
    ensures Proper(Numeral(v), 0) && Write(Numeral(v)) == [Number(v)] && Tree(Numeral(v)) == ENum(v)
  {
  }

  lemma AfterIs(s: seq<Token>, r: seq<Token>)
    ensures After(s, Some(r)) == Some(s + r)
  {
  }

  lemma StarDefs(f: Form)
    requires Proper(f, 0)
    ensures ProperDefs([ProcessDef(Scaled(f))])
    ensures WriteDefs([ProcessDef(Scaled(f))]) + [EOF] ==
      [Word("process"), Symbol(TEq), Symbol(TStar), Symbol(TLP)] + (Write(f) + [Symbol(TRP), Symbol(TSemi), EOF])
  {
    hide Write, Tree, WriteDefs, ProperDef;
    ProductForms(f);
    BracketsAre(f);
    OneWritten(Scaled(f));
  }

  lemma OneWritten(f: Form)
    requires Proper(f, 0)
    ensures ProperDefs([ProcessDef(f)]) && WriteDefs([ProcessDef(f)]) == [Word("process"), Symbol(TEq)] + Write(f) + [Symbol(TSemi)]
  {
    hide Write, Proper;
    var ds := [ProcessDef(f)];
    assert ProperDef(ds[0]) && ds[1..] == [];
    assert WriteDefs(ds) == WriteDef(ds[0]) + WriteDefs(ds[1..]);
    assert WriteDefs(ds[1..]) == [];
    assert WriteDef(ds[0]) == [Word("process")] + ([Symbol(TEq)] + Write(f) + [Symbol(TSemi)]);
  }
}
