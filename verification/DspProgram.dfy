/**
 Whole programs: definitions read one after another into an environment, and the
 way from program text to the samples that come out.
 */
module Programs {
  import opened Wrappers
  import opened Samples
  import opened Exprs
  import opened Syntax
  import opened Lexing
  import opened Printing
  import opened Parsing
  import opened Graphs
  import opened Streams
  import opened Steps
  import opened Evaluator
  import Runs
  import Folding
  import Meanings
  import Numbering
  import Termination
  import Capture
  import Blocks
  import FoldSoundness

  datatype Program = Program(env: Env, process: Expr)

  /** Before any definition: nothing is bound and the process is a wire. */
  const START := Program(Env(map[], map[], {}, None), EAtom(AWire))

  const LIBRARIES: set<string> := {"stdfaust.lib", "pm.lib", "physmodels.lib"}

  const NATIVES: set<string> := {
    "pm.l2s", "pm.f2l", "pm.nylonGuitar", "pm.elecGuitar", "pm.ks",
    "pm.violin", "pm.flute", "pm.clarinet", "pm.marimba", "pm.djembe"
  }

  const SAMPLE_RATE: Sample
  const PI: Sample
  const SAMPLE_PERIOD: Sample

  const LIBRARY_VALS: map<string, Expr> := map["ma.SR" := ENum(SAMPLE_RATE), "ma.PI" := ENum(PI), "ma.T" := ENum(SAMPLE_PERIOD)]

  function Register(p: Program): Program {
    p.(env := p.env.(vals := p.env.vals + LIBRARY_VALS, natives := p.env.natives + NATIVES))
  }

  function DefineVal(p: Program, name: string, body: Expr): Program {
    p.(env := p.env.(vals := p.env.vals[name := body]))
  }

  function DefineFunc(p: Program, name: string, params: seq<string>, body: Expr): Program {
    p.(env := p.env.(funcs := p.env.funcs[name := FuncDef(params, body)]))
  }

  /** After a semicolon, if there is one. */
  function PastSemi(ts: seq<Token>, pos: nat): (r: nat)
    requires TokenList(ts) && pos <= |ts|
    ensures pos <= r <= |ts|
  {
    if Sees(ts, pos, TSemi) then pos + 1 else pos
  }

  /** `import ( label )`: the label, and where the statement ends. */
  function ParseImport(ts: seq<Token>, pos: nat): (r: (string, nat))
    requires TokenList(ts) && pos < |ts|
    ensures pos <= r.1 <= |ts|
  {
    if Sees(ts, pos, TLP) then
      var after := if Sees(ts, pos + 2, TRP) then pos + 3 else pos + 2;
      (Cur(ts, pos + 1).text, PastSemi(ts, after))
    else ("", PastSemi(ts, pos))
  }

  /** The text of any token, and of every other one while commas separate them. */
  function ParseParams(ts: seq<Token>, pos: nat): (r: (seq<string>, nat))
    requires TokenList(ts) && pos < |ts|
    ensures pos < r.1 <= |ts|
    decreases |ts| - pos
  {
    var first := Cur(ts, pos).text;
    if Sees(ts, pos + 1, TComma) then
      var rest := ParseParams(ts, pos + 2);
      ([first] + rest.0, rest.1)
    else ([first], pos + 1)
  }

  /** `= body ;`, as far as it goes. */
  function ParseBody(ts: seq<Token>, pos: nat): (r: Parse)
    requires TokenList(ts) && pos <= |ts|
    ensures r.Parsed? ==> pos < r.pos <= |ts|
  {
    if Sees(ts, pos, TEq) then
      var body := ParseLevel(ts, pos + 1, 0);
      if body.Parsed? then Parsed(body.e, PastSemi(ts, body.pos)) else Failed
    else Failed
  }

  /** What follows a name and an opening parenthesis. */
  function ParseFunc(ts: seq<Token>, pos: nat): (r: (seq<string>, Parse))
    requires TokenList(ts) && pos < |ts|
    ensures r.1.Parsed? ==> pos < r.1.pos <= |ts|
  {
    var params := if Sees(ts, pos, TRP) then ([], pos) else ParseParams(ts, pos);
    (params.0, if Sees(ts, params.1, TRP) then ParseBody(ts, params.1 + 1) else Failed)
  }

  /** The definitions from pos on, added to what is defined already; None for an exception. */
  function ParseDefs(ts: seq<Token>, pos: nat, p: Program): Option<Program>
    requires TokenList(ts) && pos <= |ts|
    decreases |ts| - pos
  {
    var t := Cur(ts, pos);
    if t.kind == TEof then Some(p)
    else if t.kind != TId then ParseDefs(ts, pos + 1, p)
    else if t.text == "declare" then ParseDefs(ts, PastSemi(ts, SkipStatement(ts, pos + 1)), p)
    else if t.text == "import" then
      var lib := ParseImport(ts, pos + 1);
      ParseDefs(ts, lib.1, if lib.0 in LIBRARIES then Register(p) else p)
    else if t.text == "process" then
      var body := ParseBody(ts, pos + 1);
      if body.Parsed? then ParseDefs(ts, body.pos, p.(process := body.e)) else None
    else if Sees(ts, pos + 1, TLP) then
      var f := ParseFunc(ts, pos + 2);
      if f.1.Parsed? then ParseDefs(ts, f.1.pos, DefineFunc(p, t.text, f.0, f.1.e)) else None
    else if Sees(ts, pos + 1, TEq) then
      var body := ParseBody(ts, pos + 1);
      if body.Parsed? then ParseDefs(ts, body.pos, DefineVal(p, t.text, body.e)) else None
    else ParseDefs(ts, pos + 2, p)
  }

  function ParseText(src: string): Option<Program> {
    var ts := Lex(src, 0);
    if ts.None? then None
    else
      LexIsTokenList(src, 0);
      ParseDefs(ts.value, 0, START)
  }

  // ---- The reading loop.

  method SkipSemi(p: Parser)
    requires p.Valid()
    modifies p
    ensures p.Valid() && p.pos == PastSemi(p.toks, old(p.pos))
  {
    var _ := p.Expect(TSemi);
  }

  method ReadBody(p: Parser) returns (r: Option<Expr>)
    requires p.Valid()
    modifies p
    ensures p.Valid() && p.Agrees(r, ParseBody(p.toks, old(p.pos)))
  {
    hide ParseLevel;
    r := None;
    var ok := p.Expect(TEq);
    if !ok { return; }
    r := p.PExpr();
    if r.None? { return; }
    SkipSemi(p);
  }

  method ReadParams(p: Parser) returns (params: seq<string>)
    requires p.Valid() && p.pos < |p.toks|
    modifies p
    ensures p.Valid() && (params, p.pos) == ParseParams(p.toks, old(p.pos))
  {
    var t := p.Eat();
    params := [t.text];
    ghost var all := ParseParams(p.toks, old(p.pos));
    while p.Current().kind == TComma
      invariant p.Valid() && old(p.pos) < p.pos
      invariant all == (if Sees(p.toks, p.pos, TComma) then
                          var rest := ParseParams(p.toks, p.pos + 1); (params + rest.0, rest.1)
                        else (params, p.pos))
      decreases |p.toks| - p.pos
    {
      var _ := p.Eat();
      t := p.Eat();
      MoreParams(p.toks, p.pos - 1, params);
      params := params + [t.text];
    }
  }

  lemma MoreParams(ts: seq<Token>, pos: nat, params: seq<string>)
    requires TokenList(ts) && pos < |ts|
    ensures var all, first := ParseParams(ts, pos), Cur(ts, pos).text;
      (params + all.0, all.1) ==
      if Sees(ts, pos + 1, TComma) then
        var rest := ParseParams(ts, pos + 2); ((params + [first]) + rest.0, rest.1)
      else (params + [first], pos + 1)
  {
    if Sees(ts, pos + 1, TComma) {
      var first, rest := Cur(ts, pos).text, ParseParams(ts, pos + 2);
      assert params + ([first] + rest.0) == (params + [first]) + rest.0;
    }
  }

  method ReadFunc(p: Parser) returns (params: seq<string>, body: Option<Expr>)
    requires p.Valid() && p.pos < |p.toks|
    modifies p
    ensures p.Valid()
    ensures var f := ParseFunc(p.toks, old(p.pos)); params == f.0 && p.Agrees(body, f.1)
  {
    hide ParseBody, ParseParams;
    params, body := [], None;
    if p.Current().kind != TRP {
      params := ReadParams(p);
    }
    var ok := p.Expect(TRP);
    if !ok { return; }
    body := ReadBody(p);
  }

  method ReadImport(p: Parser) returns (lib: string)
    requires p.Valid() && p.pos < |p.toks|
    modifies p
    ensures p.Valid() && (lib, p.pos) == ParseImport(p.toks, old(p.pos))
  {
    lib := "";
    var ok := p.Expect(TLP);
    if ok {
      var t := p.Eat();
      lib := t.text;
      var _ := p.Expect(TRP);
    }
    SkipSemi(p);
  }

  method SkipDeclaration(p: Parser)
    requires p.Valid() && p.pos < |p.toks|
    modifies p
    ensures p.Valid() && p.pos == PastSemi(p.toks, SkipStatement(p.toks, old(p.pos)))
  {
    while p.Current().kind != TSemi && p.Current().kind != TEof
      invariant p.Valid() && p.pos < |p.toks|
      invariant SkipStatement(p.toks, p.pos) == SkipStatement(p.toks, old(p.pos))
      decreases |p.toks| - p.pos
    {
      var _ := p.Eat();
    }
    SkipSemi(p);
  }

  method ReadDefs(p: Parser) returns (r: Option<Program>)
    requires p.Valid()
    modifies p
    ensures p.Valid() && r == ParseDefs(p.toks, old(p.pos), START)
  {
    hide ParseBody, ParseParams, ParseFunc, ParseImport, PastSemi, SkipStatement, Register, DefineVal, DefineFunc;
    var program := START;
    while p.Current().kind != TEof
      invariant p.Valid()
      invariant ParseDefs(p.toks, p.pos, program) == ParseDefs(p.toks, old(p.pos), START)
      decreases |p.toks| - p.pos
    {
      var t := p.Eat();
      if t.kind == TId {
        if t.text == "declare" {
          SkipDeclaration(p);
        } else if t.text == "import" {
          var lib := ReadImport(p);
          if lib in LIBRARIES { program := Register(program); }
        } else if t.text == "process" {
          var body := ReadBody(p);
          if body.None? { return None; }
          program := program.(process := body.value);
        } else if p.Current().kind == TLP {
          var _ := p.Eat();
          var params, body := ReadFunc(p);
          if body.None? { return None; }
          program := DefineFunc(program, t.text, params, body.value);
        } else if p.Current().kind == TEq {
          var body := ReadBody(p);
          if body.None? { return None; }
          program := DefineVal(program, t.text, body.value);
        } else {
          var _ := p.Eat();
        }
      }
    }
    r := Some(program);
  }

  method ReadText(src: string) returns (r: Option<Program>)
    ensures r == ParseText(src)
  {
    hide ParseDefs, Lex;
    var ts := Tokenize(src);
    if ts.None? { return None; }
    var p := new Parser(ts.value);
    r := ReadDefs(p);
  }

  // ---- Writing programs, and reading them back.

  /** A statement as it is written: a declaration is skipped, and an import may add the library. */
  datatype Def =
    | ValDef(name: string, body: Form)
    | FuncDefOf(name: string, params: seq<string>, body: Form)
    | ProcessDef(body: Form)
    | Declaration(words: seq<Token>)
    | Import(lib: string)

  const KEYWORDS: set<string> := {"declare", "import", "process"}

  predicate ProperDef(d: Def) {
    match d
    case ValDef(name, body) => Proper(body, 0) && name !in KEYWORDS
    case FuncDefOf(name, _, body) => Proper(body, 0) && name !in KEYWORDS
    case ProcessDef(body) => Proper(body, 0)
    case Declaration(words) => forall i :: 0 <= i < |words| ==> words[i].kind != TSemi && words[i].kind != TEof
    case Import(_) => true
  }

  function WriteParams(params: seq<string>): seq<Token> {
    if params == [] then []
    else if |params| == 1 then [Word(params[0])]
    else [Word(params[0]), Symbol(TComma)] + WriteParams(params[1..])
  }

  function WriteBody(f: Form): (s: seq<Token>)
    requires Proper(f, 0)
    ensures s != []
  {
    [Symbol(TEq)] + Write(f) + [Symbol(TSemi)]
  }

  function WriteDef(d: Def): (s: seq<Token>)
    requires ProperDef(d)
    ensures s != []
  {
    match d
    case ValDef(name, body) => [Word(name)] + WriteBody(body)
    case FuncDefOf(name, params, body) => [Word(name), Symbol(TLP)] + (WriteParams(params) + [Symbol(TRP)] + WriteBody(body))
    case ProcessDef(body) => [Word("process")] + WriteBody(body)
    case Declaration(words) => [Word("declare")] + words + [Symbol(TSemi)]
    case Import(lib) => [Word("import"), Symbol(TLP), Title(lib), Symbol(TRP), Symbol(TSemi)]
  }

  predicate ProperDefs(ds: seq<Def>) { forall i :: 0 <= i < |ds| ==> ProperDef(ds[i]) }

  function WriteDefs(ds: seq<Def>): seq<Token>
    requires ProperDefs(ds)
  {
    if ds == [] then [] else WriteDef(ds[0]) + WriteDefs(ds[1..])
  }

  /** The text reads as these statements, whatever its blanks, comments and parentheses. */
  ghost predicate IsTextOf(src: string, ds: seq<Def>)
    requires ProperDefs(ds)
  {
    Lex(src, 0) == Some(WriteDefs(ds) + [EOF])
  }

  function Define(p: Program, d: Def): Program
    requires ProperDef(d)
  {
    match d
    case ValDef(name, body) => DefineVal(p, name, Tree(body))
    case FuncDefOf(name, params, body) => DefineFunc(p, name, params, Tree(body))
    case ProcessDef(body) => p.(process := Tree(body))
    case Declaration(_) => p
    case Import(lib) => if lib in LIBRARIES then Register(p) else p
  }

  /** The statements in order: a later definition of the same name and kind wins. */
  function DefineAll(p: Program, ds: seq<Def>): Program
    requires ProperDefs(ds)
    decreases |ds|
  {
    if ds == [] then p else DefineAll(Define(p, ds[0]), ds[1..])
  }

  /** What each statement does to values, functions, natives and the process. */
  lemma DefinesOnly(p: Program, d: Def)
    requires ProperDef(d)
    ensures var q := Define(p, d);
      && q.env.parent == p.env.parent
      && q.env.funcs == (if d.FuncDefOf? then p.env.funcs[d.name := FuncDef(d.params, Tree(d.body))] else p.env.funcs)
      && q.process == (if d.ProcessDef? then Tree(d.body) else p.process)
      && (!d.Import? ==> q.env.vals == (if d.ValDef? then p.env.vals[d.name := Tree(d.body)] else p.env.vals))
      && (!d.Import? ==> q.env.natives == p.env.natives)
    ensures START == Program(Env(map[], map[], {}, None), EAtom(AWire))
  {
  }

  /** Three libraries are known; each brings three values and ten natives. */
  lemma ImportsOnly(p: Program, lib: string)
    ensures Define(p, Import(lib)) ==
      if lib == "stdfaust.lib" || lib == "pm.lib" || lib == "physmodels.lib" then
        p.(env := p.env.(
          vals := p.env.vals + map["ma.SR" := ENum(SAMPLE_RATE), "ma.PI" := ENum(PI), "ma.T" := ENum(SAMPLE_PERIOD)],
          natives := p.env.natives + {
            "pm.l2s", "pm.f2l", "pm.nylonGuitar", "pm.elecGuitar", "pm.ks",
            "pm.violin", "pm.flute", "pm.clarinet", "pm.marimba", "pm.djembe"}))
      else p
  {
  }

  lemma BodyBack(ts: seq<Token>, pos: nat, f: Form)
    requires Proper(f, 0) && TokenList(ts) && Printing.At(ts, pos, WriteBody(f))
    ensures ParseBody(ts, pos) == Parsed(Tree(f), pos + |WriteBody(f)|)
    ensures pos < |ts| && ts[pos].kind == TEq
  {
    hide ParseLevel, Write, Proper, Tree, TokenList, Printing.At, Stops;
    AtWithin(ts, pos, WriteBody(f));
    AtSplit(ts, pos, [Symbol(TEq)] + Write(f), [Symbol(TSemi)]);
    AtSplit(ts, pos, [Symbol(TEq)], Write(f));
    AtFirst(ts, pos, [Symbol(TEq)]);
    AtFirst(ts, pos + 1 + |Write(f)|, [Symbol(TSemi)]);
    StopTokens(0);
    LevelBack(f, ts, pos + 1, 0);
  }

  lemma {:induction false} ParamsBack(ts: seq<Token>, pos: nat, params: seq<string>)
    requires TokenList(ts) && params != [] && Printing.At(ts, pos, WriteParams(params))
    requires ts[pos + |WriteParams(params)|].kind == TRP
    ensures ParseParams(ts, pos) == (params, pos + |WriteParams(params)|)
    decreases |params|
  {
    hide TokenList, Printing.At;
    var s := WriteParams(params);
    AtWithin(ts, pos, s);
    AtHead(ts, pos, s);
    assert ts[pos + 0] == s[0];
    if |params| == 1 {
      assert params == [params[0]];
    } else {
      assert ts[pos + 1] == s[1];
      AtSplit(ts, pos, [Word(params[0]), Symbol(TComma)], WriteParams(params[1..]));
      ParamsBack(ts, pos + 2, params[1..]);
      assert params == [params[0]] + params[1..];
    }
  }

  lemma FuncBack(ts: seq<Token>, pos: nat, params: seq<string>, f: Form)
    requires TokenList(ts) && Proper(f, 0) && Printing.At(ts, pos, WriteParams(params) + [Symbol(TRP)] + WriteBody(f))
    ensures ParseFunc(ts, pos) == (params, Parsed(Tree(f), pos + |WriteParams(params)| + 1 + |WriteBody(f)|))
  {
    hide ParseBody, ParseParams, WriteBody, Proper, Tree, TokenList, Printing.At;
    var s := WriteParams(params);
    AtSplit(ts, pos, s + [Symbol(TRP)], WriteBody(f));
    AtWithin(ts, pos, s + [Symbol(TRP)]);
    AtSplit(ts, pos, s, [Symbol(TRP)]);
    AtFirst(ts, pos + |s|, [Symbol(TRP)]);
    BodyBack(ts, pos + |s| + 1, f);
    if params != [] {
      ParamsBack(ts, pos, params);
      AtFirst(ts, pos, s);
      assert s[0].kind == TId;
    }
  }

  /** What the reading loop does with a name, an equals sign and a body. */
  lemma PlainDef(ts: seq<Token>, pos: nat, p: Program, e: Expr, end: nat)
    requires TokenList(ts) && pos + 1 < |ts| && ts[pos].kind == TId && ts[pos].text !in {"declare", "import"}
    requires ts[pos + 1].kind == TEq && ParseBody(ts, pos + 1) == Parsed(e, end)
    ensures ParseDefs(ts, pos, p) ==
      ParseDefs(ts, end, if ts[pos].text == "process" then p.(process := e) else DefineVal(p, ts[pos].text, e))
  {
    hide ParseBody, ParseFunc, TokenList, DefineVal, DefineFunc, ParseImport, SkipStatement;
  }

  /** And with a name and a parameter list. */
  lemma ParamsDef(ts: seq<Token>, pos: nat, p: Program, params: seq<string>, e: Expr, end: nat)
    requires TokenList(ts) && pos + 2 < |ts| && ts[pos].kind == TId && ts[pos].text !in KEYWORDS
    requires ts[pos + 1].kind == TLP && ParseFunc(ts, pos + 2) == (params, Parsed(e, end))
    ensures ParseDefs(ts, pos, p) == ParseDefs(ts, end, DefineFunc(p, ts[pos].text, params, e))
  {
    hide ParseBody, ParseFunc, TokenList, DefineVal, DefineFunc, ParseImport, SkipStatement;
  }

  /** One statement is read whole, and does what it says. */
  lemma DefBack(ts: seq<Token>, pos: nat, d: Def, p: Program)
    requires TokenList(ts) && ProperDef(d) && Printing.At(ts, pos, WriteDef(d))
    ensures ParseDefs(ts, pos, p) == ParseDefs(ts, pos + |WriteDef(d)|, Define(p, d))
  {
    hide ParseDefs, WriteDef, TokenList, Printing.At, Define;
    match d
    case ValDef(_, _) => ValDefBack(ts, pos, d, p);
    case ProcessDef(_) => ProcessBack(ts, pos, d, p);
    case FuncDefOf(_, _, _) => FuncDefBack(ts, pos, d, p);
    case Declaration(_) => DeclarationBack(ts, pos, d, p);
    case Import(_) => ImportBack(ts, pos, d, p);
  }

  lemma ValDefBack(ts: seq<Token>, pos: nat, d: Def, p: Program)
    requires d.ValDef? && TokenList(ts) && ProperDef(d) && Printing.At(ts, pos, WriteDef(d))
    ensures ParseDefs(ts, pos, p) == ParseDefs(ts, pos + |WriteDef(d)|, Define(p, d))
  {
    hide ParseDefs, ParseBody, WriteBody, Proper, Tree, TokenList, Printing.At, DefineVal;
    KeywordsAre();
    AtSplit(ts, pos, [Word(d.name)], WriteBody(d.body));
    AtFirst(ts, pos, [Word(d.name)]);
    BodyBack(ts, pos + 1, d.body);
    PlainDef(ts, pos, p, Tree(d.body), pos + 1 + |WriteBody(d.body)|);
  }

  lemma ProcessBack(ts: seq<Token>, pos: nat, d: Def, p: Program)
    requires d.ProcessDef? && TokenList(ts) && ProperDef(d) && Printing.At(ts, pos, WriteDef(d))
    ensures ParseDefs(ts, pos, p) == ParseDefs(ts, pos + |WriteDef(d)|, Define(p, d))
  {
    hide ParseDefs, ParseBody, WriteBody, Proper, Tree, TokenList, Printing.At;
    KeywordsAre();
    AtSplit(ts, pos, [Word("process")], WriteBody(d.body));
    AtFirst(ts, pos, [Word("process")]);
    BodyBack(ts, pos + 1, d.body);
    PlainDef(ts, pos, p, Tree(d.body), pos + 1 + |WriteBody(d.body)|);
  }

  lemma KeywordsAre()
    ensures "process" != "declare" && "process" != "import" && "import" != "declare"
    ensures forall n :: n !in KEYWORDS ==> n !in {"declare", "import"} && n != "process"
  {
    assert "process"[0] != "declare"[0] && "process"[0] != "import"[0] && "import"[0] != "declare"[0];
  }

  lemma FuncDefBack(ts: seq<Token>, pos: nat, d: Def, p: Program)
    requires d.FuncDefOf? && TokenList(ts) && ProperDef(d) && Printing.At(ts, pos, WriteDef(d))
    ensures ParseDefs(ts, pos, p) == ParseDefs(ts, pos + |WriteDef(d)|, Define(p, d))
  {
    hide ParseDefs, ParseBody, ParseFunc, WriteBody, Proper, Tree, TokenList, Printing.At, DefineFunc, WriteParams;
    var head, rest := [Word(d.name), Symbol(TLP)], WriteParams(d.params) + [Symbol(TRP)] + WriteBody(d.body);
    AtSplit(ts, pos, head, rest);
    AtHead(ts, pos, head);
    AtWithin(ts, pos, head);
    assert ts[pos + 0] == head[0] && ts[pos + 1] == head[1];
    FuncBack(ts, pos + 2, d.params, d.body);
    ParamsDef(ts, pos, p, d.params, Tree(d.body), pos + |WriteDef(d)|);
  }

  /** A declaration is skipped, up to its semicolon. */
  lemma DeclarationBack(ts: seq<Token>, pos: nat, d: Def, p: Program)
    requires d.Declaration? && TokenList(ts) && ProperDef(d) && Printing.At(ts, pos, WriteDef(d))
    ensures ParseDefs(ts, pos, p) == ParseDefs(ts, pos + |WriteDef(d)|, Define(p, d))
  {
    hide ParseDefs, TokenList, Printing.At, WriteDef, Define, ProperDef;
    DeclarationWritten(d, p);
    var s, end := d.words, pos + 1 + |d.words|;
    AtWithin(ts, pos, [Word("declare")] + s + [Symbol(TSemi)]);
    AtSplit(ts, pos, [Word("declare")] + s, [Symbol(TSemi)]);
    AtSplit(ts, pos, [Word("declare")], s);
    AtFirst(ts, pos, [Word("declare")]);
    AtFirst(ts, end, [Symbol(TSemi)]);
    AtHead(ts, pos + 1, s);
    forall i | pos + 1 <= i < end ensures ts[i].kind != TSemi && ts[i].kind != TEof {
      assert ts[pos + 1 + (i - pos - 1)] == s[i - pos - 1];
    }
    SkipsTo(ts, pos + 1, end);
    SkippedDef(ts, pos, p, end);
  }

  lemma DeclarationWritten(d: Def, p: Program)
    requires d.Declaration? && ProperDef(d)
    ensures WriteDef(d) == [Word("declare")] + d.words + [Symbol(TSemi)] && Define(p, d) == p
    ensures forall i :: 0 <= i < |d.words| ==> d.words[i].kind != TSemi && d.words[i].kind != TEof
  {
  }

  lemma SkippedDef(ts: seq<Token>, pos: nat, p: Program, end: nat)
    requires TokenList(ts) && pos + 1 < |ts| && ts[pos] == Word("declare") && SkipStatement(ts, pos + 1) == end
    requires end + 1 < |ts| && ts[end].kind == TSemi
    ensures ParseDefs(ts, pos, p) == ParseDefs(ts, end + 1, p)
  {
    hide ParseBody, ParseFunc, TokenList, DefineVal, DefineFunc, ParseImport, SkipStatement;
  }

  lemma ImportBack(ts: seq<Token>, pos: nat, d: Def, p: Program)
    requires d.Import? && TokenList(ts) && ProperDef(d) && Printing.At(ts, pos, WriteDef(d))
    ensures ParseDefs(ts, pos, p) == ParseDefs(ts, pos + |WriteDef(d)|, Define(p, d))
  {
    hide ParseDefs, TokenList, Printing.At, Register, LIBRARIES;
    var s := WriteDef(d);
    AtWithin(ts, pos, s);
    AtHead(ts, pos, s);
    assert ts[pos + 0] == s[0] && ts[pos + 1] == s[1] && ts[pos + 2] == s[2] && ts[pos + 3] == s[3] && ts[pos + 4] == s[4];
    KeywordsAre();
    ImportedDef(ts, pos, p, d.lib);
  }

  lemma ImportedDef(ts: seq<Token>, pos: nat, p: Program, lib: string)
    requires TokenList(ts) && pos + 5 < |ts| && ts[pos] == Word("import") && "import" != "declare" && ts[pos + 1].kind == TLP
    requires ts[pos + 2] == Title(lib) && ts[pos + 3].kind == TRP && ts[pos + 4].kind == TSemi
    ensures ParseDefs(ts, pos, p) == ParseDefs(ts, pos + 5, if lib in LIBRARIES then Register(p) else p)
  {
    hide ParseBody, ParseFunc, TokenList, DefineVal, DefineFunc, SkipStatement, Register, LIBRARIES;
  }

  lemma {:induction false} DefsBack(ts: seq<Token>, pos: nat, ds: seq<Def>, p: Program)
    requires TokenList(ts) && ProperDefs(ds)
    requires Printing.At(ts, pos, WriteDefs(ds)) && pos + |WriteDefs(ds)| == |ts| - 1
    ensures ParseDefs(ts, pos, p) == Some(DefineAll(p, ds))
    decreases |ds|
  {
    hide WriteDef, ProperDef, Printing.At, Define;
    if ds != [] {
      AtSplit(ts, pos, WriteDef(ds[0]), WriteDefs(ds[1..]));
      DefBack(ts, pos, ds[0], p);
      DefsBack(ts, pos + |WriteDef(ds[0])|, ds[1..], Define(p, ds[0]));
    }
  }

  /** Any text of some statements is read back as those statements. */
  lemma {:induction false} TextBack(src: string, ds: seq<Def>)
    requires ProperDefs(ds) && IsTextOf(src, ds)
    ensures ParseText(src) == Some(DefineAll(START, ds))
  {
    hide WriteDefs, ParseDefs, DefineAll, ProperDefs, Lex;
    var s := WriteDefs(ds);
    var ts := s + [EOF];
    LexIsTokenList(src, 0);
    assert ts[0..|s|] == s;
    DefsBack(ts, 0, ds, START);
  }

  // ---- Around the statements.

  /** Stray tokens are skipped one by one, and a name that is not defined together with what follows it. */
  lemma StraySkipped(ts: seq<Token>, pos: nat, p: Program)
    requires TokenList(ts) && pos + 2 < |ts|
    ensures ts[pos].kind != TId && ts[pos].kind != TEof ==> ParseDefs(ts, pos, p) == ParseDefs(ts, pos + 1, p)
    ensures ts[pos].kind == TId && ts[pos].text !in KEYWORDS && ts[pos + 1].kind != TLP && ts[pos + 1].kind != TEq ==>
      ParseDefs(ts, pos, p) == ParseDefs(ts, pos + 2, p)
  {
    hide ParseBody, ParseFunc, TokenList, DefineVal, DefineFunc, SkipStatement, Register, ParseImport;
    KeywordsAre();
  }

  /** A definition may end without a semicolon; without an equals sign or a whole expression it fails, and with it the program. */
  lemma BodyDemands(ts: seq<Token>, pos: nat, p: Program)
    requires TokenList(ts) && pos + 1 < |ts|
    ensures ts[pos].kind != TEq ==> ParseBody(ts, pos) == Failed
    ensures ts[pos].kind == TEq ==>
      var x := ParseLevel(ts, pos + 1, 0);
      ParseBody(ts, pos) == if x.Failed? then Failed else Parsed(x.e, if ts[x.pos].kind == TSemi then x.pos + 1 else x.pos)
    ensures ts[pos].kind == TId && ts[pos].text == "process" && ParseBody(ts, pos + 1).Failed? ==> ParseDefs(ts, pos, p) == None
    ensures ts[pos].kind == TId && ts[pos].text !in KEYWORDS && ts[pos + 1].kind == TEq && ParseBody(ts, pos + 1).Failed? ==>
      ParseDefs(ts, pos, p) == None
  {
    hide ParseLevel, ParseDefs, TokenList;
    KeywordsAre();
    if ts[pos].kind == TId && ParseBody(ts, pos + 1).Failed? { FailedDef(ts, pos, p); }
  }

  lemma FailedDef(ts: seq<Token>, pos: nat, p: Program)
    requires TokenList(ts) && pos + 1 < |ts| && ts[pos].kind == TId && ParseBody(ts, pos + 1).Failed?
    ensures ts[pos].text == "process" ==> ParseDefs(ts, pos, p) == None
    ensures ts[pos].text !in KEYWORDS && ts[pos + 1].kind == TEq ==> ParseDefs(ts, pos, p) == None
  {
    hide ParseBody, ParseFunc, TokenList, DefineVal, DefineFunc, SkipStatement, Register, ParseImport;
    KeywordsAre();
  }

  // ---- Texts of written statements.

  predicate WritableAtom(a: Atom) {
    if a.ASlider? || a.ANentry? then
      Unquoted(a.name) && WritableNum(a.init) && WritableNum(a.lo) && WritableNum(a.hi) && WritableNum(a.step)
    else (a.AButton? || a.ACheckbox?) ==> Unquoted(a.name)
  }

  /** The chosen numeral of v is one, and reads back as v. */
  predicate WritableNum(v: Sample) { IsNumeral(NUMERAL(v)) && STOF(NUMERAL(v)) == Some(v) }

  predicate Words(parts: seq<string>) { forall i :: 0 <= i < |parts| ==> IsWord(parts[i]) }

  /** Names are words, labels hold no quote, and every number has a numeral. */
  predicate Writable(f: Form) {
    match f
    case Numeral(v) => WritableNum(v)
    case Primitive(a) => WritableAtom(a)
    case Name(parts) => Words(parts)
    case BareCall(parts) => Words(parts)
    case Call(parts, arg) => Words(parts) && Writable(arg)
    case Grouped(_, title, body) => Unquoted(title) && Writable(body)
    case Infix(_, l, r) => Writable(l) && Writable(r)
    case Parens(inner) => Writable(inner)
    case Scaled(factor) => Writable(factor)
  }

  predicate WritableDef(d: Def) {
    match d
    case ValDef(name, body) => IsWord(name) && Writable(body)
    case FuncDefOf(name, params, body) => IsWord(name) && Words(params) && Writable(body)
    case ProcessDef(body) => Writable(body)
    case Declaration(words) => forall i :: 0 <= i < |words| ==> Spellable(words[i])
    case Import(lib) => Unquoted(lib)
  }

  predicate WritableDefs(ds: seq<Def>) { forall i :: 0 <= i < |ds| ==> WritableDef(ds[i]) }

  /** Which statements can be read back, and which of them written: names are words that begin no statement. */
  lemma StatementsAre(d: Def)
    ensures d.ValDef? || d.FuncDefOf? ==>
      (ProperDef(d) <==> Proper(d.body, 0) && d.name != "declare" && d.name != "import" && d.name != "process")
    ensures d.ProcessDef? ==> (ProperDef(d) <==> Proper(d.body, 0))
    ensures d.Import? ==> ProperDef(d) && (WritableDef(d) <==> Unquoted(d.lib))
    ensures d.Declaration? ==> (ProperDef(d) <==> forall i :: 0 <= i < |d.words| ==> d.words[i].kind != TSemi && d.words[i].kind != TEof)
    ensures d.Declaration? ==> (WritableDef(d) <==> forall i :: 0 <= i < |d.words| ==> Spellable(d.words[i]))
    ensures d.ValDef? ==> (WritableDef(d) <==> IsWord(d.name) && Writable(d.body))
    ensures d.FuncDefOf? ==>
      (WritableDef(d) <==> IsWord(d.name) && Writable(d.body) && forall i :: 0 <= i < |d.params| ==> IsWord(d.params[i]))
    ensures d.ProcessDef? ==> (WritableDef(d) <==> Writable(d.body))
  {
    hide Proper, Writable, Unquoted, IsWord, Spellable;
  }

  /** Which forms can be written: their names are words, their labels hold no quote, and their numbers have a numeral each. */
  lemma WritableForms(f: Form)
    ensures f.Numeral? ==> (Writable(f) <==> IsNumeral(NUMERAL(f.num)) && STOF(NUMERAL(f.num)) == Some(f.num))
    ensures f.Name? || f.BareCall? || f.Call? ==>
      (Writable(f) <==> (forall i :: 0 <= i < |f.parts| ==> IsWord(f.parts[i])) && (f.Call? ==> Writable(f.arg)))
    ensures f.Grouped? ==> (Writable(f) <==> Unquoted(f.title) && Writable(f.body))
    ensures f.Infix? ==> (Writable(f) <==> Writable(f.left) && Writable(f.right))
    ensures f.Parens? ==> (Writable(f) <==> Writable(f.inner))
    ensures f.Scaled? ==> (Writable(f) <==> Writable(f.factor))
    ensures f.Primitive? && (f.atom.AButton? || f.atom.ACheckbox?) ==> (Writable(f) <==> Unquoted(f.atom.name))
    ensures f.Primitive? && (f.atom.ASlider? || f.atom.ANentry?) ==>
      (Writable(f) <==> Unquoted(f.atom.name) && Writable(Numeral(f.atom.init)) && Writable(Numeral(f.atom.lo))
                        && Writable(Numeral(f.atom.hi)) && Writable(Numeral(f.atom.step)))
    ensures f.Primitive? && !(f.atom.AButton? || f.atom.ACheckbox? || f.atom.ASlider? || f.atom.ANentry?) ==> Writable(f)
  {
    hide IsNumeral, IsWord, Unquoted;
  }

  lemma OperatorWords(w: string)
    requires w in BINARY_WORDS || w in UNARY_OPS || w in SLIDER_WORDS || w in CONTROL_WORDS || w in GROUP_WORDS
    ensures IsWord(w)
  {
  }

  lemma FixedWords()
    ensures IsWord("mem") && IsWord("select2") && IsWord("process") && IsWord("declare") && IsWord("import")
  {
  }

  lemma SymbolSpells(k: Tok)
    requires k != TId && k != TNum && k != TStr && k != TEof
    ensures Spellable(Symbol(k))
  {
  }

  lemma OperatorSpells(op: string)
    requires OpSymbol(op).Some?
    ensures Spellable(Symbol(OpSymbol(op).value))
  {
  }

  lemma FieldsSpell(name: string, init: Sample, lo: Sample, hi: Sample, step: Sample)
    requires Unquoted(name) && WritableNum(init) && WritableNum(lo) && WritableNum(hi) && WritableNum(step)
    ensures forall t :: t in PrintFields(name, init, lo, hi, step) ==> Spellable(t)
  {
    hide Unquoted, IsNumeral;
  }

  lemma SliderSpells(a: Atom)
    requires (a.ASlider? || a.ANentry?) && PrintableAtom(a) && WritableAtom(a)
    ensures forall t :: t in PrintAtom(a) ==> Spellable(t)
  {
    hide PrintFields, IsWord, OpSymbol, WritableNum, Unquoted, IsNumeral;
    FieldsSpell(a.name, a.init, a.lo, a.hi, a.step);
    OperatorWords(if a.ASlider? then a.kind else "nentry");
  }

  lemma AtomSpells(a: Atom)
    requires PrintableAtom(a) && WritableAtom(a)
    ensures forall t :: t in PrintAtom(a) ==> Spellable(t)
  {
    hide PrintAtom, PrintableAtom, WritableAtom, Spellable;
    if a.ASlider? || a.ANentry? {
      SliderSpells(a);
    } else if a.AButton? || a.ACheckbox? {
      LabelSpells(a);
    } else if a.ABinOp? || a.AUnaryOp? {
      OperatorAtomSpells(a);
    } else {
      PlainAtomSpells(a);
    }
  }

  lemma LabelSpells(a: Atom)
    requires (a.AButton? || a.ACheckbox?) && WritableAtom(a)
    ensures forall t :: t in PrintAtom(a) ==> Spellable(t)
  {
    hide PrintAtom, Spellable, IsWord, Unquoted, WritableNum;
    var w := if a.AButton? then "button" else "checkbox";
    PrintLabel(a);
    OperatorWords(w);
    WordSpells(w);
    TitleSpells(a.name);
    SymbolSpells(TLP);
    SymbolSpells(TRP);
  }

  lemma OperatorAtomSpells(a: Atom)
    requires (a.ABinOp? || a.AUnaryOp?) && PrintableAtom(a)
    ensures forall t :: t in PrintAtom(a) ==> Spellable(t)
  {
    hide PrintFields, IsWord, OpSymbol;
    if a.ABinOp? && OpSymbol(a.op).Some? {
      OperatorSpells(a.op);
    } else {
      OperatorWords(a.op);
    }
  }

  lemma PlainAtomSpells(a: Atom)
    requires a.AWire? || a.ACut? || a.AMem? || a.ADelay? || a.ASelect2?
    ensures forall t :: t in PrintAtom(a) ==> Spellable(t)
  {
    hide PrintFields, IsWord, OpSymbol;
    FixedWords();
  }

  lemma {:induction false} NameSpells(parts: seq<string>)
    requires parts != [] && Words(parts)
    ensures forall t :: t in WriteName(parts) ==> Spellable(t)
    decreases |parts|
  {
    hide IsWord;
    if |parts| > 1 { NameSpells(parts[..|parts| - 1]); }
  }

  lemma {:induction false} FormSpells(f: Form)
    requires Proper(f, 0) && Writable(f)
    ensures forall t :: t in Write(f) ==> Spellable(t)
    decreases f
  {
    hide Write, Proper, PrintAtom, PrintableAtom, WritableAtom, WritableNum, IsWord, IsNumeral, Reserved, Unquoted, LevelOf, LevelToken,
      Spellable, Symbol, Word, Title, Number, Words, WriteName, Joined;
    SymbolSpells(TLP);
    SymbolSpells(TRP);
    SymbolSpells(TComma);
    SymbolSpells(TStar);
    match f
    case Infix(c, l, r) =>
      InfixParts(f);
      FormSpells(l);
      FormSpells(r);
      LevelSpells(LevelOf(c));
    case Grouped(kind, title, body) =>
      GroupParts(f);
      FormSpells(body);
      OperatorWords(kind);
      WordSpells(kind);
      TitleSpells(title);
    case Call(parts, arg) =>
      CallParts(parts, arg);
      FormSpells(arg);
      NamePartsSpell(parts);
    case Parens(inner) =>
      BracketParts(f);
      FormSpells(inner);
    case Scaled(factor) =>
      BracketParts(f);
      FormSpells(factor);
    case _ => LeafSpells(f);
  }

  lemma NamePartsSpell(parts: seq<string>)
    requires ProperName(parts) && Words(parts)
    ensures forall t :: t in WriteName(parts) ==> Spellable(t)
  {
    hide Words, Reserved, Joined, Spellable;
    NameSpells(parts);
  }

  lemma LeafSpells(f: Form)
    requires Proper(f, 0) && Writable(f) && (f.Numeral? || f.Primitive? || f.Name? || f.BareCall?)
    ensures forall t :: t in Write(f) ==> Spellable(t)
  {
    hide PrintAtom, PrintableAtom, WritableAtom, WritableNum, Words, Reserved, WriteName, Joined, Spellable, Symbol, Number;
    SymbolSpells(TLP);
    SymbolSpells(TRP);
    match f
    case Numeral(v) => NumberSpells(v);
    case Primitive(a) => AtomSpells(a);
    case Name(parts) => NameSpells(parts);
    case BareCall(parts) => NameSpells(parts);
  }

  lemma WordSpells(n: string)
    requires IsWord(n)
    ensures Spellable(Word(n))
  {
  }

  lemma TitleSpells(n: string)
    requires Unquoted(n)
    ensures Spellable(Title(n))
  {
  }

  lemma NumberSpells(v: Sample)
    requires WritableNum(v)
    ensures Spellable(Number(v))
  {
  }

  lemma LevelSpells(k: nat)
    requires k < 5
    ensures Spellable(Symbol(LevelToken(k)))
  {
  }

  lemma {:induction false} ParamsSpell(params: seq<string>)
    requires Words(params)
    ensures forall t :: t in WriteParams(params) ==> Spellable(t)
    decreases |params|
  {
    hide IsWord;
    if |params| > 1 { ParamsSpell(params[1..]); }
  }

  lemma DefSpells(d: Def)
    requires ProperDef(d) && WritableDef(d)
    ensures forall t :: t in WriteDef(d) ==> Spellable(t)
  {
    hide WriteBody, Proper, Writable, WriteParams, IsWord, Words, Unquoted, Spellable, Word, Symbol, Title;
    FixedWords();
    SymbolSpells(TLP);
    SymbolSpells(TRP);
    SymbolSpells(TSemi);
    match d
    case ValDef(name, body) => BodySpells(body); WordSpells(name);
    case FuncDefOf(name, params, body) => BodySpells(body); WordSpells(name); ParamsSpell(params);
    case ProcessDef(body) => BodySpells(body); WordSpells("process");
    case Declaration(_) => WordSpells("declare");
    case Import(lib) => WordSpells("import"); TitleSpells(lib);
  }

  lemma BodySpells(f: Form)
    requires Proper(f, 0) && Writable(f)
    ensures forall t :: t in WriteBody(f) ==> Spellable(t)
  {
    hide Write, Proper, Writable;
    FormSpells(f);
  }

  lemma {:induction false} DefsSpell(ds: seq<Def>)
    requires ProperDefs(ds) && WritableDefs(ds)
    ensures forall t :: t in WriteDefs(ds) ==> Spellable(t)
    decreases |ds|
  {
    hide WriteDef, ProperDef, WritableDef, Spellable;
    if ds != [] {
      DefSpells(ds[0]);
      DefsSpell(ds[1..]);
    }
  }

  /** Statements written out, each token with a space after it, are a text of themselves. */
  lemma {:induction false} WrittenText(ds: seq<Def>)
    requires ProperDefs(ds) && WritableDefs(ds)
    ensures IsTextOf(Render(WriteDefs(ds)), ds)
  {
    hide WriteDefs, ProperDefs, WritableDefs, Spellable, Lex, Render;
    DefsSpell(ds);
    RenderThenLex(WriteDefs(ds));
  }

  // ---- Programs without the library never reach a native function.

  lemma {:induction false} NeverForeign(e: Expr, env: Env, fuel: nat, id: int, folding: bool)
    requires forall n :: !LookupNative(env, n)
    ensures !Eval(e, env, fuel, id, folding).Foreign?
    decreases fuel
  {
    hide TryConst, BindArgs, LookupVal, LookupFunc, AtomNode;
    if fuel > 0 {
      match e
      case ECombine(_, l, r) =>
        NeverForeign(l, env, fuel - 1, id, folding);
        var a := Eval(l, env, fuel - 1, id, folding);
        if a.Built? { NeverForeign(r, env, fuel - 1, a.next, folding); }
      case EGroup(_, _, body) => NeverForeign(body, env, fuel - 1, id, folding);
      case EIdent(n) =>
        if LookupVal(env, n).Some? {
          NeverForeign(LookupVal(env, n).value, env, fuel - 1, id, folding);
        } else if LookupFunc(env, n).Some? {
          NeverForeign(LookupFunc(env, n).value.body, env, fuel - 1, id, folding);
        }
      case ECall(n, args) =>
        if LookupFunc(env, n).Some? {
          var fd := LookupFunc(env, n).value;
          var child := CallScope(env, BindArgs(fd.params, args));
          assert forall m :: LookupNative(child, m) == LookupNative(env, m);
          NeverForeign(fd.body, child, fuel - 1, id, folding);
        }
      case _ =>
    }
  }

  lemma {:induction false} NoNatives(p: Program, ds: seq<Def>)
    requires p.env.natives == {} && p.env.parent.None? && ProperDefs(ds) && Unassisted(ds)
    ensures DefineAll(p, ds).env.natives == {} && DefineAll(p, ds).env.parent.None?
    decreases |ds|
  {
    hide ProperDef, LIBRARIES, Tree;
    if ds != [] {
      assert Unassisted(ds[1..]) && ProperDefs(ds[1..]);
      NoNatives(Define(p, ds[0]), ds[1..]);
    }
  }

  /** No statement imports the library. */
  predicate Unassisted(ds: seq<Def>) { forall i :: 0 <= i < |ds| ==> !(ds[i].Import? && ds[i].lib in LIBRARIES) }

  /**
   Any text of hygienic, acyclic definitions without the library is always built, from
   any number on, into one graph whatever fuel past some amount is given.
   */
  lemma {:induction false} TextBuilds(src: string, ds: seq<Def>, plan: Folding.Plan, rank: map<string, nat>, h: nat, id: int)
      returns (fuel: nat, g: Graph, next: int)
    requires ProperDefs(ds) && Unassisted(ds) && IsTextOf(src, ds)
    requires var p := DefineAll(START, ds);
      && Folding.Hygienic(p.env, plan) && Termination.Acyclic(p.env, plan, rank)
      && Folding.AtLevel(p.process, Folding.Top({}), p.env, plan) && Termination.Grounded(p.process, h, Folding.Top({}), p.env, plan, rank)
    ensures ParseText(src).Some?
    ensures var p := ParseText(src).value;
      forall more: nat :: more >= fuel ==> Eval(p.process, p.env, more, id, true) == Built(g, next)
  {
    hide IsTextOf, ParseText, DefineAll, ProperDefs, Unassisted, Folding.Hygienic, Folding.AtLevel, Termination.Acyclic, Termination.Grounded, Eval, TryConst;
    TextBack(src, ds);
    var p := DefineAll(START, ds);
    NoNatives(START, ds);
    fuel := Termination.ProgramEnds(p.process, h, p.env, plan, rank);
    assert forall n :: !LookupNative(p.env, n);
    NeverForeign(p.process, p.env, fuel, id, true);
    var r := Eval(p.process, p.env, fuel, id, true);
    g, next := r.graph, r.next;
    forall more: nat | more >= fuel ensures Eval(p.process, p.env, more, id, true) == Built(g, next) {
      Folding.EvalMonotone(p.process, p.env, fuel, more, id, true);
    }
  }

  /**
   From program text to sound: any text of hygienic definitions whose loops use
   different cells, tokenized, parsed, folded, numbered and run from an empty
   state, outputs the meaning of the definitions as written.
   */
  lemma {:induction false} TextRuns(src: string, ds: seq<Def>, plan: Folding.Plan, fuel: nat, id: int, ps: seq<Params>, xs: seq<Frame>)
      returns (more: nat, h: Graph)
    requires ProperDefs(ds) && IsTextOf(src, ds)
    requires var p := DefineAll(START, ds);
      && Folding.Hygienic(p.env, plan) && Folding.AtLevel(p.process, Folding.Top({}), p.env, plan)
      && Eval(p.process, p.env, fuel, id, true).Built?
    requires var p := DefineAll(START, ds);
      var g := Eval(p.process, p.env, fuel, id, true).graph;
      WellFormed(g) && FeedbackDistinct(g) && |ps| == |xs|
    ensures ParseText(src).Some?
    ensures var p, written := ParseText(src).value, DefineAll(START, ds);
      var r := Eval(p.process, p.env, fuel, id, true);
      && r.Built? && WellFormed(r.graph) && BuffersDistinct(r.graph) && AllShaped(Numbering.EMPTY, Buffers(r.graph))
      && WellFormed(h) && Eval(written.process, written.env, more, id, false) == Built(h, r.next)
      && Meanings.ArityOf(written.process, written.env, more).Some?
      && Runs.Iterate(r.graph, Numbering.EMPTY, ps, xs).0 == Run(h, ps, xs) == Meanings.Sound(written.process, written.env, more, ps, xs)
  {
    hide IsTextOf, ParseText, DefineAll, ProperDefs, Folding.Hygienic, Folding.AtLevel, Eval, Run, WellFormed,
      Meanings.ArityOf, Meanings.Sound;
    TextBack(src, ds);
    var p := DefineAll(START, ds);
    more, h := Numbering.InterpreterComputesProgram(p.process, p.env, plan, fuel, id, ps, xs);
    Meanings.EvalHasArity(p.process, p.env, more, id);
    Meanings.EvalSounds(p.process, p.env, more, id, ps, xs);
  }

  /**
   The same in place: any text whose definitions are hygienic is read, folded, built
   as a tree of nodes and played from one set of sample buffers into another. What
   it writes is the meaning of the program.
   */
  method PlayText(src: string, ghost plan: Folding.Plan, fuel: nat, id: int, input: seq<array<Sample>>, output: seq<array<Sample>>, count: nat)
    returns (ghost more: nat, ghost h: Graph)
    requires ParseText(src).Some?
    requires var p := ParseText(src).value;
      && Folding.Hygienic(p.env, plan) && Folding.AtLevel(p.process, Folding.Top({}), p.env, plan)
      && Eval(p.process, p.env, fuel, id, true).Built?
    requires var p := ParseText(src).value;
      var g := Eval(p.process, p.env, fuel, id, true).graph;
      WellFormed(g) && FeedbackDistinct(g)
    modifies output
    ensures var p := ParseText(src).value;
      WellFormed(h) && Eval(p.process, p.env, more, id, false) == Built(h, Eval(p.process, p.env, fuel, id, true).next)
    ensures Blocks.AllWritten(old(Blocks.Snapshot(output)), Blocks.Snapshot(output),
      Run(h, Blocks.Same(map[], count), Blocks.Frames(old(Blocks.Snapshot(input)), NIn(h), count)),
      Blocks.Winners(output, NOut(h)))
    ensures var p := ParseText(src).value;
      var xs := Blocks.Frames(old(Blocks.Snapshot(input)), NIn(h), count);
      && Meanings.ArityOf(p.process, p.env, more) == Some(Meanings.Arity(NIn(h), NOut(h)))
      && Run(h, Blocks.Same(map[], count), xs) == Meanings.Sound(p.process, p.env, more, Blocks.Same(map[], count), xs)
  {
    hide Meanings.ArityOf, Meanings.Sound, ParseText, Folding.Hygienic, Folding.AtLevel, Eval, Run, WellFormed, FeedbackDistinct, BuffersDistinct, NIn, NOut,
      Blocks.AllWritten, Blocks.Snapshot, Blocks.Winners, Blocks.Frames, Blocks.Same;
    var read := ReadText(src);
    var p := read.value;
    var g := Eval(p.process, p.env, fuel, id, true).graph;
    Numbering.EvalNumbered(p.process, p.env, fuel, id, true);
    more, h := FoldSoundness.EvalPreservesMeaning(p.process, p.env, plan, fuel, id);
    Meanings.EvalHasArity(p.process, p.env, more, id);
    Meanings.EvalSounds(p.process, p.env, more, id, Blocks.Same(map[], count), Blocks.Frames(Blocks.Snapshot(input), NIn(h), count));
    Blocks.PlayGraph(g, input, output, count);
  }

  // ---- Programs that the theorems cover, and programs that they exclude for cause.

  function Pair(a: string, b: string): Expr { ECombine(CPar, EIdent(a), EIdent(b)) }

  const DOUBLING: Expr := ECall("d", [EAtom(AWire)])

  /** ((x, k), d(_)) :> _ and (x, x) :> _ */
  const MIXED: Expr := ECombine(CMerge, ECombine(CPar, Pair("x", "k"), DOUBLING), EAtom(AWire))
  const DOUBLED: Expr := ECombine(CMerge, Pair("x", "x"), EAtom(AWire))

  /** m(d(_)), x */
  const MIXING: Expr := ECombine(CPar, ECall("m", [DOUBLING]), EIdent("x"))

  const X_FORM := Name(["x"])
  const CALL_FORM := Call(["d"], Primitive(AWire))
  const MIXED_FORM := Infix(CMerge, Infix(CPar, Infix(CPar, X_FORM, Name(["k"])), CALL_FORM), Primitive(AWire))
  const DOUBLED_FORM := Infix(CMerge, Infix(CPar, X_FORM, X_FORM), Primitive(AWire))
  const MIXING_FORM := Infix(CPar, Call(["m"], CALL_FORM), X_FORM)

  /** x = mem; m(x, k) = x, k, d(_) :> _; d(x) = x, x :> _; process = m(d(_)), x; */
  const MIXER: seq<Def> := [
    ValDef("x", Primitive(AMem)),
    FuncDefOf("m", ["x", "k"], MIXED_FORM),
    FuncDefOf("d", ["x"], DOUBLED_FORM),
    ProcessDef(MIXING_FORM)]

  const MIXER_ENV := Env(
    map["x" := EAtom(AMem)],
    map["m" := FuncDef(["x", "k"], MIXED), "d" := FuncDef(["x"], DOUBLED)],
    {},
    None)

  /** m calls d, and d is read in m's scope; m's second parameter is open. */
  const MIXER_PLAN := Folding.Plan(
    map["m" := {"d"}, "d" := {}],
    map["m" := {"m"}, "d" := {"m", "d"}],
    map["x" := {}],
    map["m" := {"k"}, "d" := {}])

  /** What the names and the forms of the mixer are. */
  lemma MixerForms()
    ensures Proper(X_FORM, 0) && Proper(CALL_FORM, 0) && Proper(MIXED_FORM, 0) && Proper(DOUBLED_FORM, 0) && Proper(MIXING_FORM, 0)
    ensures Proper(Primitive(AMem), 0) && Tree(Primitive(AMem)) == EAtom(AMem)
    ensures Tree(MIXED_FORM) == MIXED && Tree(DOUBLED_FORM) == DOUBLED && Tree(MIXING_FORM) == MIXING
    ensures Writable(MIXED_FORM) && Writable(DOUBLED_FORM) && Writable(MIXING_FORM) && Writable(Primitive(AMem))
  {
    hide *;
    MixerProperForms();
    MixerTrees();
    MixerWritable();
  }

  lemma MixerProperForms()
    ensures Proper(X_FORM, 0) && Proper(CALL_FORM, 0) && Proper(MIXED_FORM, 0) && Proper(DOUBLED_FORM, 0) && Proper(MIXING_FORM, 0)
    ensures Proper(Primitive(AMem), 0)
  {
    hide IsWord, Reserved, LevelOf, Tree, Writable;
    ShortNames();
    MixerNameForms();
    LevelsAre();
    var wire, call, xk := Primitive(AWire), CALL_FORM, Infix(CPar, X_FORM, Name(["k"]));
    assert Proper(wire, 4) && Proper(wire, 2) && Proper(call, 5) && Proper(call, 4) && Proper(Call(["m"], call), 4);
    assert Proper(xk, 4) && Proper(xk, 1) && Proper(Infix(CPar, xk, call), 1) && Proper(Infix(CPar, X_FORM, X_FORM), 1);
  }

  lemma MixerTrees()
    requires Proper(X_FORM, 0) && Proper(CALL_FORM, 0) && Proper(MIXED_FORM, 0) && Proper(DOUBLED_FORM, 0) && Proper(MIXING_FORM, 0)
    requires Proper(Primitive(AMem), 0)
    ensures Tree(Primitive(AMem)) == EAtom(AMem)
    ensures Tree(MIXED_FORM) == MIXED && Tree(DOUBLED_FORM) == DOUBLED && Tree(MIXING_FORM) == MIXING
  {
    hide IsWord, Reserved, LevelOf, Writable;
    ShortNames();
    MixerNameForms();
    LevelsAre();
    var call, xk := CALL_FORM, Infix(CPar, X_FORM, Name(["k"]));
    assert Tree(xk) == Pair("x", "k") && Tree(call) == DOUBLING && Tree(Infix(CPar, X_FORM, X_FORM)) == Pair("x", "x");
    assert Tree(Infix(CPar, xk, call)) == ECombine(CPar, Pair("x", "k"), DOUBLING);
    assert Tree(Call(["m"], call)) == ECall("m", [DOUBLING]);
  }

  lemma MixerWritable()
    ensures Writable(MIXED_FORM) && Writable(DOUBLED_FORM) && Writable(MIXING_FORM) && Writable(Primitive(AMem))
  {
    hide IsWord, Reserved, LevelOf, Proper, Tree;
    ShortNames();
    MixerNameForms();
    var call, xk := CALL_FORM, Infix(CPar, X_FORM, Name(["k"]));
    assert Writable(xk) && Writable(call) && Writable(Infix(CPar, xk, call)) && Writable(Call(["m"], call));
  }

  lemma LevelsAre()
    ensures LevelOf(CRec) == 0 && LevelOf(CMerge) == 1 && LevelOf(CSplit) == 2 && LevelOf(CSeq) == 3 && LevelOf(CPar) == 4
  {
  }

  lemma MixerNameForms()
    requires IsWord("x") && IsWord("k") && !Reserved("x") && !Reserved("k")
    ensures forall j: nat :: Proper(X_FORM, j) && Proper(Name(["k"]), j)
    ensures Tree(X_FORM) == EIdent("x") && Tree(Name(["k"])) == EIdent("k") && Writable(X_FORM) && Writable(Name(["k"]))
    ensures Joined(["d"]) == "d" && Joined(["m"]) == "m"
  {
    hide IsWord, Reserved;
    assert Joined(["x"]) == "x" && Joined(["k"]) == "k";
  }

  lemma MixerProper()
    ensures ProperDefs(MIXER) && WritableDefs(MIXER)
  {
    hide IsWord, Proper, Writable, KEYWORDS;
    MixerForms();
    ShortNames();
    OneLetterKeywords();
    assert ProperDef(MIXER[0]) && ProperDef(MIXER[1]) && ProperDef(MIXER[2]) && ProperDef(MIXER[3]);
    assert Words(["x", "k"]) && Words(["x"]);
    assert WritableDef(MIXER[0]) && WritableDef(MIXER[1]) && WritableDef(MIXER[2]) && WritableDef(MIXER[3]);
  }

  lemma OneLetterKeywords()
    ensures forall n: string :: |n| == 1 ==> n !in KEYWORDS
  {
  }

  lemma MixerDefined()
    ensures ProperDefs(MIXER) && DefineAll(START, MIXER) == Program(MIXER_ENV, MIXING)
  {
    hide DefineVal, DefineFunc, Proper, Tree, ProperDef;
    MixerForms();
    MixerProper();
    var p1 := DefineVal(START, "x", EAtom(AMem));
    var p2 := DefineFunc(p1, "m", ["x", "k"], MIXED);
    var p3 := DefineFunc(p2, "d", ["x"], DOUBLED);
    ValDefined(START, "x", EAtom(AMem));
    FuncDefined(p1, "m", ["x", "k"], MIXED);
    FuncDefined(p2, "d", ["x"], DOUBLED);
    assert p1.env.vals == MIXER_ENV.vals && p3.env.funcs == MIXER_ENV.funcs;
    FourDefined(START, MIXER);
  }

  lemma FourDefined(p: Program, ds: seq<Def>)
    requires |ds| == 4 && ProperDefs(ds)
    ensures DefineAll(p, ds) == Define(Define(Define(Define(p, ds[0]), ds[1]), ds[2]), ds[3])
  {
    hide Define, ProperDef;
    var q := Define(Define(Define(p, ds[0]), ds[1]), ds[2]);
    assert ds[1..][1..] == ds[2..] && ds[2..][1..] == ds[3..] && ds[3..][1..] == [];
    assert DefineAll(p, ds) == DefineAll(Define(p, ds[0]), ds[1..]);
    assert DefineAll(Define(p, ds[0]), ds[1..]) == DefineAll(Define(Define(p, ds[0]), ds[1]), ds[2..]);
    assert DefineAll(Define(Define(p, ds[0]), ds[1]), ds[2..]) == DefineAll(q, ds[3..]);
    assert DefineAll(q, ds[3..]) == DefineAll(Define(q, ds[3]), []);
  }

  lemma FuncDefined(p: Program, name: string, params: seq<string>, body: Expr)
    ensures DefineFunc(p, name, params, body) == Program(p.env.(funcs := p.env.funcs[name := FuncDef(params, body)]), p.process)
  {
  }

  /**
   A caller and a callee that share a parameter name with each other and with a
   value, and a call that leaves a parameter open, are hygienic and acyclic, and can
   be written: TextBuilds and TextRuns cover this program.
   */
  lemma MixerIsHygienic()
    ensures ProperDefs(MIXER) && WritableDefs(MIXER) && Unassisted(MIXER)
    ensures var p, rank := DefineAll(START, MIXER), map["m" := 1, "d" := 0, "x" := 0];
      && Folding.Hygienic(p.env, MIXER_PLAN) && Termination.Acyclic(p.env, MIXER_PLAN, rank)
      && Folding.AtLevel(p.process, Folding.Top({}), p.env, MIXER_PLAN)
      && Termination.Grounded(p.process, 2, Folding.Top({}), p.env, MIXER_PLAN, rank)
  {
    hide DefineAll, ProperDefs, WritableDefs, Folding.AtLevel, Folding.Binds, Termination.Grounded;
    MixerDefined();
    MixerProper();
    var rank: map<string, nat> := map["m" := 1, "d" := 0, "x" := 0];
    BodiesAreHygienic(rank);
    ProcessIsHygienic(rank);
    ValueIsHygienic(rank);
  }

  lemma ValueIsHygienic(rank: map<string, nat>)
    ensures Folding.AtLevel(EAtom(AMem), Folding.Top({}), MIXER_ENV, MIXER_PLAN)
    ensures Termination.Grounded(EAtom(AMem), 0, Folding.Top({}), MIXER_ENV, MIXER_PLAN, rank)
  {
  }

  /** The call of d, wherever only m's scope may be open. */
  lemma CallIsHygienic(lv: Folding.Level, h: nat, rank: map<string, nat>)
    requires lv.over <= {"m", "d"} && (lv.Body? ==> lv.f == "m") && "d" in rank && rank["d"] < h
    ensures Folding.AtLevel(DOUBLING, lv, MIXER_ENV, MIXER_PLAN) && Termination.Grounded(DOUBLING, h, lv, MIXER_ENV, MIXER_PLAN, rank)
  {
    hide Folding.Binds;
    assert ["x"][..1] == ["x"];
    assert Folding.Covers(["x"], 1, {});
    assert Folding.Allowed("d", lv, MIXER_PLAN);
  }

  lemma ProcessIsHygienic(rank: map<string, nat>)
    requires rank == map["m" := 1, "d" := 0, "x" := 0]
    ensures Folding.AtLevel(MIXING, Folding.Top({}), MIXER_ENV, MIXER_PLAN)
    ensures Termination.Grounded(MIXING, 2, Folding.Top({}), MIXER_ENV, MIXER_PLAN, rank)
  {
    hide Folding.Binds;
    var top, args, call := Folding.Top({}), Folding.Inner(Folding.Top({}), "m", MIXER_PLAN), ECall("m", [DOUBLING]);
    assert "m" in rank && rank["m"] == 1 && "d" in rank && rank["d"] == 0 && "x" in rank && rank["x"] == 0;
    assert args == Folding.Top({"m", "d"});
    CallIsHygienic(args, 2, rank);
    assert ["x", "k"][..1] == ["x"];
    assert Folding.Covers(["x", "k"], 1, {"k"});
    CallBothWays(call, top, rank);
    ValueMention(rank);
  }

  lemma CallBothWays(call: Expr, top: Folding.Level, rank: map<string, nat>)
    requires call == ECall("m", [DOUBLING]) && top == Folding.Top({}) && "m" in rank && rank["m"] == 1
    requires Folding.Covers(["x", "k"], 1, {"k"})
    requires Folding.AtLevel(DOUBLING, Folding.Inner(top, "m", MIXER_PLAN), MIXER_ENV, MIXER_PLAN)
    requires Termination.Grounded(DOUBLING, 2, Folding.Inner(top, "m", MIXER_PLAN), MIXER_ENV, MIXER_PLAN, rank)
    ensures Folding.AtLevel(call, top, MIXER_ENV, MIXER_PLAN) && Termination.Grounded(call, 2, top, MIXER_ENV, MIXER_PLAN, rank)
  {
    hide Folding.Binds, Folding.Covers, Folding.Inner;
    assert call.args == [DOUBLING] && Folding.Allowed("m", top, MIXER_PLAN);
  }

  lemma ValueMention(rank: map<string, nat>)
    requires "x" in rank && rank["x"] == 0
    ensures Folding.AtLevel(EIdent("x"), Folding.Top({}), MIXER_ENV, MIXER_PLAN)
    ensures Termination.Grounded(EIdent("x"), 2, Folding.Top({}), MIXER_ENV, MIXER_PLAN, rank)
  {
    hide Folding.Binds;
  }

  lemma BodiesAreHygienic(rank: map<string, nat>)
    requires "d" in rank && rank["d"] == 0
    ensures Folding.AtLevel(MIXED, Folding.BodyOf(MIXER_PLAN, "m"), MIXER_ENV, MIXER_PLAN)
    ensures Folding.AtLevel(DOUBLED, Folding.BodyOf(MIXER_PLAN, "d"), MIXER_ENV, MIXER_PLAN)
    ensures Termination.Grounded(MIXED, 1, Folding.BodyOf(MIXER_PLAN, "m"), MIXER_ENV, MIXER_PLAN, rank)
    ensures Termination.Grounded(DOUBLED, 0, Folding.BodyOf(MIXER_PLAN, "d"), MIXER_ENV, MIXER_PLAN, rank)
  {
    hide Folding.Shadowed, Folding.Binds;
    MixerNames();
    NameIsHygienic("x", "m", 1, rank);
    NameIsHygienic("k", "m", 1, rank);
    NameIsHygienic("x", "d", 0, rank);
    var m := Folding.BodyOf(MIXER_PLAN, "m");
    CallIsHygienic(m, 1, rank);
    MixedIsHygienic(m, rank);
  }

  lemma MixedIsHygienic(m: Folding.Level, rank: map<string, nat>)
    requires Folding.AtLevel(EIdent("x"), m, MIXER_ENV, MIXER_PLAN) && Termination.Grounded(EIdent("x"), 1, m, MIXER_ENV, MIXER_PLAN, rank)
    requires Folding.AtLevel(EIdent("k"), m, MIXER_ENV, MIXER_PLAN) && Termination.Grounded(EIdent("k"), 1, m, MIXER_ENV, MIXER_PLAN, rank)
    requires Folding.AtLevel(DOUBLING, m, MIXER_ENV, MIXER_PLAN) && Termination.Grounded(DOUBLING, 1, m, MIXER_ENV, MIXER_PLAN, rank)
    ensures Folding.AtLevel(MIXED, m, MIXER_ENV, MIXER_PLAN) && Termination.Grounded(MIXED, 1, m, MIXER_ENV, MIXER_PLAN, rank)
  {
    hide Folding.Shadowed, Folding.Binds;
    var both := ECombine(CPar, Pair("x", "k"), DOUBLING);
    assert Folding.AtLevel(Pair("x", "k"), m, MIXER_ENV, MIXER_PLAN) && Termination.Grounded(Pair("x", "k"), 1, m, MIXER_ENV, MIXER_PLAN, rank);
    assert Folding.AtLevel(both, m, MIXER_ENV, MIXER_PLAN) && Termination.Grounded(both, 1, m, MIXER_ENV, MIXER_PLAN, rank);
  }

  /** What the names of the program mean to the check. */
  lemma MixerNames()
    ensures Folding.Binds(MIXER_ENV, MIXER_PLAN, "m", "x") && Folding.Binds(MIXER_ENV, MIXER_PLAN, "d", "x")
    ensures forall f :: !Folding.Binds(MIXER_ENV, MIXER_PLAN, f, "k")
    ensures "k" !in MIXER_ENV.vals && "k" !in MIXER_ENV.funcs && "x" !in MIXER_ENV.funcs
  {
    assert "k" != "m" && "k" != "d" && "x" != "m" && "x" != "d" && "k" != "x";
  }

  /** A name that the function binds, or that means nothing anywhere. */
  lemma NameIsHygienic(n: string, f: string, h: nat, rank: map<string, nat>)
    requires Folding.Binds(MIXER_ENV, MIXER_PLAN, f, n) ||
      (n !in MIXER_ENV.vals && n !in MIXER_ENV.funcs && forall g :: !Folding.Binds(MIXER_ENV, MIXER_PLAN, g, n))
    ensures var lv := Folding.BodyOf(MIXER_PLAN, f);
      Folding.AtLevel(EIdent(n), lv, MIXER_ENV, MIXER_PLAN) && Termination.Grounded(EIdent(n), h, lv, MIXER_ENV, MIXER_PLAN, rank)
  {
    hide Folding.Binds;
  }

  /** The capturing program is one that can be written: its text reads back as that environment and process. */
  lemma CaptureIsText(u: Sample, w: Sample)
    requires WritableNum(u) && WritableNum(w)
    ensures var ds := CapturingText(u, w);
      ProperDefs(ds) && IsTextOf(Render(WriteDefs(ds)), ds)
      && ParseText(Render(WriteDefs(ds))) == Some(Program(Capture.Captured(u, w), Capture.CAPTURING))
  {
    hide ParseText, Render, WriteDefs, IsTextOf, ProperDefs, WritableDefs, DefineAll;
    var ds := CapturingText(u, w);
    CapturingProper(u, w);
    WrittenText(ds);
    TextBack(Render(WriteDefs(ds)), ds);
    CapturingDefined(u, w);
  }

  /** y = u; k(y) = x; h(x) = k(w); process = h(y); */
  function CapturingText(u: Sample, w: Sample): seq<Def> {
    [ValDef("y", Numeral(u)), FuncDefOf("k", ["y"], Name(["x"])), FuncDefOf("h", ["x"], Call(["k"], Numeral(w))),
     ProcessDef(Call(["h"], Name(["y"])))]
  }

  lemma CapturingForms(w: Sample)
    ensures var call, inner := Call(["h"], Name(["y"])), Call(["k"], Numeral(w));
      && Proper(call, 0) && Proper(inner, 0) && Proper(Name(["x"]), 0)
      && Tree(call) == Capture.CAPTURING && Tree(inner) == ECall("k", [ENum(w)]) && Tree(Name(["x"])) == EIdent("x")
  {
    hide IsWord, Reserved;
    ShortNames();
    assert Joined(["h"]) == "h" && Joined(["y"]) == "y" && Joined(["k"]) == "k" && Joined(["x"]) == "x";
    assert Proper(Name(["y"]), 0) && Tree(Name(["y"])) == EIdent("y");
  }

  lemma CapturingProper(u: Sample, w: Sample)
    requires WritableNum(u) && WritableNum(w)
    ensures ProperDefs(CapturingText(u, w)) && WritableDefs(CapturingText(u, w))
  {
    ShortNames();
    OneLetterKeywords();
    CapturingForms(w);
    var ds := CapturingText(u, w);
    assert Proper(Numeral(u), 0) && Writable(Numeral(u)) && Writable(Numeral(w));
    hide WritableNum, IsWord, Reserved, Proper, KEYWORDS;
    assert ProperDef(ds[0]) && ProperDef(ds[1]) && ProperDef(ds[2]) && ProperDef(ds[3]);
    assert Words(["x"]) && Words(["y"]) && Words(["h"]) && Words(["k"]);
    assert Writable(Name(["x"])) && Writable(Call(["k"], Numeral(w))) && Writable(Name(["y"])) && Writable(Call(["h"], Name(["y"])));
    assert WritableDef(ds[0]) && WritableDef(ds[1]) && WritableDef(ds[2]) && WritableDef(ds[3]);
  }

  /** One letter is always a plain name. */
  lemma Letter(n: string)
    requires |n| == 1 && IsAlpha(n[0])
    ensures IsWord(n) && !Reserved(n) && n !in KEYWORDS
  {
    hide IsAlpha;
    WordsAreLong();
    assert n !in UNARY_OPS && n !in BINARY_WORDS && n !in GROUP_WORDS && n !in SKIPPED_WORDS;
  }

  lemma WordsAreLong()
    ensures forall w :: w in UNARY_OPS || w in BINARY_WORDS || w in GROUP_WORDS || w in SKIPPED_WORDS ==> |w| >= 2
  {
  }

  lemma ShortNames()
    ensures IsWord("x") && IsWord("y") && IsWord("k") && IsWord("h") && IsWord("m") && IsWord("d")
    ensures !Reserved("x") && !Reserved("y") && !Reserved("k") && !Reserved("h") && !Reserved("m") && !Reserved("d")
    ensures "y" !in KEYWORDS && "k" !in KEYWORDS && "h" !in KEYWORDS && "m" !in KEYWORDS && "d" !in KEYWORDS
  {
    hide IsWord, Reserved, KEYWORDS;
    Letter("x");
    Letter("y");
    Letter("k");
    Letter("h");
    Letter("m");
    Letter("d");
  }

  lemma CapturingDefined(u: Sample, w: Sample)
    requires ProperDefs(CapturingText(u, w))
    ensures DefineAll(START, CapturingText(u, w)) == Program(Capture.Captured(u, w), Capture.CAPTURING)
  {
    hide DefineFunc, DefineVal, Proper, ProperDef;
    CapturingForms(w);
    var ds, top := CapturingText(u, w), Capture.Captured(u, w);
    var p1 := DefineVal(START, "y", ENum(u));
    assert p1.env == Env(map["y" := ENum(u)], map[], {}, None) && p1.process == START.process by { ValDefined(START, "y", ENum(u)); }
    FuncDefined(p1, "k", ["y"], EIdent("x"));
    var p2 := DefineFunc(p1, "k", ["y"], EIdent("x"));
    FuncDefined(p2, "h", ["x"], ECall("k", [ENum(w)]));
    var p3 := DefineFunc(p2, "h", ["x"], ECall("k", [ENum(w)]));
    assert p3.env.funcs == top.funcs;
    FourDefined(START, ds);
  }

  lemma ValDefined(p: Program, name: string, body: Expr)
    ensures DefineVal(p, name, body) == Program(p.env.(vals := p.env.vals[name := body]), p.process)
  {
  }

  /** (_, _) ~ (_, _) */
  const LOOP_FORM := Infix(CRec, Infix(CPar, Primitive(AWire), Primitive(AWire)), Infix(CPar, Primitive(AWire), Primitive(AWire)))

  /** The program whose loop uses the memory's cell can be written, and is built as the colliding graph. */
  lemma CollisionIsText()
    ensures var ds := [ProcessDef(Infix(CPar, Parens(LOOP_FORM), Primitive(AMem)))];
      && ProperDefs(ds) && IsTextOf(Render(WriteDefs(ds)), ds)
      && ParseText(Render(WriteDefs(ds))) == Some(Program(START.env, Numbering.WIDE_PROGRAM))
      && Eval(Numbering.WIDE_PROGRAM, START.env, 4, 0, true) == Built(Runs.COLLIDING, 2)
  {
    hide ParseText, Render, WriteDefs, IsTextOf, Eval, DefineAll, Proper, Tree, Writable;
    var f := Infix(CPar, Parens(LOOP_FORM), Primitive(AMem));
    var ds := [ProcessDef(f)];
    WideForm();
    assert forall i :: 0 <= i < |ds| ==> ds[i] == ProcessDef(f);
    WrittenText(ds);
    TextBack(Render(WriteDefs(ds)), ds);
    OneDefined(START, f);
    Numbering.WideProgramCollides(START.env);
  }

  lemma OneDefined(p: Program, f: Form)
    requires Proper(f, 0)
    ensures ProperDefs([ProcessDef(f)]) && DefineAll(p, [ProcessDef(f)]) == Program(p.env, Tree(f))
  {
    hide Proper, Tree;
    var ds := [ProcessDef(f)];
    assert ds[1..] == [];
    assert DefineAll(Define(p, ds[0]), []) == Define(p, ds[0]);
  }

  lemma WideForm()
    ensures var f := Infix(CPar, Parens(LOOP_FORM), Primitive(AMem)); Proper(f, 0) && Writable(f) && Tree(f) == Numbering.WIDE_PROGRAM
  {
    var wire := Primitive(AWire);
    var two := Infix(CPar, wire, wire);
    assert Proper(two, 0) && Proper(two, 1) && Tree(two) == Numbering.TWO_SIGNALS && Writable(two);
    assert Proper(LOOP_FORM, 0) && Tree(LOOP_FORM) == ECombine(CRec, Numbering.TWO_SIGNALS, Numbering.TWO_SIGNALS) && Writable(LOOP_FORM);
    assert Proper(Parens(LOOP_FORM), 4) && Proper(Primitive(AMem), 5);
  }
}
