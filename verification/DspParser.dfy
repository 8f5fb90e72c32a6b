/** The parser object: a token list and a position that its methods advance. */
module Parsing {
  import opened Wrappers
  import opened Samples
  import opened Exprs
  import opened Syntax

  lemma LevelUnfolds(ts: seq<Token>, pos: nat, k: nat)
    requires TokenList(ts) && pos < |ts| && k <= 5
    ensures k == 5 ==> ParseLevel(ts, pos, k) == ParseAtom(ts, pos)
    ensures k < 5 ==> var l := ParseLevel(ts, pos, k + 1);
      ParseLevel(ts, pos, k) == if l.Parsed? then ParseLoop(ts, l.e, l.pos, k) else Failed
  {
    hide ParseAtom, ParseLoop;
  }

  lemma LoopUnfolds(ts: seq<Token>, l: Expr, pos: nat, k: nat)
    requires TokenList(ts) && pos < |ts| && k < 5
    ensures !Sees(ts, pos, LevelToken(k)) ==> ParseLoop(ts, l, pos, k) == Parsed(l, pos)
    ensures Sees(ts, pos, LevelToken(k)) ==>
      var r := ParseLevel(ts, pos + 1, k + 1);
      ParseLoop(ts, l, pos, k) == if r.Parsed? then ParseLoop(ts, ECombine(LevelOp(k), l, r.e), r.pos, k) else Failed
  {
    hide ParseAtom, ParseLevel;
  }

  class Parser {
    const toks: seq<Token>
    var pos: nat

    constructor (ts: seq<Token>)
      ensures toks == ts && pos == 0
    {
      toks, pos := ts, 0;
    }

    /** The position never leaves the token list: reading the end marker is the furthest it gets. */
    ghost predicate Valid()
      reads this
    {
      TokenList(toks) && pos <= |toks|
    }

    /** A result agrees with the grammar, and on success the position is where the grammar ends. */
    ghost predicate Agrees(r: Option<Expr>, p: Parse)
      reads this
    {
      r == (if p.Parsed? then Some(p.e) else None) && (p.Parsed? ==> pos == p.pos)
    }

    function Current(): (t: Token)
      requires Valid()
      reads this
    {
      toks[Lesser(pos, |toks| - 1)]
    }

    method Eat() returns (t: Token)
      requires Valid() && pos < |toks|
      modifies this
      ensures Valid() && pos == old(pos) + 1 && t == toks[old(pos)]
    {
      t := toks[pos];
      pos := pos + 1;
    }

    method Expect(t: Tok) returns (ok: bool)
      requires Valid() && t != TEof
      modifies this
      ensures Valid() && ok == Sees(toks, old(pos), t)
      ensures pos == if ok then old(pos) + 1 else old(pos)
      ensures ok ==> pos < |toks|
    {
      ok := Current().kind == t;
      if ok {
        var _ := Eat();
      }
    }

    method PExpr() returns (r: Option<Expr>)
      requires Valid() && pos < |toks|
      modifies this
      ensures Valid() && Agrees(r, ParseLevel(toks, old(pos), 0))
      decreases |toks| - pos, 9
    {
      r := PLevel(0);
    }

    /** One precedence level. */
    method PLevel(k: nat) returns (r: Option<Expr>)
      requires Valid() && pos < |toks| && k <= 5
      modifies this
      ensures Valid() && Agrees(r, ParseLevel(toks, old(pos), k))
      decreases |toks| - pos, 7 - k
    {
      hide ParseAtom, ParseLevel, ParseLoop;
      LevelUnfolds(toks, pos, k);
      if k == 5 {
        r := PAtom();
        return;
      }
      r := PLevel(k + 1);
      ghost var result := ParseLevel(toks, old(pos), k);
      while r.Some? && Current().kind == LevelToken(k)
        invariant Valid()
        invariant r.Some? ==> old(pos) < pos < |toks| && result == ParseLoop(toks, r.value, pos, k)
        invariant r.None? ==> result.Failed?
        decreases r.Some?, |toks| - pos
      {
        LoopUnfolds(toks, r.value, pos, k);
        var _ := Eat();
        var right := PLevel(k + 1);
        r := if right.Some? then Some(ECombine(LevelOp(k), r.value, right.value)) else None;
      }
      if r.Some? { LoopUnfolds(toks, r.value, pos, k); }
    }

    method PAtom() returns (r: Option<Expr>)
      requires Valid() && pos < |toks|
      modifies this
      ensures Valid() && Agrees(r, ParseAtom(toks, old(pos)))
      decreases |toks| - pos, 1
    {
      hide ParseLevel, ParseWord, SymbolAtom, ParseLoop, Qualified;
      EndIsNoSymbol();
      var t := Current();
      if t.kind == TNum {
        var _ := Eat();
        r := Some(ENum(t.num));
      } else if SymbolAtom(t.kind).Some? {
        var _ := Eat();
        r := Some(EAtom(SymbolAtom(t.kind).value));
      } else if t.kind == TStar {
        var _ := Eat();
        if Current().kind == TLP {
          var x := PGroup();
          r := if x.None? then None
               else Some(ECombine(CSeq, ECombine(CPar, EAtom(AWire), x.value), EAtom(ABinOp("*"))));
        } else {
          r := Some(EAtom(ABinOp("*")));
        }
      } else if t.kind == TLP {
        r := PGroup();
      } else if t.kind == TId {
        var _ := Eat();
        var name := PName(t.text);
        r := PWord(name);
      } else {
        r := None;
      }
    }

    /** An expression between parentheses. */
    method PGroup() returns (r: Option<Expr>)
      requires Valid() && pos < |toks| && toks[pos].kind == TLP
      modifies this
      ensures Valid()
      ensures var x := ParseLevel(toks, old(pos) + 1, 0);
        if x.Parsed? && Sees(toks, x.pos, TRP) then r == Some(x.e) && pos == x.pos + 1 else r == None
      decreases |toks| - pos, 0
    {
      hide ParseLevel;
      var _ := Eat();
      r := PExpr();
      if r.None? { return; }
      var ok := Expect(TRP);
      if !ok { r := None; }
    }

    /** The rest of a qualified name. */
    method PName(first: string) returns (name: string)
      requires Valid() && pos < |toks|
      modifies this
      ensures Valid() && (name, pos) == Qualified(toks, old(pos), first)
    {
      name := first;
      while Current().kind == TDot && pos + 1 < |toks| && toks[pos + 1].kind == TId
        invariant Valid() && pos < |toks|
        invariant Qualified(toks, pos, name) == Qualified(toks, old(pos), first)
        decreases |toks| - pos
      {
        var _ := Eat();
        name := name + "." + Current().text;
        var _ := Eat();
      }
    }

    lemma EndIsNoSymbol()
      ensures SymbolAtom(TEof).None?
    {
    }

    method PWord(name: string) returns (r: Option<Expr>)
      requires Valid() && 0 < pos < |toks|
      modifies this
      ensures Valid() && Agrees(r, ParseWord(toks, old(pos), name))
      decreases |toks| - pos, 7
    {
      hide ParseLevel, ParseAtom, WordAtom, ParseSlider, ParseLabelled, ParseArgs;
      r := None;
      if WordAtom(name).Some? {
        r := Some(EAtom(WordAtom(name).value));
      } else if name == "hslider" || name == "vslider" || name == "nentry" {
        r := PSlider(name);
      } else if name == "button" {
        r := PLabelled(true);
      } else if name == "checkbox" {
        r := PLabelled(false);
      } else if name in GROUP_WORDS {
        var ok := Expect(TLP);
        if !ok { return; }
        var title := Eat();
        ok := Expect(TComma);
        if !ok { return; }
        var body := PExpr();
        if body.None? { return; }
        ok := Expect(TRP);
        r := if ok then Some(EGroup(name, title.text, body.value)) else None;
      } else if name in SKIPPED_WORDS {
        ghost var stop := SkipStatement(toks, pos);
        while Current().kind != TSemi && Current().kind != TEof
          invariant Valid() && pos < |toks| && SkipStatement(toks, pos) == stop
          decreases |toks| - pos
        {
          var _ := Eat();
        }
        r := Some(ENull);
      } else if Current().kind == TLP {
        var _ := Eat();
        r := PCall(name);
      } else {
        r := Some(EIdent(name));
      }
    }

    /** The arguments of a call, after its opening parenthesis. */
    method PCall(name: string) returns (r: Option<Expr>)
      requires Valid() && pos < |toks|
      modifies this
      ensures Valid()
      ensures if Sees(toks, old(pos), TRP) then r == Some(ECall(name, [])) && pos == old(pos) + 1
              else var a := ParseArgs(toks, old(pos));
                if a.ArgsParsed? && Sees(toks, a.pos, TRP) then r == Some(ECall(name, a.args)) && pos == a.pos + 1
                else r == None
      decreases |toks| - pos, 10
    {
      hide ParseLevel, ParseAtom, ParseWord;
      var args: seq<Expr> := [];
      if Current().kind != TRP {
        var a := PExpr();
        if a.None? { return None; }
        args := [a.value];
        ghost var all := ParseArgs(toks, old(pos));
        ghost var first := ParseLevel(toks, old(pos), 0);
        while Current().kind == TComma
          invariant Valid() && old(pos) < pos < |toks|
          invariant all == More(args, pos)
          decreases |toks| - pos
        {
          MoreUnfolds(args, pos);
          var _ := Eat();
          a := PExpr();
          if a.None? { return None; }
          args := args + [a.value];
        }
      }
      var ok := Expect(TRP);
      r := if ok then Some(ECall(name, args)) else None;
    }

    /** Arguments read so far, followed by those the grammar still finds here. */
    ghost function More(args: seq<Expr>, at: nat): ArgsParse
      requires TokenList(toks) && at < |toks|
    {
      if Sees(toks, at, TComma) then
        var rest := ParseArgs(toks, at + 1);
        if rest.ArgsParsed? then ArgsParsed(args + rest.args, rest.pos) else ArgsFailed
      else ArgsParsed(args, at)
    }

    lemma MoreUnfolds(args: seq<Expr>, at: nat)
      requires TokenList(toks) && at < |toks| && Sees(toks, at, TComma)
      ensures var a := ParseLevel(toks, at + 1, 0);
        More(args, at) == if a.Parsed? then More(args + [a.e], a.pos) else ArgsFailed
    {
      hide ParseLevel;
      var a := ParseLevel(toks, at + 1, 0);
      if a.Parsed? && Sees(toks, a.pos, TComma) {
        var rest := ParseArgs(toks, a.pos + 1);
        if rest.ArgsParsed? { assert args + ([a.e] + rest.args) == (args + [a.e]) + rest.args; }
      }
    }

    method PLabelled(button: bool) returns (r: Option<Expr>)
      requires Valid() && pos < |toks|
      modifies this
      ensures Valid() && Agrees(r, ParseLabelled(toks, old(pos), button))
    {
      r := None;
      var ok := Expect(TLP);
      if !ok { return; }
      var title := Eat();
      ok := Expect(TRP);
      if !ok { return; }
      r := Some(EAtom(if button then AButton(title.text) else ACheckbox(title.text)));
    }

    /** A comma and the token after it. */
    method Field() returns (ok: bool, t: Token)
      requires Valid()
      modifies this
      ensures Valid() && ok == Sees(toks, old(pos), TComma)
      ensures ok ==> pos == old(pos) + 2 && t == Cur(toks, old(pos) + 1)
      ensures !ok ==> pos == old(pos)
    {
      t := Current();
      ok := Expect(TComma);
      if ok {
        t := Eat();
      }
    }

    method TwoFields() returns (ok: bool, t: Token, u: Token)
      requires Valid()
      modifies this
      ensures Valid() && ok == (Sees(toks, old(pos), TComma) && Sees(toks, old(pos) + 2, TComma))
      ensures ok ==> pos == old(pos) + 4 && t == Cur(toks, old(pos) + 1) && u == Cur(toks, old(pos) + 3)
    {
      hide TokenList;
      ok, t := Field();
      u := t;
      if ok {
        ok, u := Field();
      }
    }

    method PSlider(kind: string) returns (r: Option<Expr>)
      requires Valid() && pos < |toks|
      modifies this
      ensures Valid() && Agrees(r, ParseSlider(toks, old(pos), kind))
    {
      hide TokenList;
      r := None;
      var ok := Expect(TLP);
      if !ok { return; }
      var title := Eat();
      var init, lo, hi, step;
      ok, init, lo := TwoFields();
      if !ok { return; }
      ok, hi, step := TwoFields();
      if !ok { return; }
      ok := Expect(TRP);
      if !ok { return; }
      r := Some(EAtom(if kind == "nentry" then ANentry(title.text, init.num, lo.num, hi.num, step.num)
                      else ASlider(kind, title.text, init.num, lo.num, hi.num, step.num)));
    }
  }
}
