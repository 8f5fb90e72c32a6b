/**
 The tokenizer, and its inverse on any list of tokens that can be spelled: each
 token written out, with a space after it.
 */
module Lexing {
  import opened Wrappers
  import opened Samples
  import opened Syntax

  /** The library's conversion of a numeral, which may be out of range. */
  const STOF: string -> Option<Sample>

  predicate IsSpace(c: char) {
    c == ' ' || c == '\t' || c == '\n' || c == '\U{0B}' || c == '\U{0C}' || c == '\r'
  }

  predicate IsDigit(c: char) { '0' <= c <= '9' }

  predicate IsAlpha(c: char) { 'a' <= c <= 'z' || 'A' <= c <= 'Z' }

  predicate InWord(c: char) { IsAlpha(c) || IsDigit(c) || c == '_' || c == '\'' }

  predicate InNumeral(c: char) { IsDigit(c) || c == '.' || c == 'e' || c == 'E' }

  predicate InLine(c: char) { c != '\n' }

  predicate InString(c: char) { c != '\"' }

  /** The token of a character that is one by itself; `/` may still start a comment. */
  function Single(c: char): Option<Tok> {
    if c == '(' then Some(TLP) else if c == ')' then Some(TRP)
    else if c == '{' then Some(TLB) else if c == '}' then Some(TRB)
    else if c == ';' then Some(TSemi) else if c == '=' then Some(TEq)
    else if c == ',' then Some(TComma) else if c == '~' then Some(TTilde)
    else if c == '_' then Some(TUnder) else if c == '!' then Some(TBang)
    else if c == '@' then Some(TAt) else if c == '-' then Some(TMinus)
    else if c == '*' then Some(TStar) else if c == '%' then Some(TPercent)
    else if c == '^' then Some(TCaret) else if c == '&' then Some(TAmp)
    else if c == '|' then Some(TPipe) else if c == '.' then Some(TDot)
    else if c == '/' then Some(TSlash)
    else None
  }

  /** The end of the run of characters from i on that all satisfy p. */
  function Span(src: string, i: nat, p: char -> bool): (j: nat)
    requires i <= |src|
    ensures i <= j <= |src| && (forall k :: i <= k < j ==> p(src[k])) && (j < |src| ==> !p(src[j]))
    decreases |src| - i
  {
    if i < |src| && p(src[i]) then Span(src, i + 1, p) else i
  }

  predicate ClosesComment(src: string, i: nat) {
    i + 1 < |src| && src[i] == '*' && src[i + 1] == '/'
  }

  /** Where a block comment stops being read: at its end mark, or one short of the end of the text. */
  function CommentEnd(src: string, i: nat): (j: nat)
    requires i <= |src|
    ensures i <= j <= |src|
    decreases |src| - i
  {
    if i + 1 < |src| && !ClosesComment(src, i) then CommentEnd(src, i + 1) else i
  }

  function Peek(src: string, i: nat): char { if i < |src| then src[i] else '\0' }

  /** What stands at one place: at most one token, and where to go on. */
  datatype Lexeme = Lexeme(next: nat, toks: seq<Token>) | BadNumeral

  function Plain(next: nat, t: Tok): Lexeme { Lexeme(next, [Token(t, "", ZERO)]) }

  function LexOne(src: string, i: nat): (l: Lexeme)
    requires i < |src|
    ensures l.Lexeme? ==> i < l.next <= |src|
  {
    var c, d := src[i], Peek(src, i + 1);
    if IsSpace(c) then Lexeme(i + 1, [])
    else if c == '/' && d == '/' then Lexeme(Span(src, i + 1, InLine), [])
    else if c == '/' && d == '*' then
      var j := CommentEnd(src, i + 2);
      Lexeme(if j + 1 < |src| then j + 2 else j, [])
    else if Single(c).Some? then Plain(i + 1, Single(c).value)
    else if c == '+' then if d == '>' then Lexeme(i + 2, [Token(TMerge, "+>", ZERO)]) else Plain(i + 1, TPlus)
    else if c == ':' then if d == '>' then Lexeme(i + 2, [Token(TMerge, ":>", ZERO)]) else Plain(i + 1, TColon)
    else if c == '<' then if d == ':' then Plain(i + 2, TSplit) else if d == '<' then Plain(i + 2, TLShift) else Lexeme(i + 1, [])
    else if c == '>' then if d == '>' then Plain(i + 2, TRShift) else Lexeme(i + 1, [])
    else if c == '\"' then
      var j := Span(src, i + 1, InString);
      Lexeme(if j < |src| then j + 1 else j, [Token(TStr, src[i + 1..j], ZERO)])
    else if IsDigit(c) then
      var j := Span(src, i + 1, InNumeral);
      var v := STOF(src[i..j]);
      if v.Some? then Lexeme(j, [Token(TNum, src[i..j], v.value)]) else BadNumeral
    else if IsAlpha(c) then
      var j := Span(src, i + 1, InWord);
      Lexeme(j, [Token(TId, src[i..j], ZERO)])
    else Lexeme(i + 1, [])
  }

  const EOF := Token(TEof, "", ZERO)

  /** All tokens from i on and the end mark, unless a numeral is out of range. */
  function Lex(src: string, i: nat): Option<seq<Token>>
    requires i <= |src|
    decreases |src| - i
  {
    if i == |src| then Some([EOF])
    else
      var l := LexOne(src, i);
      if l.BadNumeral? then None
      else
        var rest := Lex(src, l.next);
        if rest.None? then None else Some(l.toks + rest.value)
  }

  /** What the tokenizer returns is what the parser relies on. */
  lemma {:induction false} LexIsTokenList(src: string, i: nat)
    requires i <= |src| && Lex(src, i).Some?
    ensures TokenList(Lex(src, i).value)
    ensures var ts := Lex(src, i).value;
      ts != [] && ts[|ts| - 1].kind == TEof && forall k :: 0 <= k < |ts| - 1 ==> ts[k].kind != TEof
    decreases |src| - i
  {
    hide LexOne;
    if i < |src| {
      LexOneNoEnd(src, i);
      LexIsTokenList(src, LexOne(src, i).next);
    }
  }

  lemma LexOneNoEnd(src: string, i: nat)
    requires i < |src| && LexOne(src, i).Lexeme?
    ensures forall t :: t in LexOne(src, i).toks ==> t.kind != TEof
  {
    hide Span, CommentEnd;
  }

  // ---- The tokenizer's loop.

  method Scan(src: string, i: nat, p: char -> bool) returns (j: nat)
    requires i <= |src|
    ensures j == Span(src, i, p)
  {
    j := i;
    while j < |src| && p(src[j])
      invariant j <= |src| && Span(src, j, p) == Span(src, i, p)
    {
      j := j + 1;
    }
  }

  method ScanComment(src: string, i: nat) returns (j: nat)
    requires i <= |src|
    ensures j == CommentEnd(src, i)
  {
    j := i;
    while j + 1 < |src| && !(src[j] == '*' && src[j + 1] == '/')
      invariant j <= |src| && CommentEnd(src, j) == CommentEnd(src, i)
    {
      j := j + 1;
    }
  }

  method Tokenize(src: string) returns (r: Option<seq<Token>>)
    ensures r == Lex(src, 0)
    ensures r.Some? ==> TokenList(r.value)
  {
    hide LexOne, TokenList;
    var ts: seq<Token> := [];
    var i := 0;
    ghost var all := Lex(src, 0);
    NoneBefore(all);
    while i < |src|
      invariant i <= |src| && all == After(ts, Lex(src, i))
      decreases |src| - i
    {
      ghost var one := LexOne(src, i);
      var l := NextLexeme(src, i);
      AfterOne(ts, src, i);
      if l.BadNumeral? { return None; }
      ts, i := ts + l.toks, l.next;
    }
    ts := ts + [EOF];
    r := Some(ts);
    LexIsTokenList(src, 0);
  }

  /** One turn of the loop. */
  method NextLexeme(src: string, at: nat) returns (l: Lexeme)
    requires at < |src|
    ensures l == LexOne(src, at)
  {
    hide Span, CommentEnd;
    var i, c := at, src[at];
    if IsSpace(c) { return Lexeme(i + 1, []); }
    if c == '/' && i + 1 < |src| && src[i + 1] == '/' {
      i := Scan(src, i + 1, InLine);
      return Lexeme(i, []);
    }
    if c == '/' && i + 1 < |src| && src[i + 1] == '*' {
      i := ScanComment(src, i + 2);
      if i + 1 < |src| { i := i + 2; }
      return Lexeme(i, []);
    }
    if Single(c).Some? { return Plain(i + 1, Single(c).value); }
    i := i + 1;
    var d := Peek(src, i);
    if c == '+' || c == ':' {
      if d == '>' { return Lexeme(i + 1, [Token(TMerge, [c, d], ZERO)]); }
      return Plain(i, if c == '+' then TPlus else TColon);
    }
    if c == '<' {
      if d == ':' { return Plain(i + 1, TSplit); }
      if d == '<' { return Plain(i + 1, TLShift); }
      return Lexeme(i, []);
    }
    if c == '>' {
      if d == '>' { return Plain(i + 1, TRShift); }
      return Lexeme(i, []);
    }
    if c == '\"' {
      var j := Scan(src, i, InString);
      return Lexeme(if j < |src| then j + 1 else j, [Token(TStr, src[i..j], ZERO)]);
    }
    if IsDigit(c) {
      var j := Scan(src, i, InNumeral);
      var v := STOF(src[at..j]);
      if v.None? { return BadNumeral; }
      return Lexeme(j, [Token(TNum, src[at..j], v.value)]);
    }
    if IsAlpha(c) {
      var j := Scan(src, i, InWord);
      return Lexeme(j, [Token(TId, src[at..j], ZERO)]);
    }
    l := Lexeme(i, []);
  }

  function After(ts: seq<Token>, rest: Option<seq<Token>>): Option<seq<Token>> {
    if rest.None? then None else Some(ts + rest.value)
  }

  lemma NoneBefore(rest: Option<seq<Token>>)
    ensures After([], rest) == rest
  {
    if rest.Some? { assert [] + rest.value == rest.value; }
  }

  lemma AfterOne(ts: seq<Token>, src: string, i: nat)
    requires i < |src|
    ensures var l := LexOne(src, i);
      After(ts, Lex(src, i)) == if l.BadNumeral? then None else After(ts + l.toks, Lex(src, l.next))
  {
    hide LexOne;
    var l := LexOne(src, i);
    if l.Lexeme? && Lex(src, l.next).Some? {
      var rest := Lex(src, l.next).value;
      assert ts + (l.toks + rest) == (ts + l.toks) + rest;
    }
  }

  // ---- Spelling.

  function SymbolText(k: Tok): string {
    if k == TLP then "(" else if k == TRP then ")" else if k == TLB then "{" else if k == TRB then "}"
    else if k == TSemi then ";" else if k == TEq then "=" else if k == TComma then "," else if k == TTilde then "~"
    else if k == TUnder then "_" else if k == TBang then "!" else if k == TAt then "@" else if k == TMinus then "-"
    else if k == TStar then "*" else if k == TPercent then "%" else if k == TCaret then "^" else if k == TAmp then "&"
    else if k == TPipe then "|" else if k == TDot then "." else if k == TSlash then "/" else if k == TPlus then "+"
    else if k == TColon then ":" else if k == TMerge then ":>" else if k == TSplit then "<:" else if k == TLShift then "<<"
    else ">>"
  }

  function Spell(t: Token): string {
    if t.kind == TId || t.kind == TNum then t.text
    else if t.kind == TStr then "\"" + t.text + "\""
    else SymbolText(t.kind)
  }

  predicate IsWord(s: string) {
    s != "" && IsAlpha(s[0]) && forall i :: 1 <= i < |s| ==> InWord(s[i])
  }

  predicate IsNumeral(s: string) {
    s != "" && IsDigit(s[0]) && forall i :: 1 <= i < |s| ==> InNumeral(s[i])
  }

  predicate Unquoted(s: string) { forall i :: 0 <= i < |s| ==> InString(s[i]) }

  /** The tokens that some text stands for, each in its one spelling. */
  predicate Spellable(t: Token) {
    if t.kind == TId then IsWord(t.text) && t.num == ZERO
    else if t.kind == TNum then IsNumeral(t.text) && STOF(t.text) == Some(t.num)
    else if t.kind == TStr then Unquoted(t.text) && t.num == ZERO
    else t.kind != TEof && t.text == (if t.kind == TMerge then ":>" else "") && t.num == ZERO
  }

  function Render(ts: seq<Token>): string {
    if ts == [] then "" else Spell(ts[0]) + " " + Render(ts[1..])
  }

  // ---- A text is read from the front, token by token.

  lemma SpanIs(src: string, i: nat, j: nat, p: char -> bool)
    requires i <= j <= |src| && (forall k :: i <= k < j ==> p(src[k])) && (j < |src| ==> !p(src[j]))
    ensures Span(src, i, p) == j
  {
  }

  lemma {:induction false} SpanTail(src: string, i: nat, k: nat, p: char -> bool)
    requires i <= k <= |src|
    ensures Span(src, k, p) == i + Span(src[i..], k - i, p)
    decreases |src| - k
  {
    if k < |src| && p(src[k]) {
      assert src[i..][k - i] == src[k];
      SpanTail(src, i, k + 1, p);
    }
  }

  lemma {:induction false} CommentEndTail(src: string, i: nat, k: nat)
    requires i <= k <= |src|
    ensures CommentEnd(src, k) == i + CommentEnd(src[i..], k - i)
    decreases |src| - k
  {
    if k + 1 < |src| {
      assert src[i..][k - i] == src[k] && src[i..][k - i + 1] == src[k + 1];
      CommentEndTail(src, i, k + 1);
    }
  }

  /** A lexeme found further on. */
  function Moved(l: Lexeme, i: nat): Lexeme { if l.Lexeme? then Lexeme(i + l.next, l.toks) else BadNumeral }

  /** What stands somewhere depends only on the text from there on. */
  lemma LexOneTail(src: string, i: nat)
    requires i < |src|
    ensures LexOne(src, i) == Moved(LexOne(src[i..], 0), i)
  {
    hide LexOne, Moved, IsSpace, Single;
    var c, d := src[i], Peek(src, i + 1);
    if IsSpace(c) || (c == '/' && (d == '/' || d == '*')) {
      GapTail(src, i);
    } else if Single(c).Some? || c == '+' || c == ':' || c == '<' || c == '>' {
      SymbolTail(src, i);
    } else {
      TextTail(src, i);
    }
  }

  lemma GapTail(src: string, i: nat)
    requires i < |src|
    requires var c, d := src[i], Peek(src, i + 1); IsSpace(c) || (c == '/' && (d == '/' || d == '*'))
    ensures LexOne(src, i) == Moved(LexOne(src[i..], 0), i)
  {
    hide Span, CommentEnd, Single, IsSpace, IsAlpha, IsDigit;
    assert src[i..][0] == src[i] && Peek(src[i..], 1) == Peek(src, i + 1);
    SpanTail(src, i, i + 1, InLine);
    if i + 1 < |src| { CommentEndTail(src, i, i + 2); }
  }

  lemma SymbolTail(src: string, i: nat)
    requires i < |src|
    requires var c, d := src[i], Peek(src, i + 1);
      !IsSpace(c) && !(c == '/' && (d == '/' || d == '*')) && (Single(c).Some? || c == '+' || c == ':' || c == '<' || c == '>')
    ensures LexOne(src, i) == Moved(LexOne(src[i..], 0), i)
  {
    hide Span, CommentEnd, Single, IsSpace, IsAlpha, IsDigit;
    assert src[i..][0] == src[i] && Peek(src[i..], 1) == Peek(src, i + 1);
  }

  lemma TextTail(src: string, i: nat)
    requires i < |src|
    requires var c, d := src[i], Peek(src, i + 1);
      && !IsSpace(c) && !(c == '/' && (d == '/' || d == '*')) && Single(c).None?
      && c != '+' && c != ':' && c != '<' && c != '>'
    ensures LexOne(src, i) == Moved(LexOne(src[i..], 0), i)
  {
    hide LexOne, Moved, IsAlpha, IsDigit, IsSpace;
    SlashIsSingle();
    var c := src[i];
    if c == '\"' {
      StringTail(src, i);
    } else if IsDigit(c) {
      NumeralTail(src, i);
    } else if IsAlpha(c) {
      WordTail(src, i);
    } else {
      OtherTail(src, i);
    }
  }

  lemma SlashIsSingle()
    ensures Single('/').Some?
  {
  }

  lemma StringTail(src: string, i: nat)
    requires i < |src| && !IsSpace(src[i]) && Single(src[i]).None? && src[i] != '/' && src[i] != '+' && src[i] != ':' && src[i] != '<' && src[i] != '>' && src[i] == '\"'
    ensures LexOne(src, i) == Moved(LexOne(src[i..], 0), i)
  {
    hide Span, CommentEnd, Single, IsSpace, IsAlpha, IsDigit;
    assert src[i..][0] == src[i];
    SpanTail(src, i, i + 1, InString);
    SliceTail(src, i, i + 1, Span(src, i + 1, InString));
  }

  lemma NumeralTail(src: string, i: nat)
    requires i < |src| && !IsSpace(src[i]) && Single(src[i]).None? && src[i] != '/' && src[i] != '+' && src[i] != ':' && src[i] != '<' && src[i] != '>' && src[i] != '\"' && IsDigit(src[i])
    ensures LexOne(src, i) == Moved(LexOne(src[i..], 0), i)
  {
    hide Span, CommentEnd, Single, IsSpace, IsAlpha, IsDigit;
    assert src[i..][0] == src[i];
    SpanTail(src, i, i + 1, InNumeral);
    SliceTail(src, i, i, Span(src, i + 1, InNumeral));
  }

  lemma WordTail(src: string, i: nat)
    requires i < |src| && !IsSpace(src[i]) && Single(src[i]).None? && src[i] != '/' && src[i] != '+' && src[i] != ':' && src[i] != '<' && src[i] != '>' && src[i] != '\"' && !IsDigit(src[i]) && IsAlpha(src[i])
    ensures LexOne(src, i) == Moved(LexOne(src[i..], 0), i)
  {
    hide Span, CommentEnd, Single, IsSpace, IsAlpha, IsDigit;
    assert src[i..][0] == src[i];
    SpanTail(src, i, i + 1, InWord);
    SliceTail(src, i, i, Span(src, i + 1, InWord));
  }

  lemma OtherTail(src: string, i: nat)
    requires i < |src| && !IsSpace(src[i]) && Single(src[i]).None? && src[i] != '/' && src[i] != '+' && src[i] != ':' && src[i] != '<' && src[i] != '>' && src[i] != '\"' && !IsDigit(src[i]) && !IsAlpha(src[i])
    ensures LexOne(src, i) == Moved(LexOne(src[i..], 0), i)
  {
    hide Span, CommentEnd, Single, IsSpace, IsAlpha, IsDigit;
    assert src[i..][0] == src[i];
  }

  lemma SliceTail(src: string, i: nat, a: nat, b: nat)
    requires i <= a <= b <= |src|
    ensures src[a..b] == src[i..][a - i..b - i]
  {
  }

  lemma {:induction false} LexTail(src: string, i: nat)
    requires i <= |src|
    ensures Lex(src, i) == Lex(src[i..], 0)
    decreases |src| - i, i
  {
    hide LexOne;
    if 0 < i < |src| {
      LexOneTail(src, i);
      var l := LexOne(src, i);
      if l.Lexeme? {
        LexTail(src, l.next);
        LexTail(src[i..], l.next - i);
        assert src[i..][l.next - i..] == src[l.next..];
      }
    } else if i == 0 {
      assert src[0..] == src;
    }
  }

  /** Nothing at the front of the rest would be read as part of the token. */
  predicate Apart(t: Token, rest: string) {
    rest == "" ||
    var d := rest[0];
    && (t.kind == TId ==> !InWord(d)) && (t.kind == TNum ==> !InNumeral(d))
    && (t.kind == TSlash ==> d != '/' && d != '*') && (t.kind == TPlus || t.kind == TColon ==> d != '>')
  }

  lemma FrontWord(s: string, rest: string)
    requires IsWord(s) && (rest == "" || !InWord(rest[0]))
    ensures LexOne(s + rest, 0) == Lexeme(|s|, [Token(TId, s, ZERO)])
  {
    var src := s + rest;
    assert forall k :: 0 <= k < |s| ==> src[k] == s[k];
    assert rest != "" ==> src[|s|] == rest[0];
    SpanIs(src, 1, |s|, InWord);
    assert src[0..|s|] == s;
  }

  lemma FrontNumeral(s: string, rest: string, v: Sample)
    requires IsNumeral(s) && STOF(s) == Some(v) && (rest == "" || !InNumeral(rest[0]))
    ensures LexOne(s + rest, 0) == Lexeme(|s|, [Token(TNum, s, v)])
  {
    var src := s + rest;
    assert forall k :: 0 <= k < |s| ==> src[k] == s[k];
    assert rest != "" ==> src[|s|] == rest[0];
    SpanIs(src, 1, |s|, InNumeral);
    assert src[0..|s|] == s;
  }

  lemma FrontString(s: string, rest: string)
    requires Unquoted(s)
    ensures LexOne("\"" + s + "\"" + rest, 0) == Lexeme(|s| + 2, [Token(TStr, s, ZERO)])
  {
    var src := "\"" + s + "\"" + rest;
    assert forall k :: 1 <= k < 1 + |s| ==> src[k] == s[k - 1];
    assert src[0] == '\"' && src[|s| + 1] == '\"';
    SpanIs(src, 1, 1 + |s|, InString);
    assert src[1..1 + |s|] == s;
  }

  /** The symbols whose first character may begin another. */
  predicate Compound(k: Tok) {
    k == TPlus || k == TColon || k == TMerge || k == TSplit || k == TLShift || k == TRShift
  }

  predicate IsSymbol(k: Tok) { k != TId && k != TNum && k != TStr && k != TEof }

  lemma SymbolLetters(k: Tok)
    requires IsSymbol(k)
    ensures !Compound(k) ==> |SymbolText(k)| == 1 && Single(SymbolText(k)[0]) == Some(k) && !IsSpace(SymbolText(k)[0])
    ensures !Compound(k) ==> (SymbolText(k)[0] == '/' <==> k == TSlash)
    ensures Compound(k) ==> 1 <= |SymbolText(k)| <= 2
  {
  }

  lemma FrontLone(src: string, k: Tok)
    requires src != "" && Single(src[0]) == Some(k) && !IsSpace(src[0])
    requires src[0] == '/' && |src| > 1 ==> src[1] != '/' && src[1] != '*'
    ensures LexOne(src, 0) == Plain(1, k)
  {
    hide Span, CommentEnd, IsAlpha, IsDigit, IsSpace, Single;
  }

  lemma FrontCompound(src: string, k: Tok)
    requires Compound(k) && SymbolText(k) <= src
    requires (k == TPlus || k == TColon) && |src| > 1 ==> src[1] != '>'
    ensures LexOne(src, 0) == Lexeme(|SymbolText(k)|, [Token(k, if k == TMerge then ":>" else "", ZERO)])
  {
    hide Span, CommentEnd, IsAlpha, IsDigit;
  }

  lemma FrontSymbol(k: Tok, rest: string)
    requires IsSymbol(k) && Apart(Token(k, "", ZERO), rest)
    ensures SymbolText(k) != ""
    ensures LexOne(SymbolText(k) + rest, 0) == Lexeme(|SymbolText(k)|, [Token(k, if k == TMerge then ":>" else "", ZERO)])
  {
    hide LexOne, Single, IsSpace, InWord, InNumeral;
    var s, src := SymbolText(k), SymbolText(k) + rest;
    SymbolLetters(k);
    assert rest != "" ==> src[|s|] == rest[0];
    if Compound(k) {
      LoneOnes();
      FrontCompound(src, k);
    } else {
      hide SymbolText;
      assert src[0] == s[0];
      FrontLone(src, k);
    }
  }

  lemma LoneOnes()
    ensures |SymbolText(TPlus)| == 1 && |SymbolText(TColon)| == 1
  {
  }

  lemma Front(t: Token, rest: string)
    requires Spellable(t) && Apart(t, rest)
    ensures Spell(t) != "" && LexOne(Spell(t) + rest, 0) == Lexeme(|Spell(t)|, [t])
  {
    hide LexOne, SymbolText;
    if t.kind == TId {
      FrontWord(t.text, rest);
    } else if t.kind == TNum {
      FrontNumeral(t.text, rest, t.num);
    } else if t.kind == TStr {
      FrontString(t.text, rest);
    } else {
      FrontSymbol(t.kind, rest);
    }
  }

  /** A token at the front of a text is read, whatever follows that is no part of it, and then the rest of the text. */
  lemma {:induction false} TokenFirst(t: Token, rest: string)
    requires Spellable(t) && Apart(t, rest)
    ensures Lex(Spell(t) + rest, 0) == After([t], Lex(rest, 0))
  {
    hide LexOne, Spell, Spellable, Apart;
    Front(t, rest);
    var src := Spell(t) + rest;
    LexTail(src, |Spell(t)|);
    assert src[|Spell(t)|..] == rest;
  }

  /** Blanks are skipped. */
  lemma {:induction false} BlankFirst(b: char, rest: string)
    requires b == ' ' || b == '\t' || b == '\n' || b == '\U{0B}' || b == '\U{0C}' || b == '\r'
    ensures Lex([b] + rest, 0) == Lex(rest, 0)
  {
    hide LexOne;
    var src := [b] + rest;
    BlankOne(src);
    LexTail(src, 1);
    assert src[1..] == rest;
    SkipNothing(src);
  }

  lemma BlankOne(src: string)
    requires src != "" && IsSpace(src[0])
    ensures LexOne(src, 0) == Lexeme(1, [])
  {
  }

  /** A lexeme without tokens adds none. */
  lemma SkipNothing(src: string)
    requires src != "" && LexOne(src, 0).Lexeme? && LexOne(src, 0).toks == []
    ensures Lex(src, 0) == Lex(src, LexOne(src, 0).next)
  {
    hide LexOne;
    NoneBefore(Lex(src, LexOne(src, 0).next));
  }

  /** A line comment is skipped, and ends with its line. */
  lemma {:induction false} LineCommentFirst(c: string, rest: string)
    requires forall i :: 0 <= i < |c| ==> c[i] != '\n'
    ensures Lex("//" + c + "\n" + rest, 0) == Lex(rest, 0)
    ensures Lex("//" + c, 0) == Some([EOF])
  {
    hide LexOne;
    var src, tail := "//" + c + "\n" + rest, "\n" + rest;
    LineCommentOne(c, tail);
    assert src == "//" + c + tail && src[2 + |c|..] == tail;
    SkipNothing(src);
    LexTail(src, 2 + |c|);
    BlankFirst('\n', rest);
    LineCommentOne(c, "");
    assert "//" + c + "" == "//" + c;
    SkipNothing("//" + c);
    LexEnd("//" + c);
  }

  lemma LineCommentOne(c: string, tail: string)
    requires forall i :: 0 <= i < |c| ==> c[i] != '\n'
    requires tail == "" || tail[0] == '\n'
    ensures LexOne("//" + c + tail, 0) == Lexeme(2 + |c|, [])
  {
    var src := "//" + c + tail;
    assert src[0] == '/' && src[1] == '/' && (forall k :: 2 <= k < 2 + |c| ==> src[k] == c[k - 2]);
    assert tail != "" ==> src[2 + |c|] == tail[0];
    SpanIs(src, 1, 2 + |c|, InLine);
  }

  /** A block comment is skipped, and ends with the first end mark. */
  lemma {:induction false} BlockCommentFirst(c: string, rest: string)
    requires forall i :: 0 <= i < |c| - 1 ==> !(c[i] == '*' && c[i + 1] == '/')
    ensures Lex("/*" + c + "*/" + rest, 0) == Lex(rest, 0)
  {
    hide LexOne;
    var src := "/*" + c + "*/" + rest;
    BlockCommentOne(c, rest);
    SkipNothing(src);
    LexTail(src, 4 + |c|);
    assert src[4 + |c|..] == rest;
  }

  lemma BlockCommentOne(c: string, rest: string)
    requires forall i :: 0 <= i < |c| - 1 ==> !(c[i] == '*' && c[i + 1] == '/')
    ensures LexOne("/*" + c + "*/" + rest, 0) == Lexeme(4 + |c|, [])
  {
    var src := "/*" + c + "*/" + rest;
    assert src[0] == '/' && src[1] == '*' && (forall k :: 2 <= k < 2 + |c| ==> src[k] == c[k - 2]);
    assert src[2 + |c|] == '*' && src[3 + |c|] == '/';
    CommentEndIs(src, 2, 2 + |c|);
  }

  lemma {:induction false} CommentEndIs(src: string, i: nat, j: nat)
    requires i <= j && j + 1 < |src| && ClosesComment(src, j) && forall k :: i <= k < j ==> !ClosesComment(src, k)
    ensures CommentEnd(src, i) == j
    decreases j - i
  {
    if i < j { CommentEndIs(src, i + 1, j); }
  }

  /** A block comment that is never closed ends one short of the text's end: its last character is read again. */
  lemma {:induction false} UnclosedComment(c: string, last: char)
    requires forall i :: 0 <= i < |c| ==> !(c[i] == '*' && (c + [last])[i + 1] == '/')
    ensures Lex("/*" + c + [last], 0) == Lex([last], 0)
  {
    hide LexOne;
    var src := "/*" + c + [last];
    UnclosedOne(c, last);
    SkipNothing(src);
    LexTail(src, 2 + |c|);
    assert src[2 + |c|..] == [last];
  }

  lemma UnclosedOne(c: string, last: char)
    requires forall i :: 0 <= i < |c| ==> !(c[i] == '*' && (c + [last])[i + 1] == '/')
    ensures LexOne("/*" + c + [last], 0) == Lexeme(2 + |c|, [])
  {
    var src := "/*" + c + [last];
    assert src[0] == '/' && src[1] == '*' && (forall k :: 2 <= k < 3 + |c| ==> src[k] == (c + [last])[k - 2]);
    NoCommentEnd(src, 2);
  }

  lemma {:induction false} NoCommentEnd(src: string, i: nat)
    requires i < |src| && forall k :: i <= k < |src| ==> !ClosesComment(src, k)
    ensures CommentEnd(src, i) == |src| - 1
    decreases |src| - i
  {
    if i + 1 < |src| { NoCommentEnd(src, i + 1); }
  }

  /** Tokens written out, each with a space after it, are read back, and then the rest of the text. */
  lemma {:induction false} RenderedFirst(ts: seq<Token>, rest: string)
    requires forall k :: 0 <= k < |ts| ==> Spellable(ts[k])
    ensures Lex(Render(ts) + rest, 0) == After(ts, Lex(rest, 0))
    decreases |ts|
  {
    hide Lex, Spell, Spellable;
    if ts == [] {
      assert Render(ts) + rest == rest;
      NoneBefore(Lex(rest, 0));
    } else {
      var more := Render(ts[1..]) + rest;
      assert Render(ts) + rest == Spell(ts[0]) + ([' '] + more);
      SpaceApart(ts[0], more);
      TokenFirst(ts[0], [' '] + more);
      BlankFirst(' ', more);
      RenderedFirst(ts[1..], rest);
      if Lex(rest, 0).Some? {
        var v := Lex(rest, 0).value;
        assert [ts[0]] + (ts[1..] + v) == ts + v;
      }
    }
  }

  lemma SpaceApart(t: Token, more: string)
    ensures Apart(t, [' '] + more)
  {
  }

  lemma LexEnd(src: string)
    ensures Lex(src, |src|) == Some([EOF])
  {
  }

  /** Reading what was written gives the tokens back. */
  lemma {:induction false} RenderThenLex(ts: seq<Token>)
    requires forall k :: 0 <= k < |ts| ==> Spellable(ts[k])
    ensures Lex(Render(ts), 0) == Some(ts + [EOF])
  {
    RenderedFirst(ts, "");
    assert Render(ts) + "" == Render(ts);
    LexEnd("");
  }

  /** Among tokens, comments and blanks change nothing. */
  lemma {:induction false} CommentsIgnored(ts: seq<Token>, c: string, b: char, rest: string)
    requires forall k :: 0 <= k < |ts| ==> Spellable(ts[k])
    ensures (forall i :: 0 <= i < |c| ==> c[i] != '\n') ==>
      Lex(Render(ts) + ("//" + c + "\n" + rest), 0) == if Lex(rest, 0).None? then None else Some(ts + Lex(rest, 0).value)
    ensures (forall i :: 0 <= i < |c| - 1 ==> !(c[i] == '*' && c[i + 1] == '/')) ==>
      Lex(Render(ts) + ("/*" + c + "*/" + rest), 0) == if Lex(rest, 0).None? then None else Some(ts + Lex(rest, 0).value)
    ensures b == ' ' || b == '\t' || b == '\n' || b == '\U{0B}' || b == '\U{0C}' || b == '\r' ==>
      Lex(Render(ts) + ([b] + rest), 0) == if Lex(rest, 0).None? then None else Some(ts + Lex(rest, 0).value)
  {
    hide Lex, Render, Spellable;
    if forall i :: 0 <= i < |c| ==> c[i] != '\n' {
      RenderedFirst(ts, "//" + c + "\n" + rest);
      LineCommentFirst(c, rest);
    }
    if forall i :: 0 <= i < |c| - 1 ==> !(c[i] == '*' && c[i + 1] == '/') {
      RenderedFirst(ts, "/*" + c + "*/" + rest);
      BlockCommentFirst(c, rest);
    }
    if b == ' ' || b == '\t' || b == '\n' || b == '\U{0B}' || b == '\U{0C}' || b == '\r' {
      RenderedFirst(ts, [b] + rest);
      BlankFirst(b, rest);
    }
  }

  // ---- What can be spelled, and how.

  /** The characters of blanks, numerals, words and strings. */
  lemma CharacterClasses(c: char)
    ensures IsSpace(c) <==> c == ' ' || c == '\t' || c == '\n' || c == '\U{0B}' || c == '\U{0C}' || c == '\r'
    ensures IsDigit(c) <==> '0' <= c <= '9'
    ensures InNumeral(c) <==> '0' <= c <= '9' || c == '.' || c == 'e' || c == 'E'
    ensures IsAlpha(c) <==> 'a' <= c <= 'z' || 'A' <= c <= 'Z'
    ensures InWord(c) <==> 'a' <= c <= 'z' || 'A' <= c <= 'Z' || '0' <= c <= '9' || c == '_' || c == '\''
    ensures InString(c) <==> c != '\"'
  {
  }

  /** The words, numerals and strings; a word or a numeral starts with a letter or a digit. */
  lemma {:induction false} TextClasses(s: string)
    ensures IsWord(s) <==> s != "" && IsAlpha(s[0]) && forall i :: 0 <= i < |s| ==> InWord(s[i])
    ensures IsNumeral(s) <==> s != "" && IsDigit(s[0]) && forall i :: 0 <= i < |s| ==> InNumeral(s[i])
    ensures Spellable(Token(TId, s, ZERO)) <==> IsWord(s)
    ensures Spellable(Token(TStr, s, ZERO)) <==> forall i :: 0 <= i < |s| ==> s[i] != '\"'
    ensures forall v :: Spellable(Token(TNum, s, v)) <==> IsNumeral(s) && STOF(s) == Some(v)
    ensures Spell(Token(TId, s, ZERO)) == s && Spell(Token(TStr, s, ZERO)) == "\"" + s + "\""
    ensures forall v :: Spell(Token(TNum, s, v)) == s
  {
  }

  /** The symbols: brackets and separators, */
  lemma BracketSpellings()
    ensures SymbolText(TLP) == "(" && SymbolText(TRP) == ")" && SymbolText(TLB) == "{"
    ensures SymbolText(TRB) == "}" && SymbolText(TSemi) == ";" && SymbolText(TEq) == "="
    ensures SymbolText(TDot) == "."
  {
  }

  /** combinators, */
  lemma CombinatorSpellings()
    ensures SymbolText(TComma) == "," && SymbolText(TTilde) == "~" && SymbolText(TColon) == ":"
    ensures SymbolText(TMerge) == ":>" && SymbolText(TSplit) == "<:"
  {
  }

  /** the one-character primitives, */
  lemma PlainSpellings()
    ensures SymbolText(TUnder) == "_" && SymbolText(TBang) == "!" && SymbolText(TAt) == "@"
    ensures SymbolText(TMinus) == "-" && SymbolText(TPlus) == "+"
  {
  }

  /** arithmetic, */
  lemma ArithmeticSpellings()
    ensures SymbolText(TStar) == "*" && SymbolText(TPercent) == "%" && SymbolText(TCaret) == "^"
    ensures SymbolText(TSlash) == "/"
  {
  }

  /** and bits. */
  lemma BitSpellings()
    ensures SymbolText(TAmp) == "&" && SymbolText(TPipe) == "|" && SymbolText(TLShift) == "<<"
    ensures SymbolText(TRShift) == ">>"
  {
  }

  /** Symbols are spelled so, without text of their own but for the merge. */
  lemma SymbolTokens(k: Tok)
    requires k != TId && k != TNum && k != TStr && k != TEof
    ensures Spellable(Token(k, if k == TMerge then ":>" else "", ZERO))
    ensures forall s, v :: Spell(Token(k, s, v)) == SymbolText(k)
  {
    hide SymbolText;
  }

  /** The only characters that a token takes in: more of a word or numeral, a comment mark, or the second half of `+>` and `:>`. */
  lemma JoinsOnly(t: Token, d: char, rest: string)
    ensures Apart(t, "")
    ensures Apart(t, [d] + rest) <==>
      !(t.kind == TId && InWord(d)) && !(t.kind == TNum && InNumeral(d)) &&
      !(t.kind == TSlash && (d == '/' || d == '*')) && !((t.kind == TPlus || t.kind == TColon) && d == '>')
  {
  }

  // ---- Texts that no spelling covers.

  /** The other spelling of a merge. */
  lemma {:induction false} PlusMerge(rest: string)
    ensures Lex("+>" + rest, 0) == After([Token(TMerge, "+>", ZERO)], Lex(rest, 0))
  {
    hide Span, CommentEnd;
    var src := "+>" + rest;
    LexTail(src, 2);
    assert src[2..] == rest;
  }

  /** A numeral that the library cannot convert ends the reading. */
  lemma {:induction false} BadNumeralFails(s: string, rest: string)
    requires IsNumeral(s) && STOF(s).None? && (rest == "" || !InNumeral(rest[0]))
    ensures Lex(s + rest, 0) == None
  {
    var src := s + rest;
    assert forall k :: 0 <= k < |s| ==> src[k] == s[k];
    assert rest != "" ==> src[|s|] == rest[0];
    SpanIs(src, 1, |s|, InNumeral);
    assert src[0..|s|] == s;
  }

  /** A string that is never closed runs to the end of the text. */
  lemma {:induction false} UnclosedString(s: string)
    requires forall i :: 0 <= i < |s| ==> s[i] != '\"'
    ensures Lex("\"" + s, 0) == Some([Token(TStr, s, ZERO), EOF])
  {
    hide LexOne;
    var src := "\"" + s;
    assert forall k :: 1 <= k < |src| ==> src[k] == s[k - 1];
    SpanIs(src, 1, |src|, InString);
    assert src[1..|src|] == s;
    UnclosedStringOne(src, s);
    LexEnd(src);
    assert [Token(TStr, s, ZERO)] + [EOF] == [Token(TStr, s, ZERO), EOF];
  }

  lemma UnclosedStringOne(src: string, s: string)
    requires src == "\"" + s && Span(src, 1, InString) == |src| && src[1..|src|] == s
    ensures LexOne(src, 0) == Lexeme(|src|, [Token(TStr, s, ZERO)])
  {
    hide Span, CommentEnd;
  }

  /** A character that starts nothing is skipped, as is an angle bracket on its own. */
  lemma {:induction false} StrayFirst(c: char, rest: string)
    requires c == '#' || c == '$' || c == '?' || c == '[' || c == ']' || c == '\\' || c == '`' || c == '\'' ||
      (c == '<' && (rest == "" || (rest[0] != ':' && rest[0] != '<'))) || (c == '>' && (rest == "" || rest[0] != '>'))
    ensures Lex([c] + rest, 0) == Lex(rest, 0)
  {
    hide LexOne;
    var src := [c] + rest;
    StrayOne(src);
    LexTail(src, 1);
    assert src[1..] == rest;
    SkipNothing(src);
  }

  lemma StrayOne(src: string)
    requires src != "" && (var c := src[0];
      c == '#' || c == '$' || c == '?' || c == '[' || c == ']' || c == '\\' || c == '`' || c == '\'' ||
      (c == '<' && (|src| == 1 || (src[1] != ':' && src[1] != '<'))) || (c == '>' && (|src| == 1 || src[1] != '>')))
    ensures LexOne(src, 0) == Lexeme(1, [])
  {
    hide Span, CommentEnd;
  }

  // ---- Where the tokenizer departs from the language it reads.

  /** A sign inside a numeral ends it: a negative exponent is read as a subtraction. */
  lemma SignEndsNumeral(s: string, n: nat)
    requires 0 < n < |s| && IsNumeral(s[..n]) && s[n] == '-'
    ensures LexOne(s, 0) ==
      if STOF(s[..n]).Some? then Lexeme(n, [Token(TNum, s[..n], STOF(s[..n]).value)]) else BadNumeral
    ensures LexOne(s, n) == Plain(n + 1, TMinus)
  {
    forall k | 1 <= k < n ensures InNumeral(s[k]) {
      assert s[..n][k] == s[k];
    }
    assert s[..n][0] == s[0];
    SpanIs(s, 1, n, InNumeral);
    assert s[0..n] == s[..n];
  }

  /** A name does not start with an underscore: the underscore is a wire, whatever follows. */
  lemma UnderscoreIsWire(s: string)
    requires s != [] && s[0] == '_'
    ensures LexOne(s, 0) == Plain(1, TUnder)
  {
    hide Span, CommentEnd;
  }
}
