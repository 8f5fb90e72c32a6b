/**
 Layout: tokens written with any blanks and comments around them, or with nothing
 between them where none joins the next, are one text.
 */
module Layouts {
  import opened Wrappers
  import opened Samples
  import opened Syntax
  import opened Lexing
  import opened Programs

  /** A stretch of text that stands for nothing, whatever follows it. */
  ghost predicate Silent(gap: string) { forall rest: string :: Lex(gap + rest, 0) == Lex(rest, 0) }

  /** Each token, and the gap after it. */
  function Weave(ts: seq<Token>, gaps: seq<string>): string
    requires |ts| == |gaps|
  {
    if ts == [] then "" else Spell(ts[0]) + gaps[0] + Weave(ts[1..], gaps[1..])
  }

  /** The gaps are silent, and no token takes in what follows it. */
  ghost predicate Woven(ts: seq<Token>, gaps: seq<string>)
    requires |ts| == |gaps|
  {
    ts == [] ||
    (Spellable(ts[0]) && Silent(gaps[0]) && Apart(ts[0], gaps[0] + Weave(ts[1..], gaps[1..])) && Woven(ts[1..], gaps[1..]))
  }

  /** Nothing, blanks, a line comment with its line end, a block comment, and these in sequence are silent. */
  lemma {:induction false} SilentGaps(b: char, c: string, g: string, h: string)
    ensures Silent("")
    ensures b == ' ' || b == '\t' || b == '\n' || b == '\U{0B}' || b == '\U{0C}' || b == '\r' ==> Silent([b])
    ensures (forall i :: 0 <= i < |c| ==> c[i] != '\n') ==> Silent("//" + c + "\n")
    ensures (forall i :: 0 <= i < |c| - 1 ==> !(c[i] == '*' && c[i + 1] == '/')) ==> Silent("/*" + c + "*/")
    ensures Silent(g) && Silent(h) ==> Silent(g + h)
  {
    hide Lex;
    forall rest: string ensures Lex("" + rest, 0) == Lex(rest, 0) { assert "" + rest == rest; }
    if b == ' ' || b == '\t' || b == '\n' || b == '\U{0B}' || b == '\U{0C}' || b == '\r' {
      forall rest: string ensures Lex([b] + rest, 0) == Lex(rest, 0) { BlankFirst(b, rest); }
    }
    if forall i :: 0 <= i < |c| ==> c[i] != '\n' {
      forall rest: string ensures Lex("//" + c + "\n" + rest, 0) == Lex(rest, 0) { LineCommentFirst(c, rest); }
    }
    if forall i :: 0 <= i < |c| - 1 ==> !(c[i] == '*' && c[i + 1] == '/') {
      forall rest: string ensures Lex("/*" + c + "*/" + rest, 0) == Lex(rest, 0) { BlockCommentFirst(c, rest); }
    }
    if Silent(g) && Silent(h) {
      forall rest: string ensures Lex(g + h + rest, 0) == Lex(rest, 0) { assert g + h + rest == g + (h + rest); }
    }
  }

  /** Tokens in any layout are read back. */
  lemma {:induction false} WeaveBack(lead: string, ts: seq<Token>, gaps: seq<string>)
    requires |ts| == |gaps| && Silent(lead) && Woven(ts, gaps)
    ensures Lex(lead + Weave(ts, gaps), 0) == Some(ts + [EOF])
    decreases |ts|
  {
    hide Lex, Apart, Spellable;
    if ts == [] {
      LexEnd("");
      assert Weave(ts, gaps) == "" && Lex(lead + "", 0) == Lex("", 0);
      assert ts + [EOF] == [EOF];
    } else {
      var more := Weave(ts[1..], gaps[1..]);
      WeaveBack(gaps[0], ts[1..], gaps[1..]);
      TokenFirst(ts[0], gaps[0] + more);
      assert Weave(ts, gaps) == Spell(ts[0]) + (gaps[0] + more);
      assert [ts[0]] + (ts[1..] + [EOF]) == ts + [EOF];
    }
  }

  /** So a program means the same in every layout. */
  lemma {:induction false} LayoutIsFree(lead: string, ds: seq<Def>, gaps: seq<string>)
    requires ProperDefs(ds) && |WriteDefs(ds)| == |gaps| && Silent(lead) && Woven(WriteDefs(ds), gaps)
    ensures IsTextOf(lead + Weave(WriteDefs(ds), gaps), ds)
    ensures ParseText(lead + Weave(WriteDefs(ds), gaps)) == Some(DefineAll(START, ds))
  {
    hide Lex, WriteDefs, DefineAll, ParseText, Woven, Weave;
    WeaveBack(lead, WriteDefs(ds), gaps);
    TextBack(lead + Weave(WriteDefs(ds), gaps), ds);
  }
}
