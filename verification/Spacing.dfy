/** Tokens, the trivia in front of them, and the functions that rewrite it. */
module Spacing {

  datatype TriviaKind = Whitespace | EndOfLine | Comment

  datatype Trivia = Trivia(kind: TriviaKind, text: string)

  datatype Token = Token(trivia: seq<Trivia>, text: string)

  // ---------------------------------------------------------------- printing

  function RenderTrivia(trivia: seq<Trivia>): string {
    if trivia == [] then "" else trivia[0].text + RenderTrivia(trivia[1..])
  }

  function Render(tok: Token): string {
    RenderTrivia(tok.trivia) + tok.text
  }

  function RenderAll(toks: seq<Token>): string {
    if toks == [] then "" else Render(toks[0]) + RenderAll(toks[1..])
  }

  /** The column reached after printing a text from a given column. */
  function Column(start: nat, s: string): nat
    decreases |s|
  {
    if s == "" then start
    else Column(if s[0] == '\n' then 0 else start + 1, s[1..])
  }

  predicate OneLine(s: string) {
    forall i :: 0 <= i < |s| ==> s[i] != '\n'
  }

  lemma {:induction false} ColumnAppend(start: nat, a: string, b: string)
    ensures Column(start, a + b) == Column(Column(start, a), b)
    decreases |a|
  {
    if a == "" {
      assert a + b == b;
    } else {
      assert (a + b)[0] == a[0] && (a + b)[1..] == a[1..] + b;
      ColumnAppend(if a[0] == '\n' then 0 else start + 1, a[1..], b);
    }
  }

  lemma {:induction false} ColumnOneLine(start: nat, s: string)
    requires OneLine(s)
    ensures Column(start, s) == start + |s|
    decreases |s|
  {
    if s != "" {
      ColumnOneLine(start + 1, s[1..]);
    }
  }

  lemma {:induction false} RenderTriviaAppend(a: seq<Trivia>, b: seq<Trivia>)
    ensures RenderTrivia(a + b) == RenderTrivia(a) + RenderTrivia(b)
  {
    if a == [] {
      assert a + b == b;
    } else {
      assert (a + b)[0] == a[0] && (a + b)[1..] == a[1..] + b;
      RenderTriviaAppend(a[1..], b);
    }
  }

  lemma {:induction false} RenderAllAppend(a: seq<Token>, b: seq<Token>)
    ensures RenderAll(a + b) == RenderAll(a) + RenderAll(b)
  {
    if a == [] {
      assert a + b == b;
    } else {
      assert (a + b)[0] == a[0] && (a + b)[1..] == a[1..] + b;
      RenderAllAppend(a[1..], b);
    }
  }

  // ----------------------------------------------------------------- spacing

  function Repeat(c: char, n: nat): (s: string)
    ensures |s| == n && forall i :: 0 <= i < n ==> s[i] == c
  {
    seq(n, _ => c)
  }

  function ReplaceSpacing(tok: Token, spaces: nat): Token {
    Token(if spaces == 0 then [] else [Trivia(Whitespace, Repeat(' ', spaces))], tok.text)
  }

  lemma RenderSpaced(tok: Token, spaces: nat)
    ensures Render(ReplaceSpacing(tok, spaces)) == Repeat(' ', spaces) + tok.text
  {
    if spaces == 0 {
      assert Repeat(' ', 0) == "" && "" + tok.text == tok.text;
    } else {
      RenderOne(Trivia(Whitespace, Repeat(' ', spaces)));
    }
  }

  lemma RenderOne(t: Trivia)
    ensures RenderTrivia([t]) == t.text
  {
    assert [t][1..] == [] && t.text + "" == t.text;
  }

  function TokenAlignRight(tok: Token, alignSize: nat, allowNoSpace: bool): Token {
    ReplaceSpacing(tok, if alignSize > |tok.text| then alignSize - |tok.text| else if allowNoSpace then 0 else 1)
  }

  // ------------------------------------------------------------- indentation

  const NEWLINE := Trivia(EndOfLine, "\n")

  /** The trivia kept by indent from a list, given its two flags, and what it appends at the end. */
  function Kept(trivia: seq<Trivia>, ind: Trivia, skipping: bool, clean: bool): seq<Trivia>
    decreases |trivia|
  {
    if trivia == [] then if clean then [] else [NEWLINE, ind]
    else
      var t := trivia[0];
      match t.kind
      case Whitespace => (if skipping then [] else [t]) + Kept(trivia[1..], ind, skipping, clean)
      case EndOfLine => [t, ind] + Kept(trivia[1..], ind, true, true)
      case Comment => [t] + Kept(trivia[1..], ind, false, false)
  }

  /** The blanks at the start of an indented line. */
  function Indentation(lead: string, extra: nat): (t: Trivia)
    ensures t.kind == Whitespace && |t.text| == |lead| + extra
    ensures t.text[..|lead|] == lead && forall i :: |lead| <= i < |t.text| ==> t.text[i] == ' '
    ensures OneLine(lead) ==> OneLine(t.text)
  {
    Trivia(Whitespace, lead + Repeat(' ', extra))
  }

  function Indented(tok: Token, ind: Trivia): Token {
    Token(Kept(tok.trivia, ind, false, false), tok.text)
  }

  /** The trivia that are not blanks. */
  function Visible(trivia: seq<Trivia>): seq<Trivia> {
    if trivia == [] then []
    else (if trivia[0].kind == Whitespace then [] else [trivia[0]]) + Visible(trivia[1..])
  }

  /** A fresh line in front of a list, in terms of the list. */
  lemma FreshLine(eol: Trivia, ind: Trivia, k: seq<Trivia>)
    requires eol.kind == EndOfLine && ind.kind == Whitespace
    ensures forall s, c :: Kept([eol, ind] + k, ind, s, c) == [eol, ind] + Kept(k, ind, true, true)
    ensures Visible([eol, ind] + k) == [eol] + Visible(k)
    ensures RenderTrivia([eol, ind] + k) == eol.text + (ind.text + RenderTrivia(k))
  {
    var l := [eol, ind] + k;
    assert l[1..] == [ind] + k && ([ind] + k)[1..] == k;
    assert [] + Kept(k, ind, true, true) == Kept(k, ind, true, true);
    assert [] + Visible(k) == Visible(k);
  }

  /** Any other trivia in front of a list. */
  lemma InFront(t: Trivia, ind: Trivia, k: seq<Trivia>)
    ensures t.kind == Whitespace ==>
      Kept([t] + k, ind, false, false) == [t] + Kept(k, ind, false, false) && Visible([t] + k) == Visible(k)
    ensures t.kind == Comment ==>
      && (forall s, c :: Kept([t] + k, ind, s, c) == [t] + Kept(k, ind, false, false))
      && Visible([t] + k) == [t] + Visible(k)
    ensures RenderTrivia([t] + k) == t.text + RenderTrivia(k)
  {
    assert ([t] + k)[1..] == k;
    assert [] + Visible(k) == Visible(k);
  }

  lemma Regroup(t: Trivia, a: seq<Trivia>, b: seq<Trivia>)
    ensures ([t] + a) + b == [t] + (a + b)
  {
  }

  lemma NoTrivia(k: seq<Trivia>)
    ensures [] + k == k
  {
  }

  lemma {:induction false} KeptTwice(trivia: seq<Trivia>, ind: Trivia, skipping: bool, clean: bool)
    requires ind.kind == Whitespace && (clean ==> skipping)
    ensures Kept(Kept(trivia, ind, skipping, clean), ind, skipping, clean) == Kept(trivia, ind, skipping, clean)
    decreases |trivia|
  {
    if trivia == [] {
      FreshLine(NEWLINE, ind, []);
      assert [NEWLINE, ind] + [] == [NEWLINE, ind];
    } else {
      var t, rest := trivia[0], trivia[1..];
      match t.kind {
        case Whitespace =>
          KeptTwice(rest, ind, skipping, clean);
          NoTrivia(Kept(rest, ind, skipping, clean));
          InFront(t, ind, Kept(rest, ind, skipping, clean));
        case EndOfLine =>
          KeptTwice(rest, ind, true, true);
          FreshLine(t, ind, Kept(rest, ind, true, true));
        case Comment =>
          KeptTwice(rest, ind, false, false);
          InFront(t, ind, Kept(rest, ind, false, false));
      }
    }
  }

  /** Indenting an indented token changes nothing. */
  lemma IndentIdempotent(tok: Token, ind: Trivia)
    requires ind.kind == Whitespace
    ensures Indented(Indented(tok, ind), ind) == Indented(tok, ind)
  {
    KeptTwice(tok.trivia, ind, false, false);
  }

  /** The line is fresh at the end of the trivia: an end of line, then blanks only. */
  predicate EndsFresh(trivia: seq<Trivia>, clean: bool) {
    if trivia == [] then clean
    else EndsFresh(trivia[1..], if trivia[0].kind == Whitespace then clean else trivia[0].kind == EndOfLine)
  }

  lemma {:induction false} KeptVisible(trivia: seq<Trivia>, ind: Trivia, skipping: bool, clean: bool)
    requires ind.kind == Whitespace
    ensures Visible(Kept(trivia, ind, skipping, clean))
         == Visible(trivia) + (if EndsFresh(trivia, clean) then [] else [NEWLINE])
    decreases |trivia|
  {
    if trivia == [] {
      FreshLine(NEWLINE, ind, []);
      assert [NEWLINE, ind] + [] == [NEWLINE, ind];
    } else {
      var t, rest := trivia[0], trivia[1..];
      match t.kind {
        case Whitespace =>
          KeptVisible(rest, ind, skipping, clean);
          NoTrivia(Kept(rest, ind, skipping, clean));
          InFront(t, ind, Kept(rest, ind, skipping, clean));
          NoTrivia(Visible(rest));
        case EndOfLine =>
          KeptVisible(rest, ind, true, true);
          FreshLine(t, ind, Kept(rest, ind, true, true));
          Regroup(t, Visible(rest), if EndsFresh(rest, true) then [] else [NEWLINE]);
        case Comment =>
          KeptVisible(rest, ind, false, false);
          InFront(t, ind, Kept(rest, ind, false, false));
          Regroup(t, Visible(rest), if EndsFresh(rest, false) then [] else [NEWLINE]);
      }
    }
  }

  /** Comments and newlines stay, in order; a newline is added exactly when the token did not
      already start a line. */
  lemma IndentKeepsVisible(tok: Token, ind: Trivia)
    requires ind.kind == Whitespace
    ensures Visible(Indented(tok, ind).trivia)
         == Visible(tok.trivia) + (if EndsFresh(tok.trivia, false) then [] else [NEWLINE])
  {
    KeptVisible(tok.trivia, ind, false, false);
  }

  /** Ends of line end the line; blanks do not. */
  predicate TriviaOk(trivia: seq<Trivia>) {
    forall i :: 0 <= i < |trivia| && trivia[i].kind == EndOfLine ==>
      trivia[i].text != "" && trivia[i].text[|trivia[i].text| - 1] == '\n'
  }

  lemma ColumnAfterEol(start: nat, eol: string, ind: string, rest: string)
    requires eol != "" && eol[|eol| - 1] == '\n' && OneLine(ind)
    ensures Column(start, eol + (ind + rest)) == Column(|ind|, rest)
  {
    var n := |eol| - 1;
    assert eol == eol[..n] + ['\n'];
    ColumnAppend(start, eol, ind + rest);
    ColumnAppend(start, eol[..n], ['\n']);
    assert ['\n'][1..] == "";
    assert Column(Column(start, eol[..n]), ['\n']) == 0;
    ColumnAppend(0, ind, rest);
    ColumnOneLine(0, ind);
  }

  lemma {:induction false} KeptColumn(start: nat, trivia: seq<Trivia>, ind: Trivia, skipping: bool, clean: bool)
    requires ind.kind == Whitespace && OneLine(ind.text) && TriviaOk(trivia)
    requires clean ==> skipping && start == |ind.text|
    ensures Column(start, RenderTrivia(Kept(trivia, ind, skipping, clean))) == |ind.text|
    decreases |trivia|
  {
    if trivia == [] {
      if !clean {
        FreshLine(NEWLINE, ind, []);
        assert [NEWLINE, ind] + [] == [NEWLINE, ind];
        ColumnAfterEol(start, "\n", ind.text, "");
      }
    } else {
      var t, rest := trivia[0], trivia[1..];
      match t.kind {
        case Whitespace =>
          var k := Kept(rest, ind, skipping, clean);
          NoTrivia(k);
          if skipping {
            KeptColumn(start, rest, ind, skipping, clean);
          } else {
            InFront(t, ind, k);
            ColumnAppend(start, t.text, RenderTrivia(k));
            KeptColumn(Column(start, t.text), rest, ind, skipping, clean);
          }
        case EndOfLine =>
          var k := Kept(rest, ind, true, true);
          FreshLine(t, ind, k);
          ColumnAfterEol(start, t.text, ind.text, RenderTrivia(k));
          KeptColumn(|ind.text|, rest, ind, true, true);
        case Comment =>
          var k := Kept(rest, ind, false, false);
          InFront(t, ind, k);
          ColumnAppend(start, t.text, RenderTrivia(k));
          KeptColumn(Column(start, t.text), rest, ind, false, false);
      }
    }
  }

  /** Wherever the previous token ended, an indented token starts at the requested column. */
  lemma IndentColumn(start: nat, tok: Token, ind: Trivia)
    requires ind.kind == Whitespace && OneLine(ind.text) && TriviaOk(tok.trivia)
    ensures Column(start, RenderTrivia(Indented(tok, ind).trivia)) == |ind.text|
  {
    KeptColumn(start, tok.trivia, ind, false, false);
  }

  /** What an indented token has in front ends in a fresh line, and then the indentation and nothing else. */
  lemma {:induction false} IndentEndsLine(trivia: seq<Trivia>, ind: Trivia, skipping: bool)
    requires ind.kind == Whitespace
    ensures var k := Kept(trivia, ind, skipping, false);
      |k| >= 2 && k[|k| - 1] == ind && k[|k| - 2].kind == EndOfLine
    decreases |trivia|
  {
    if trivia != [] {
      match trivia[0].kind {
        case Whitespace => IndentEndsLine(trivia[1..], ind, skipping);
        case Comment => IndentEndsLine(trivia[1..], ind, false);
        case EndOfLine => CleanEndsLine(trivia[1..], trivia[0], ind);
      }
    }
  }

  lemma {:induction false} CleanEndsLine(trivia: seq<Trivia>, eol: Trivia, ind: Trivia)
    requires ind.kind == Whitespace && eol.kind == EndOfLine
    ensures var k := [eol, ind] + Kept(trivia, ind, true, true);
      k[|k| - 1] == ind && k[|k| - 2].kind == EndOfLine
    decreases |trivia|
  {
    if trivia != [] {
      match trivia[0].kind {
        case Whitespace => CleanEndsLine(trivia[1..], eol, ind);
        case Comment => IndentEndsLine(trivia[1..], ind, false);
        case EndOfLine => CleanEndsLine(trivia[1..], trivia[0], ind);
      }
    }
  }

  /** One round of the loop of indent. */
  lemma KeptStep(kept: seq<Trivia>, trivia: seq<Trivia>, i: nat, ind: Trivia, skipping: bool, clean: bool)
    requires i < |trivia|
    ensures kept + Kept(trivia[i..], ind, skipping, clean) ==
      match trivia[i].kind
      case Whitespace => (if skipping then kept else kept + [trivia[i]]) + Kept(trivia[i + 1..], ind, skipping, clean)
      case EndOfLine => (kept + [trivia[i], ind]) + Kept(trivia[i + 1..], ind, true, true)
      case Comment => (kept + [trivia[i]]) + Kept(trivia[i + 1..], ind, false, false)
  {
    assert trivia[i..][1..] == trivia[i + 1..];
  }

  class SpacingManager {
    var level: nat
    const spacePerLevel: nat
    const useTabs: bool

    constructor (spacePerLevel: nat, useTabs: bool)
      ensures level == 0 && this.spacePerLevel == spacePerLevel && this.useTabs == useTabs
    {
      level, this.spacePerLevel, this.useTabs := 0, spacePerLevel, useTabs;
    }

    method SubLevel(n: nat)
      modifies this`level
      ensures level == if n < old(level) then old(level) - n else 0
    {
      level := level - if n < level then n else level;
    }

    /** The characters of the current level. */
    function Lead(): (s: string)
      reads this
      ensures OneLine(s) && |s| == level * (if useTabs then 1 else spacePerLevel)
      ensures forall i :: 0 <= i < |s| ==> s[i] == if useTabs then '\t' else ' '
    {
      var width: nat := if useTabs then level else level * spacePerLevel;
      Repeat(if useTabs then '\t' else ' ', width)
    }

    method Indent(tok: Token, extra: nat) returns (r: Token)
      ensures r == Indented(tok, Indentation(Lead(), extra))
    {
      var ind := Indentation(Lead(), extra);
      var kept: seq<Trivia> := [];
      var skipSpacings := false;
      var newlineClean := false;
      for i := 0 to |tok.trivia|
        invariant newlineClean ==> skipSpacings
        invariant kept + Kept(tok.trivia[i..], ind, skipSpacings, newlineClean) == Kept(tok.trivia, ind, false, false)
      {
        var t := tok.trivia[i];
        ghost var before := kept;
        KeptStep(kept, tok.trivia, i, ind, skipSpacings, newlineClean);
        if t.kind == Whitespace {
          if !skipSpacings {
            kept := kept + [t];
          }
        } else {
          if t.kind == EndOfLine {
            skipSpacings := true;
            newlineClean := true;
          } else {
            skipSpacings := false;
            newlineClean := false;
          }
          kept := kept + [t];
          if t.kind == EndOfLine {
            kept := kept + [ind];
            assert kept == before + [t, ind];
          }
        }
      }
      if !newlineClean {
        kept := kept + [NEWLINE];
        kept := kept + [ind];
      }
      r := Token(kept, tok.text);
    }
  }
}
