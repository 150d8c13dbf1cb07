/** Column alignment of blocks of logic declarations: widths are gathered over the block, then
    each declaration is padded to them. */

/** Dimensions, the padding inside and around them, and how wide the result prints. */
module Dimensions {
  import opened Spacing

  /** An expression as its tokens. */
  type Expr = e: seq<Token> | e != [] witness [Token([], "0")]

  /** A packed or unpacked dimension: [left:right] or [expr]. */
  datatype Dim =
    | Range(open: Token, left: Expr, colon: Token, right: Expr, close: Token)
    | Bit(open: Token, expr: Expr, close: Token)

  function TokensOf(d: Dim): seq<Token> {
    match d
    case Range(open, left, colon, right, close) => [open] + left + [colon] + right + [close]
    case Bit(open, expr, close) => [open] + expr + [close]
  }

  function DimTokens(dims: seq<Dim>): seq<Token> {
    if dims == [] then [] else TokensOf(dims[0]) + DimTokens(dims[1..])
  }

  predicate HasBlank(trivia: seq<Trivia>) {
    exists i :: 0 <= i < |trivia| && trivia[i].kind == Whitespace
  }

  /** raw_text_from_syntax: token texts, with one space where a token has blanks in front. */
  function RawText(toks: seq<Token>): string {
    if toks == [] then ""
    else (if HasBlank(toks[0].trivia) then " " else "") + toks[0].text + RawText(toks[1..])
  }

  /** What is printed of an expression once its leading trivia is dropped. */
  function Body(e: Expr): string {
    e[0].text + RenderAll(e[1..])
  }

  /** How much longer the raw text is than what will be printed: one for a leading blank, less
      for every inner run of several blanks. */
  function Slack(e: Expr): int {
    |RawText(e)| - |Body(e)|
  }

  const BLANK := Trivia(Whitespace, " ")

  /** No trivia in front and at most single spaces inside. */
  ghost predicate Compact(e: seq<Token>) {
    && (e != [] ==> e[0].trivia == [])
    && forall i :: 0 <= i < |e| ==> e[i].trivia == [] || e[i].trivia == [BLANK]
  }

  lemma {:induction false} RawTextOfSpaced(toks: seq<Token>)
    requires forall i :: 0 <= i < |toks| ==> toks[i].trivia == [] || toks[i].trivia == [BLANK]
    ensures RawText(toks) == RenderAll(toks)
  {
    if toks != [] {
      RawTextOfSpaced(toks[1..]);
      if toks[0].trivia == [BLANK] {
        RenderOne(BLANK);
        assert toks[0].trivia[0].kind == Whitespace;
      }
    }
  }

  /** The tokens with one space where blanks were in front, and nothing else. */
  function SingleSpaced(toks: seq<Token>): seq<Token> {
    seq(|toks|, i requires 0 <= i < |toks| =>
      Token(if exists k :: 0 <= k < |toks[i].trivia| && toks[i].trivia[k].kind == Whitespace then [BLANK] else [], toks[i].text))
  }

  /** The raw text is what would be printed with single spaces for blanks and without comments. */
  lemma {:induction false} RawTextIsSpaced(toks: seq<Token>)
    ensures RawText(toks) == RenderAll(SingleSpaced(toks))
  {
    if toks != [] {
      RawTextIsSpaced(toks[1..]);
      RenderOne(BLANK);
      assert SingleSpaced(toks)[1..] == SingleSpaced(toks[1..]);
      assert SingleSpaced(toks)[0].trivia == if HasBlank(toks[0].trivia) then [BLANK] else [];
    }
  }

  lemma CompactHasNoSlack(e: Expr)
    requires Compact(e)
    ensures Slack(e) == 0
  {
    RawTextOfSpaced(e[1..]);
  }

  ghost predicate CompactDim(d: Dim) {
    match d
    case Range(_, left, _, right, _) => Compact(left) && Compact(right)
    case Bit(_, expr, _) => Compact(expr)
  }

  function DimSlack(d: Dim): int {
    match d
    case Range(_, left, _, right, _) => Slack(left) + Slack(right)
    case Bit(_, expr, _) => Slack(expr)
  }

  function DimsSlack(dims: seq<Dim>): int {
    if dims == [] then 0 else DimSlack(dims[0]) + DimsSlack(dims[1..])
  }

  ghost predicate CompactDims(dims: seq<Dim>) {
    forall i :: 0 <= i < |dims| ==> CompactDim(dims[i])
  }

  lemma {:induction false} CompactDimsHaveNoSlack(dims: seq<Dim>)
    requires CompactDims(dims)
    ensures DimsSlack(dims) == 0
  {
    if dims != [] {
      match dims[0] {
        case Range(_, left, _, right, _) => CompactHasNoSlack(left); CompactHasNoSlack(right);
        case Bit(_, expr, _) => CompactHasNoSlack(expr);
      }
      CompactDimsHaveNoSlack(dims[1..]);
    }
  }

  /** The punctuation is the usual one and nothing prints over several lines. */
  ghost predicate Flat(d: Dim) {
    && d.open.text == "[" && d.close.text == "]"
    && match d
       case Range(_, left, colon, right, _) => colon.text == ":" && OneLine(Body(left)) && OneLine(Body(right))
       case Bit(_, expr, _) => OneLine(Body(expr))
  }

  ghost predicate AllFlat(dims: seq<Dim>) {
    forall i :: 0 <= i < |dims| ==> Flat(dims[i])
  }

  // --------------------------------------------------------------- alignment

  type Sizes = seq<(nat, nat)>

  /** The recorded sizes leave room for the dimension. */
  predicate Fits(d: Dim, size: (nat, nat)) {
    match d
    case Range(_, left, _, right, _) => |RawText(left)| <= size.0 && |RawText(right)| <= size.1
    case Bit(_, expr, _) => |RawText(expr)| <= 1 + size.0 + size.1
  }

  predicate AllFit(dims: seq<Dim>, sizes: Sizes) {
    |dims| <= |sizes| && forall i :: 0 <= i < |dims| ==> Fits(dims[i], sizes[i])
  }

  /** The expression right-aligned in a field. The subtraction is the unsigned one of the code:
      the field is never narrower than what follows the first token. */
  function AlignedExpr(e: Expr, size: nat): (r: Expr)
    requires |RawText(e)| <= size
  {
    var excess: nat := |RawText(e)| - |e[0].text|;
    var field: nat := size - excess;
    [TokenAlignRight(e[0], field, true)] + e[1..]
  }

  lemma AlignedExprWidth(e: Expr, size: nat)
    requires |RawText(e)| <= size
    ensures RenderAll(AlignedExpr(e, size)) == Repeat(' ', size - |RawText(e)|) + Body(e)
    ensures |RenderAll(AlignedExpr(e, size))| == size - Slack(e)
  {
    var blanks := Repeat(' ', size - |RawText(e)|);
    var t := AlignedExpr(e, size)[0];
    RenderSpaced(e[0], size - |RawText(e)|);
    RenderAllAppend([t], e[1..]);
    RenderSingle(t);
    Associative(blanks, e[0].text, RenderAll(e[1..]));
  }

  lemma Associative(a: string, b: string, c: string)
    ensures (a + b) + c == a + (b + c)
  {
  }

  lemma RenderSingle(tok: Token)
    ensures RenderAll([tok]) == Render(tok)
  {
    assert [tok][1..] == [] && Render(tok) + "" == Render(tok);
  }

  /** How far the opening bracket of a dimension is pushed. */
  function AlignedOpen(open: Token, first: bool, firstAlignment: nat): Token {
    if first then TokenAlignRight(open, firstAlignment + 1, false) else ReplaceSpacing(open, 0)
  }

  function AlignedDim(d: Dim, size: (nat, nat), first: bool, firstAlignment: nat): Dim
    requires Fits(d, size)
  {
    match d
    case Range(open, left, colon, right, close) =>
      Range(AlignedOpen(open, first, firstAlignment), AlignedExpr(left, size.0), ReplaceSpacing(colon, 0),
            AlignedExpr(right, size.1), ReplaceSpacing(close, 0))
    case Bit(open, expr, close) =>
      Bit(AlignedOpen(open, first, firstAlignment), AlignedExpr(expr, 1 + size.0 + size.1), ReplaceSpacing(close, 0))
  }

  function AlignedDims(dims: seq<Dim>, sizes: Sizes, first: bool, firstAlignment: nat): seq<Dim>
    requires AllFit(dims, sizes)
  {
    if dims == [] then []
    else [AlignedDim(dims[0], sizes[0], first, firstAlignment)] + AlignedDims(dims[1..], sizes[1..], false, firstAlignment)
  }

  function SumSizes(sizes: Sizes): nat {
    if sizes == [] then 0 else sizes[0].0 + sizes[0].1 + SumSizes(sizes[1..])
  }

  /** What align_dimension returns: the blanks owed for the dimensions that are not there. It is
      negative only when there is nothing to align at all. */
  function Remaining(k: nat, sizes: Sizes, firstAlignment: nat): int
    requires k <= |sizes|
  {
    (if k == 0 then firstAlignment - 1 else 0)
    + (if k < |sizes| then 1 + 3 * (|sizes| - k) + SumSizes(sizes[k..]) else 0)
  }

  /** The blanks in front of an opening bracket: at least one in front of the first. */
  function Opening(first: bool, firstAlignment: nat): nat {
    if !first then 0 else if firstAlignment == 0 then 1 else firstAlignment
  }

  lemma OpenWidth(open: Token, first: bool, firstAlignment: nat)
    requires open.text == "["
    ensures Render(AlignedOpen(open, first, firstAlignment)) == Repeat(' ', Opening(first, firstAlignment)) + "["
  {
    RenderSpaced(open, Opening(first, firstAlignment));
  }

  lemma RenderTight(tok: Token)
    ensures Render(ReplaceSpacing(tok, 0)) == tok.text
  {
    assert RenderTrivia([]) == "" && "" + tok.text == tok.text;
  }

  lemma OneLineAppend(a: string, b: string)
    requires OneLine(a) && OneLine(b)
    ensures OneLine(a + b)
  {
  }

  lemma RenderBracketed(open: Token, e: seq<Token>, close: Token)
    ensures RenderAll([open] + e + [close]) == Render(open) + RenderAll(e) + Render(close)
  {
    RenderSingle(open);
    RenderSingle(close);
    RenderAllAppend([open] + e, [close]);
    RenderAllAppend([open], e);
  }

  lemma RenderRange(d: Dim)
    requires d.Range?
    ensures RenderAll(TokensOf(d))
         == Render(d.open) + (RenderAll(d.left) + Render(d.colon) + RenderAll(d.right)) + Render(d.close)
  {
    var inner := d.left + [d.colon] + d.right;
    assert TokensOf(d) == [d.open] + inner + [d.close];
    RenderBracketed(d.open, inner, d.close);
    RenderAllAppend(d.left + [d.colon], d.right);
    RenderAllAppend(d.left, [d.colon]);
    RenderSingle(d.colon);
  }

  lemma BlanksAreOneLine(n: nat, s: string)
    requires OneLine(s)
    ensures OneLine(Repeat(' ', n) + s)
  {
  }

  lemma AlignedRangeWidth(d: Dim, size: (nat, nat), first: bool, firstAlignment: nat)
    requires Fits(d, size) && Flat(d) && d.Range?
    ensures var s := RenderAll(TokensOf(AlignedDim(d, size, first, firstAlignment)));
      OneLine(s) && |s| == Opening(first, firstAlignment) + 3 + size.0 + size.1 - DimSlack(d)
  {
    var r := AlignedDim(d, size, first, firstAlignment);
    OpenWidth(d.open, first, firstAlignment);
    RenderTight(d.close);
    BlanksAreOneLine(Opening(first, firstAlignment), "[");
    RenderRange(r);
    RenderTight(d.colon);
    AlignedExprWidth(d.left, size.0);
    AlignedExprWidth(d.right, size.1);
    BlanksAreOneLine(size.0 - |RawText(d.left)|, Body(d.left));
    BlanksAreOneLine(size.1 - |RawText(d.right)|, Body(d.right));
    JoinLines(Render(r.open), RenderAll(r.left) + ":" + RenderAll(r.right), "]", RenderAll(r.left), RenderAll(r.right));
  }

  lemma AlignedBitWidth(d: Dim, size: (nat, nat), first: bool, firstAlignment: nat)
    requires Fits(d, size) && Flat(d) && d.Bit?
    ensures var s := RenderAll(TokensOf(AlignedDim(d, size, first, firstAlignment)));
      OneLine(s) && |s| == Opening(first, firstAlignment) + 3 + size.0 + size.1 - DimSlack(d)
  {
    var r := AlignedDim(d, size, first, firstAlignment);
    OpenWidth(d.open, first, firstAlignment);
    RenderTight(d.close);
    BlanksAreOneLine(Opening(first, firstAlignment), "[");
    RenderBracketed(r.open, r.expr, r.close);
    AlignedExprWidth(d.expr, 1 + size.0 + size.1);
    BlanksAreOneLine(1 + size.0 + size.1 - |RawText(d.expr)|, Body(d.expr));
    OneLineAppend(Render(r.open), RenderAll(r.expr));
    OneLineAppend(Render(r.open) + RenderAll(r.expr), "]");
  }

  /** One aligned dimension prints on one line, three characters and its two fields wide. */
  lemma AlignedDimWidth(d: Dim, size: (nat, nat), first: bool, firstAlignment: nat)
    requires Fits(d, size) && Flat(d)
    ensures var s := RenderAll(TokensOf(AlignedDim(d, size, first, firstAlignment)));
      OneLine(s) && |s| == Opening(first, firstAlignment) + 3 + size.0 + size.1 - DimSlack(d)
  {
    if d.Range? {
      AlignedRangeWidth(d, size, first, firstAlignment);
    } else {
      AlignedBitWidth(d, size, first, firstAlignment);
    }
  }

  lemma JoinLines(open: string, inner: string, close: string, left: string, right: string)
    requires OneLine(open) && OneLine(left) && OneLine(right) && OneLine(close) && inner == left + ":" + right
    ensures OneLine(open + inner + close)
  {
    OneLineAppend(left, ":");
    OneLineAppend(left + ":", right);
    OneLineAppend(open, inner);
    OneLineAppend(open + inner, close);
  }

  /** The width of aligned dimensions, the blanks in front of the first included. */
  function DimsWidth(dims: seq<Dim>, sizes: Sizes, first: bool, firstAlignment: nat): int
    requires |dims| <= |sizes|
  {
    (if dims == [] then 0 else Opening(first, firstAlignment)) + 3 * |dims| + SumSizes(sizes[..|dims|]) - DimsSlack(dims)
  }

  lemma DimsWidthCons(dims: seq<Dim>, sizes: Sizes, first: bool, firstAlignment: nat)
    requires 0 < |dims| <= |sizes|
    ensures DimsWidth(dims, sizes, first, firstAlignment)
         == (Opening(first, firstAlignment) + 3 + sizes[0].0 + sizes[0].1 - DimSlack(dims[0]))
            + DimsWidth(dims[1..], sizes[1..], false, firstAlignment)
  {
    SumCons(sizes, |dims|);
  }

  lemma {:induction false} AlignedDimsWidth(dims: seq<Dim>, sizes: Sizes, first: bool, firstAlignment: nat)
    requires AllFit(dims, sizes) && AllFlat(dims)
    ensures var s := RenderAll(DimTokens(AlignedDims(dims, sizes, first, firstAlignment)));
      OneLine(s) && |s| == DimsWidth(dims, sizes, first, firstAlignment)
  {
    if dims != [] {
      var d := AlignedDim(dims[0], sizes[0], first, firstAlignment);
      var rest := AlignedDims(dims[1..], sizes[1..], false, firstAlignment);
      AlignedDimWidth(dims[0], sizes[0], first, firstAlignment);
      AlignedDimsWidth(dims[1..], sizes[1..], false, firstAlignment);
      RenderDimsCons(d, rest);
      DimsWidthCons(dims, sizes, first, firstAlignment);
      OneLineAppend(RenderAll(TokensOf(d)), RenderAll(DimTokens(rest)));
    }
  }

  lemma RenderDimsCons(d: Dim, rest: seq<Dim>)
    ensures RenderAll(DimTokens([d] + rest)) == RenderAll(TokensOf(d)) + RenderAll(DimTokens(rest))
  {
    assert ([d] + rest)[1..] == rest;
    RenderAllAppend(TokensOf(d), DimTokens(rest));
  }

  lemma SumCons(sizes: Sizes, k: nat)
    requires 0 < k <= |sizes|
    ensures SumSizes(sizes[..k]) == sizes[0].0 + sizes[0].1 + SumSizes(sizes[1..][..k - 1])
  {
    assert sizes[..k][1..] == sizes[1..][..k - 1];
  }

  lemma {:induction false} SumSplit(sizes: Sizes, k: nat)
    requires k <= |sizes|
    ensures SumSizes(sizes) == SumSizes(sizes[..k]) + SumSizes(sizes[k..])
  {
    if k == 0 {
      assert sizes[..0] == [] && sizes[0..] == sizes;
    } else {
      SumSplit(sizes[1..], k - 1);
      assert sizes[..k][1..] == sizes[1..][..k - 1] && sizes[1..][k - 1..] == sizes[k..];
    }
  }

  /** Width law: whatever dimensions a declaration has, what is printed for them and what is still
      owed add up to the same amount, plus one when some but not all are there, and plus one when
      the first bracket had to be pushed by a blank it was not entitled to. */
  lemma WidthLaw(dims: seq<Dim>, sizes: Sizes, firstAlignment: nat)
    requires AllFit(dims, sizes) && AllFlat(dims)
    ensures var k, n := |dims|, |sizes|;
      |RenderAll(DimTokens(AlignedDims(dims, sizes, true, firstAlignment)))| + Remaining(k, sizes, firstAlignment)
      == if n == 0 then firstAlignment - 1
         else firstAlignment + 3 * n + SumSizes(sizes) + (if 0 < k < n then 1 else 0)
              + (if 0 < k && firstAlignment == 0 then 1 else 0) - DimsSlack(dims)
  {
    AlignedDimsWidth(dims, sizes, true, firstAlignment);
    SumSplit(sizes, |dims|);
    assert sizes[..|sizes|] == sizes && sizes[|sizes|..] == [];
  }

  lemma {:induction false} AlignedDimsAt(dims: seq<Dim>, sizes: Sizes, first: bool, firstAlignment: nat, i: nat)
    requires AllFit(dims, sizes) && i < |dims|
    ensures |AlignedDims(dims, sizes, first, firstAlignment)| == |dims|
    ensures AlignedDims(dims, sizes, first, firstAlignment)[i]
         == AlignedDim(dims[i], sizes[i], first && i == 0, firstAlignment)
  {
    if |dims| > 1 {
      AlignedDimsAt(dims[1..], sizes[1..], false, firstAlignment, if i == 0 then 0 else i - 1);
    }
  }

  /** The loop over the dimensions, which are rewritten in place. */
  /** The loop over the dimensions that are there, rewriting each in its place. */
  method AlignEach(dims: array<Dim>, sizes: Sizes, firstAlignment: nat)
    requires AllFit(dims[..], sizes)
    modifies dims
    ensures forall j :: 0 <= j < dims.Length ==>
      Fits(old(dims[j]), sizes[j]) && dims[j] == AlignedDim(old(dims[j]), sizes[j], j == 0, firstAlignment)
  {
    ghost var before := dims[..];
    assert forall j :: 0 <= j < |before| ==> Fits(before[j], sizes[j]);
    var firstElement := true;
    var sizeDimIndex := 0;
    while sizeDimIndex < dims.Length
      invariant sizeDimIndex <= dims.Length && firstElement == (sizeDimIndex == 0)
      invariant forall j :: 0 <= j < sizeDimIndex ==> dims[j] == AlignedDim(before[j], sizes[j], j == 0, firstAlignment)
      invariant forall j :: sizeDimIndex <= j < dims.Length ==> dims[j] == before[j]
    {
      dims[sizeDimIndex] := AlignedDim(dims[sizeDimIndex], sizes[sizeDimIndex], firstElement, firstAlignment);
      sizeDimIndex := sizeDimIndex + 1;
      firstElement := false;
    }
  }

  method AlignDimension(dims: array<Dim>, sizes: Sizes, firstAlignment: nat) returns (remaining: int)
    requires AllFit(dims[..], sizes)
    modifies dims
    ensures dims[..] == AlignedDims(old(dims[..]), sizes, true, firstAlignment)
    ensures remaining == Remaining(dims.Length, sizes, firstAlignment)
  {
    ghost var before := dims[..];
    remaining := 0;
    if dims.Length > 0 {
      AlignEach(dims, sizes, firstAlignment);
    } else {
      remaining := remaining + firstAlignment - 1;
    }
    if dims.Length < |sizes| {
      remaining := remaining + (1 + 3 * (|sizes| - dims.Length)) + SumSizes(sizes[dims.Length..]);
    }
    AlignedDimsAre(before, dims[..], sizes, firstAlignment);
  }

  lemma AlignedDimsAre(before: seq<Dim>, after: seq<Dim>, sizes: Sizes, firstAlignment: nat)
    requires AllFit(before, sizes) && |after| == |before|
    requires forall j :: 0 <= j < |after| ==> after[j] == AlignedDim(before[j], sizes[j], j == 0, firstAlignment)
    ensures after == AlignedDims(before, sizes, true, firstAlignment)
  {
    if |before| > 0 {
      AlignedDimsAt(before, sizes, true, firstAlignment, 0);
    }
    forall i | 0 <= i < |before| ensures after[i] == AlignedDims(before, sizes, true, firstAlignment)[i] {
      AlignedDimsAt(before, sizes, true, firstAlignment, i);
    }
  }

  // ----------------------------------------------------------------- pass one

  function Max(a: nat, b: nat): nat {
    if a < b then b else a
  }

  /** What a dimension asks for. */
  function Need(d: Dim): (nat, nat) {
    match d
    case Range(_, left, _, right, _) => (|RawText(left)|, |RawText(right)|)
    case Bit(_, expr, _) => (|RawText(expr)| / 2, |RawText(expr)| / 2)
  }

  function SizeAt(sizes: Sizes, i: nat): (nat, nat) {
    if i < |sizes| then sizes[i] else (0, 0)
  }

  /** The recorded sizes, widened slot by slot to what some dimensions ask for. */
  function Widened(sizes: Sizes, dims: seq<Dim>): (r: Sizes)
    ensures |r| == Max(|sizes|, |dims|)
  {
    seq(Max(|sizes|, |dims|), i requires 0 <= i < Max(|sizes|, |dims|) =>
      if i < |dims| then (Max(SizeAt(sizes, i).0, Need(dims[i]).0), Max(SizeAt(sizes, i).1, Need(dims[i]).1))
      else SizeAt(sizes, i))
  }

  /** Halving the room of a single selector on each side never takes any away. */
  lemma WidenedFits(sizes: Sizes, dims: seq<Dim>)
    ensures AllFit(dims, Widened(sizes, dims))
    ensures forall ds :: AllFit(ds, sizes) ==> AllFit(ds, Widened(sizes, dims))
  {
    var w := Widened(sizes, dims);
    forall i | 0 <= i < |dims| ensures Fits(dims[i], w[i]) {
      if dims[i].Bit? {
        var l := |RawText(dims[i].expr)|;
        assert l <= 1 + 2 * (l / 2);
      }
    }
    forall ds | AllFit(ds, sizes) ensures AllFit(ds, w) {
      forall i | 0 <= i < |ds| ensures Fits(ds[i], w[i]) {
        assert sizes[i].0 <= w[i].0 && sizes[i].1 <= w[i].1;
      }
    }
  }

  /** The room a dimension takes left of its colon; a single selector is halved. */
  ghost predicate LeftIs(d: Dim, n: nat) {
    match d
    case Range(_, left, _, _, _) => |RawText(left)| == n
    case Bit(_, expr, _) => |RawText(expr)| / 2 == n
  }

  ghost predicate RightIs(d: Dim, n: nat) {
    match d
    case Range(_, _, _, right, _) => |RawText(right)| == n
    case Bit(_, expr, _) => |RawText(expr)| / 2 == n
  }

  ghost predicate LeftReached(all: seq<seq<Dim>>, i: nat, n: nat) {
    n == 0 || exists j :: 0 <= j < |all| && i < |all[j]| && LeftIs(all[j][i], n)
  }

  ghost predicate RightReached(all: seq<seq<Dim>>, i: nat, n: nat) {
    n == 0 || exists j :: 0 <= j < |all| && i < |all[j]| && RightIs(all[j][i], n)
  }

  /** Of all the dimensions in a slot, the size is the largest, and there is a slot for each. */
  ghost predicate Largest(all: seq<seq<Dim>>, sizes: Sizes) {
    && (forall j :: 0 <= j < |all| ==> |all[j]| <= |sizes|)
    && (sizes == [] || exists j :: 0 <= j < |all| && |all[j]| == |sizes|)
    && (forall i :: 0 <= i < |sizes| ==> LeftReached(all, i, sizes[i].0) && RightReached(all, i, sizes[i].1))
    && (forall i, j, n: nat :: 0 <= j < |all| && 0 <= i < |all[j]| && i < |sizes| && LeftIs(all[j][i], n) ==> n <= sizes[i].0)
    && (forall i, j, n: nat :: 0 <= j < |all| && 0 <= i < |all[j]| && i < |sizes| && RightIs(all[j][i], n) ==> n <= sizes[i].1)
  }

  lemma SlotStaysReached(all: seq<seq<Dim>>, dims: seq<Dim>, i: nat, n: nat)
    ensures LeftReached(all, i, n) ==> LeftReached(all + [dims], i, n)
    ensures RightReached(all, i, n) ==> RightReached(all + [dims], i, n)
  {
    assert forall j :: 0 <= j < |all| ==> (all + [dims])[j] == all[j];
  }

  lemma SlotIsReached(all: seq<seq<Dim>>, dims: seq<Dim>, i: nat, n: nat)
    requires i < |dims|
    ensures LeftIs(dims[i], n) ==> LeftReached(all + [dims], i, n)
    ensures RightIs(dims[i], n) ==> RightReached(all + [dims], i, n)
  {
    assert (all + [dims])[|all|] == dims;
  }

  lemma WidenedReaches(all: seq<seq<Dim>>, sizes: Sizes, dims: seq<Dim>)
    requires Largest(all, sizes)
    ensures forall i :: 0 <= i < |Widened(sizes, dims)| ==>
      LeftReached(all + [dims], i, Widened(sizes, dims)[i].0) && RightReached(all + [dims], i, Widened(sizes, dims)[i].1)
  {
    var w := Widened(sizes, dims);
    forall i | 0 <= i < |w| ensures LeftReached(all + [dims], i, w[i].0) && RightReached(all + [dims], i, w[i].1) {
      SlotStaysReached(all, dims, i, w[i].0);
      SlotStaysReached(all, dims, i, w[i].1);
      if i < |dims| {
        SlotIsReached(all, dims, i, w[i].0);
        SlotIsReached(all, dims, i, w[i].1);
      }
    }
  }

  lemma SlotIsBound(all: seq<seq<Dim>>, sizes: Sizes, dims: seq<Dim>, i: nat, j: nat, n: nat)
    requires Largest(all, sizes) && j <= |all| && i < |(all + [dims])[j]|
    ensures i < |Widened(sizes, dims)|
    ensures LeftIs((all + [dims])[j][i], n) ==> n <= Widened(sizes, dims)[i].0
    ensures RightIs((all + [dims])[j][i], n) ==> n <= Widened(sizes, dims)[i].1
  {
    if j < |all| {
      assert (all + [dims])[j] == all[j];
    }
  }

  lemma SlotsAreEnough(all: seq<seq<Dim>>, sizes: Sizes, dims: seq<Dim>)
    requires Largest(all, sizes)
    ensures var w, more := Widened(sizes, dims), all + [dims]; w == [] || exists j :: 0 <= j < |more| && |more[j]| == |w|
  {
    var more := all + [dims];
    if |dims| < |sizes| {
      var j :| 0 <= j < |all| && |all[j]| == |sizes|;
      assert more[j] == all[j];
    } else {
      assert more[|all|] == dims;
    }
  }

  lemma WidenedIsLargest(all: seq<seq<Dim>>, sizes: Sizes, dims: seq<Dim>)
    requires Largest(all, sizes)
    ensures Largest(all + [dims], Widened(sizes, dims))
  {
    var w, more := Widened(sizes, dims), all + [dims];
    WidenedReaches(all, sizes, dims);
    SlotsAreEnough(all, sizes, dims);
    forall j | 0 <= j < |more| ensures |more[j]| <= |w| {
      assert j < |all| ==> more[j] == all[j];
    }
    forall i, j, n: nat | 0 <= j < |more| && 0 <= i < |more[j]| && i < |w| && LeftIs(more[j][i], n) ensures n <= w[i].0 {
      SlotIsBound(all, sizes, dims, i, j, n);
    }
    forall i, j, n: nat | 0 <= j < |more| && 0 <= i < |more[j]| && i < |w| && RightIs(more[j][i], n) ensures n <= w[i].1 {
      SlotIsBound(all, sizes, dims, i, j, n);
    }
  }

  method DimensionSyntaxToVector(dims: seq<Dim>, target: Sizes) returns (r: Sizes)
    ensures r == Widened(target, dims)
  {
    r := target;
    if |dims| > |r| {
      r := r + seq(|dims| - |r|, _ => (0, 0));
    }
    for index := 0 to |dims|
      invariant |r| == Max(|target|, |dims|)
      invariant forall j :: 0 <= j < index ==> r[j] == Widened(target, dims)[j]
      invariant forall j :: index <= j < |r| ==> r[j] == SizeAt(target, j)
    {
      var first, second;
      match dims[index] {
        case Bit(_, expr, _) =>
          var reqLen := |RawText(expr)|;
          first, second := reqLen / 2, reqLen / 2;
        case Range(_, left, _, right, _) =>
          first, second := |RawText(left)|, |RawText(right)|;
      }
      r := r[index := (Max(r[index].0, first), Max(r[index].1, second))];
    }
  }
}

/** Whole declarations and blocks of them. */
module Declarations {
  import opened Wrappers
  import opened Spacing
  import opened Dimensions

  /** modifiers logic [signing] packed-dimensions name unpacked-dimensions ; */
  datatype Decl = Decl(
    modifiers: seq<Token>,
    keyword: Token,
    signing: Option<Token>,
    packed: seq<Dim>,
    name: Token,
    unpacked: seq<Dim>,
    semi: Token)

  ghost predicate WellFormed(d: Decl) {
    && d.keyword.text == "logic" && TriviaOk(d.keyword.trivia) && OneLine(d.name.text)
    && (forall i :: 0 <= i < |d.modifiers| ==> OneLine(d.modifiers[i].text) && TriviaOk(d.modifiers[i].trivia))
    && (d.signing.Some? ==> OneLine(d.signing.value.text))
    && AllFlat(d.packed) && AllFlat(d.unpacked)
  }

  /** The widths gathered over a block. */
  datatype Widths = Widths(modifiers: seq<nat>, types: Sizes, arrays: Sizes, typeName: nat, varName: nat)

  const NO_WIDTHS := Widths([], [], [], 0, 0)

  /** The keyword, and one more than the signing: an absent signing is a token without text. */
  function TypeLength(d: Decl): nat {
    |d.keyword.text| + 1 + (if d.signing.Some? then |d.signing.value.text| else 0)
  }

  // ----------------------------------------------------------------- pass one

  function WidthAt(sizes: seq<nat>, i: nat): nat {
    if i < |sizes| then sizes[i] else 0
  }

  function WidenedBy(sizes: seq<nat>, toks: seq<Token>): (r: seq<nat>)
    ensures |r| == Max(|sizes|, |toks|)
  {
    seq(Max(|sizes|, |toks|), i requires 0 <= i < Max(|sizes|, |toks|) =>
      if i < |toks| then Max(WidthAt(sizes, i), |toks[i].text|) else WidthAt(sizes, i))
  }

  method TokensToVector(toks: seq<Token>, target: seq<nat>) returns (r: seq<nat>)
    ensures r == WidenedBy(target, toks)
  {
    r := target;
    if |toks| > |r| {
      r := r + seq(|toks| - |r|, _ => 0);
    }
    for index := 0 to |toks|
      invariant |r| == Max(|target|, |toks|)
      invariant forall j :: 0 <= j < index ==> r[j] == WidenedBy(target, toks)[j]
      invariant forall j :: index <= j < |r| ==> r[j] == WidthAt(target, j)
    {
      r := r[index := Max(r[index], |toks[index].text|)];
    }
  }

  function Measured(w: Widths, d: Decl): Widths {
    Widths(WidenedBy(w.modifiers, d.modifiers), Widened(w.types, d.packed), Widened(w.arrays, d.unpacked),
           Max(w.typeName, TypeLength(d)), Max(w.varName, |d.name.text|))
  }

  function MeasuredAll(decls: seq<Decl>): Widths {
    if decls == [] then NO_WIDTHS else Measured(MeasuredAll(decls[..|decls| - 1]), decls[|decls| - 1])
  }

  /** The widths leave room for the declaration. */
  predicate Covers(w: Widths, d: Decl) {
    && |d.modifiers| <= |w.modifiers|
    && (forall i :: 0 <= i < |d.modifiers| ==> |d.modifiers[i].text| <= w.modifiers[i])
    && AllFit(d.packed, w.types) && AllFit(d.unpacked, w.arrays)
    && TypeLength(d) <= w.typeName && |d.name.text| <= w.varName
  }

  lemma MeasuredCovers(w: Widths, d: Decl)
    ensures Covers(Measured(w, d), d)
    ensures forall e :: Covers(w, e) ==> Covers(Measured(w, d), e)
  {
    WidenedFits(w.types, d.packed);
    WidenedFits(w.arrays, d.unpacked);
  }

  /** Pass one leaves room for every declaration of the block, and the type width is reached. */
  lemma {:induction false} BlockIsCovered(decls: seq<Decl>)
    ensures forall i :: 0 <= i < |decls| ==> Covers(MeasuredAll(decls), decls[i])
    ensures decls != [] ==> exists i :: 0 <= i < |decls| && TypeLength(decls[i]) == MeasuredAll(decls).typeName
  {
    if decls != [] {
      var n := |decls| - 1;
      var w := MeasuredAll(decls[..n]);
      BlockIsCovered(decls[..n]);
      MeasuredCovers(w, decls[n]);
      forall i | 0 <= i < |decls| ensures Covers(MeasuredAll(decls), decls[i]) {
        if i < n {
          assert Covers(w, decls[..n][i]);
        }
      }
      if w.typeName <= TypeLength(decls[n]) {
        assert TypeLength(decls[n]) == MeasuredAll(decls).typeName;
      } else {
        var i :| 0 <= i < n && TypeLength(decls[..n][i]) == w.typeName;
        assert decls[i] == decls[..n][i];
      }
    }
  }

  function PackedOf(decls: seq<Decl>): seq<seq<Dim>> {
    seq(|decls|, i requires 0 <= i < |decls| => decls[i].packed)
  }

  function UnpackedOf(decls: seq<Decl>): seq<seq<Dim>> {
    seq(|decls|, i requires 0 <= i < |decls| => decls[i].unpacked)
  }

  /** The modifiers of a slot reach the width. */
  ghost predicate ModifierReached(decls: seq<Decl>, i: nat, n: nat) {
    n == 0 || exists j :: 0 <= j < |decls| && i < |decls[j].modifiers| && |decls[j].modifiers[i].text| == n
  }

  ghost predicate ModifiersReached(decls: seq<Decl>, sizes: seq<nat>) {
    && (sizes == [] || exists j :: 0 <= j < |decls| && |decls[j].modifiers| == |sizes|)
    && forall i :: 0 <= i < |sizes| ==> ModifierReached(decls, i, sizes[i])
  }

  ghost predicate NameReached(decls: seq<Decl>, n: nat) {
    n == 0 || exists j :: 0 <= j < |decls| && |decls[j].name.text| == n
  }

  lemma ModifiersReachMore(decls: seq<Decl>, d: Decl, sizes: seq<nat>)
    requires ModifiersReached(decls, sizes)
    ensures ModifiersReached(decls + [d], WidenedBy(sizes, d.modifiers))
  {
    var w, more := WidenedBy(sizes, d.modifiers), decls + [d];
    assert more[|decls|] == d && forall j :: 0 <= j < |decls| ==> more[j] == decls[j];
    forall i | 0 <= i < |w| ensures ModifierReached(more, i, w[i]) {
      if i < |sizes| && w[i] == sizes[i] && w[i] != 0 {
        assert ModifierReached(decls, i, sizes[i]);
        var j :| 0 <= j < |decls| && i < |decls[j].modifiers| && |decls[j].modifiers[i].text| == sizes[i];
        assert more[j] == decls[j];
      }
    }
    if w != [] && |d.modifiers| < |sizes| {
      var j :| 0 <= j < |decls| && |decls[j].modifiers| == |sizes|;
      assert |more[j].modifiers| == |w|;
    }
  }

  lemma NamesReachMore(decls: seq<Decl>, d: Decl, n: nat)
    requires NameReached(decls, n)
    ensures NameReached(decls + [d], Max(n, |d.name.text|))
  {
    var more := decls + [d];
    assert more[|decls|] == d;
    if Max(n, |d.name.text|) == n && n != 0 {
      var j :| 0 <= j < |decls| && |decls[j].name.text| == n;
      assert more[j] == decls[j];
    }
  }

  /** Pass one takes no more room than needed: every width is that of some declaration of the block. */
  lemma {:induction false} WidthsAreLargest(decls: seq<Decl>)
    ensures var w := MeasuredAll(decls);
      && Largest(PackedOf(decls), w.types) && Largest(UnpackedOf(decls), w.arrays)
      && ModifiersReached(decls, w.modifiers) && NameReached(decls, w.varName)
  {
    if decls != [] {
      var n := |decls| - 1;
      var before, d, w := decls[..n], decls[n], MeasuredAll(decls[..n]);
      WidthsAreLargest(before);
      assert decls == before + [d];
      assert PackedOf(decls) == PackedOf(before) + [d.packed] && UnpackedOf(decls) == UnpackedOf(before) + [d.unpacked];
      WidenedIsLargest(PackedOf(before), w.types, d.packed);
      WidenedIsLargest(UnpackedOf(before), w.arrays, d.unpacked);
      ModifiersReachMore(before, d, w.modifiers);
      NamesReachMore(before, d, w.varName);
    }
  }

  // ----------------------------------------------------------------- pass two

  function SumNat(s: seq<nat>): nat {
    if s == [] then 0 else s[0] + SumNat(s[1..])
  }

  /** The blanks between the modifiers and the type keyword. */
  function KeywordGap(d: Decl, w: Widths): nat
    requires Covers(w, d)
  {
    var k := |d.modifiers|;
    (if k == 0 then 0 else w.modifiers[k - 1] + 1 - |d.modifiers[k - 1].text|)
    + (if k < |w.modifiers| then SumNat(w.modifiers[k..]) + |w.modifiers| - k else 0)
  }

  function FormattedModifiers(mods: seq<Token>, sizes: seq<nat>, lead: string): (r: seq<Token>)
    requires |mods| <= |sizes| && forall i :: 0 <= i < |mods| ==> |mods[i].text| <= sizes[i]
  {
    if mods == [] then []
    else
      var n := |mods| - 1;
      FormattedModifiers(mods[..n], sizes, lead) +
      [if n == 0 then Indented(mods[0], Indentation(lead, 0))
       else ReplaceSpacing(mods[n], sizes[n - 1] + 1 - |mods[n - 1].text|)]
  }

  /** How far the first packed dimension is from the type. */
  function TypeAlignment(d: Decl, w: Widths): (a: nat)
    requires Covers(w, d)
    ensures d.signing.None? ==> a == w.typeName - |d.keyword.text| && a >= 1
    ensures d.signing.Some? ==> a == w.typeName - TypeLength(d)
  {
    w.typeName - |d.keyword.text| - (if d.signing.Some? then 1 + |d.signing.value.text| else 0)
  }

  /** The blanks in front of the name; below zero the formatter's own assertion fails. */
  function NameGap(d: Decl, w: Widths): int
    requires Covers(w, d)
  {
    var r := Remaining(|d.packed|, w.types, TypeAlignment(d, w));
    (if r == 0 then 1 else r) + (if |w.types| != 0 && d.packed == [] then 1 else 0)
  }

  predicate Formattable(d: Decl, w: Widths)
    requires Covers(w, d)
  {
    NameGap(d, w) >= 0
  }

  function VarAlignment(d: Decl, w: Widths): (a: nat)
    requires Covers(w, d)
    ensures a >= 1
  {
    w.varName - |d.name.text| + 1
  }

  function Formatted(d: Decl, w: Widths, lead: string): Decl
    requires Covers(w, d) && Formattable(d, w)
  {
    Decl(FormattedModifiers(d.modifiers, w.modifiers, lead),
         if d.modifiers == [] then Indented(d.keyword, Indentation(lead, KeywordGap(d, w)))
         else ReplaceSpacing(d.keyword, KeywordGap(d, w)),
         if d.signing.Some? then Some(ReplaceSpacing(d.signing.value, 1)) else None,
         AlignedDims(d.packed, w.types, true, TypeAlignment(d, w)),
         ReplaceSpacing(d.name, NameGap(d, w)),
         AlignedDims(d.unpacked, w.arrays, true, VarAlignment(d, w)),
         ReplaceSpacing(d.semi, Remaining(|d.unpacked|, w.arrays, VarAlignment(d, w))))
  }

  // ------------------------------------------------------------------ columns

  /** What is printed before the type keyword's text. */
  function BeforeKeyword(d: Decl): string {
    RenderAll(d.modifiers) + RenderTrivia(d.keyword.trivia)
  }

  /** The type without its dimensions. */
  function TypeText(d: Decl): string {
    d.keyword.text + (if d.signing.Some? then Render(d.signing.value) else "")
  }

  /** What is printed before the declared name's text. */
  function BeforeName(d: Decl): string {
    (BeforeKeyword(d) + TypeText(d)) + (RenderAll(DimTokens(d.packed)) + RenderTrivia(d.name.trivia))
  }

  /** What is printed before the semicolon's text. */
  function BeforeSemi(d: Decl): string {
    BeforeName(d) + (d.name.text + (RenderAll(DimTokens(d.unpacked)) + RenderTrivia(d.semi.trivia)))
  }

  lemma {:induction false} SumNatSplit(s: seq<nat>, k: nat)
    requires k <= |s|
    ensures SumNat(s) == SumNat(s[..k]) + SumNat(s[k..])
  {
    if k == 0 {
      assert s[..0] == [] && s[0..] == s;
    } else {
      SumNatSplit(s[1..], k - 1);
      assert s[..k][1..] == s[1..][..k - 1] && s[1..][k - 1..] == s[k..];
    }
  }

  lemma SumNatSnoc(s: seq<nat>, n: nat)
    requires n < |s|
    ensures SumNat(s[..n + 1]) == SumNat(s[..n]) + s[n]
  {
    SumNatSplit(s[..n + 1], n);
    assert s[..n + 1][..n] == s[..n] && s[..n + 1][n..] == [s[n]];
    assert [s[n]][1..] == [];
  }

  lemma ColumnOfBlanks(start: nat, tok: Token, spaces: nat)
    ensures Column(start, RenderTrivia(ReplaceSpacing(tok, spaces).trivia)) == start + spaces
  {
    if spaces > 0 {
      RenderOne(Trivia(Whitespace, Repeat(' ', spaces)));
      ColumnOneLine(start, Repeat(' ', spaces));
    }
  }

  lemma ColumnOfSpaced(start: nat, tok: Token, spaces: nat)
    requires OneLine(tok.text)
    ensures Column(start, Render(ReplaceSpacing(tok, spaces))) == start + spaces + |tok.text|
    ensures Column(start, RenderTrivia(ReplaceSpacing(tok, spaces).trivia)) == start + spaces
  {
    ColumnOfBlanks(start, tok, spaces);
    RenderSpaced(tok, spaces);
    BlanksAreOneLine(spaces, tok.text);
    ColumnOneLine(start, Repeat(' ', spaces) + tok.text);
  }

  lemma ColumnOfIndented(start: nat, tok: Token, lead: string, extra: nat)
    requires OneLine(lead) && TriviaOk(tok.trivia) && OneLine(tok.text)
    ensures Column(start, RenderTrivia(Indented(tok, Indentation(lead, extra)).trivia)) == |lead| + extra
    ensures Column(start, Render(Indented(tok, Indentation(lead, extra)))) == |lead| + extra + |tok.text|
  {
    var ind := Indentation(lead, extra);
    IndentColumn(start, tok, ind);
    ColumnAppend(start, RenderTrivia(Indented(tok, ind).trivia), tok.text);
    ColumnOneLine(|ind.text|, tok.text);
  }

  /** Each modifier ends where its slot lets it. */
  lemma {:induction false} ModifiersColumn(start: nat, mods: seq<Token>, sizes: seq<nat>, lead: string)
    requires |mods| <= |sizes| && forall i :: 0 <= i < |mods| ==> |mods[i].text| <= sizes[i]
    requires forall i :: 0 <= i < |mods| ==> OneLine(mods[i].text) && TriviaOk(mods[i].trivia)
    requires OneLine(lead) && mods != []
    ensures var n := |mods| - 1;
      Column(start, RenderAll(FormattedModifiers(mods, sizes, lead))) == |lead| + SumNat(sizes[..n]) + n + |mods[n].text|
  {
    var n := |mods| - 1;
    if n == 0 {
      FirstModifierColumn(start, mods, sizes, lead);
    } else {
      ModifiersColumn(start, mods[..n], sizes, lead);
      assert mods[..n][n - 1] == mods[n - 1];
      NextModifierColumn(start, mods, sizes, lead);
    }
  }

  lemma FirstModifierColumn(start: nat, mods: seq<Token>, sizes: seq<nat>, lead: string)
    requires |mods| == 1 <= |sizes| && |mods[0].text| <= sizes[0]
    requires OneLine(lead) && OneLine(mods[0].text) && TriviaOk(mods[0].trivia)
    ensures SumNat(sizes[..0]) == 0
    ensures Column(start, RenderAll(FormattedModifiers(mods, sizes, lead))) == |lead| + |mods[0].text|
  {
    assert sizes[..0] == [] && mods[..0] == [];
    ColumnOfIndented(start, mods[0], lead, 0);
    OneMoreToken(start, [], Indented(mods[0], Indentation(lead, 0)), start, |lead| + |mods[0].text|);
  }

  lemma NextModifierColumn(start: nat, mods: seq<Token>, sizes: seq<nat>, lead: string)
    requires 2 <= |mods| <= |sizes| && forall i :: 0 <= i < |mods| ==> |mods[i].text| <= sizes[i]
    requires OneLine(mods[|mods| - 1].text)
    requires var n := |mods| - 1;
      Column(start, RenderAll(FormattedModifiers(mods[..n], sizes, lead)))
      == |lead| + SumNat(sizes[..n - 1]) + n - 1 + |mods[n - 1].text|
    ensures var n := |mods| - 1;
      Column(start, RenderAll(FormattedModifiers(mods, sizes, lead))) == |lead| + SumNat(sizes[..n]) + n + |mods[n].text|
  {
    var n := |mods| - 1;
    var gap := sizes[n - 1] + 1 - |mods[n - 1].text|;
    var c := |lead| + SumNat(sizes[..n - 1]) + n - 1 + |mods[n - 1].text|;
    SumNatSnoc(sizes, n - 1);
    ColumnOfSpaced(c, mods[n], gap);
    OneMoreToken(start, FormattedModifiers(mods[..n], sizes, lead), ReplaceSpacing(mods[n], gap), c, c + gap + |mods[n].text|);
  }

  lemma OneMoreToken(start: nat, toks: seq<Token>, tok: Token, c: nat, c': nat)
    requires Column(start, RenderAll(toks)) == c && Column(c, Render(tok)) == c'
    ensures Column(start, RenderAll(toks + [tok])) == c'
  {
    RenderSingle(tok);
    RenderAllAppend(toks, [tok]);
    ColumnAppend(start, RenderAll(toks), Render(tok));
  }

  lemma ColumnOfTwo(start: nat, a: string, b: string, c: nat, c': nat)
    requires Column(start, a) == c && Column(c, b) == c'
    ensures Column(start, a + b) == c'
  {
    ColumnAppend(start, a, b);
  }

  /** Where every type keyword starts. */
  function KeywordColumn(w: Widths, lead: string): nat {
    |lead| + SumNat(w.modifiers) + |w.modifiers|
  }

  lemma KeywordAligned(start: nat, d: Decl, w: Widths, lead: string)
    requires WellFormed(d) && Covers(w, d) && Formattable(d, w) && OneLine(lead)
    ensures Column(start, BeforeKeyword(Formatted(d, w, lead))) == KeywordColumn(w, lead)
  {
    KeywordGapFillsSlots(d, w);
    if d.modifiers == [] {
      ColumnOfIndented(start, d.keyword, lead, KeywordGap(d, w));
      ColumnOfTwo(start, "", RenderTrivia(Formatted(d, w, lead).keyword.trivia), start, |lead| + KeywordGap(d, w));
    } else {
      KeywordAfterModifiers(start, d, w, lead);
    }
  }

  lemma KeywordAfterModifiers(start: nat, d: Decl, w: Widths, lead: string)
    requires WellFormed(d) && Covers(w, d) && OneLine(lead) && d.modifiers != []
    ensures var k := |d.modifiers|;
      Column(start, RenderAll(FormattedModifiers(d.modifiers, w.modifiers, lead))
                    + RenderTrivia(ReplaceSpacing(d.keyword, KeywordGap(d, w)).trivia))
      == |lead| + SumNat(w.modifiers[..k - 1]) + k - 1 + |d.modifiers[k - 1].text| + KeywordGap(d, w)
  {
    var k, gap := |d.modifiers|, KeywordGap(d, w);
    var c := |lead| + SumNat(w.modifiers[..k - 1]) + k - 1 + |d.modifiers[k - 1].text|;
    ModifiersColumn(start, d.modifiers, w.modifiers, lead);
    ColumnOfBlanks(c, d.keyword, gap);
    ColumnOfTwo(start, RenderAll(FormattedModifiers(d.modifiers, w.modifiers, lead)),
                RenderTrivia(ReplaceSpacing(d.keyword, gap).trivia), c, c + gap);
  }

  /** The gap makes up for the rest of the last slot used and for all the slots not used. */
  lemma KeywordGapFillsSlots(d: Decl, w: Widths)
    requires Covers(w, d)
    ensures var k := |d.modifiers|;
      SumNat(w.modifiers) + |w.modifiers| ==
        KeywordGap(d, w) + (if k == 0 then 0 else SumNat(w.modifiers[..k - 1]) + k - 1 + |d.modifiers[k - 1].text|)
  {
    var k := |d.modifiers|;
    SumNatSplit(w.modifiers, k);
    assert w.modifiers[..|w.modifiers|] == w.modifiers && w.modifiers[0..] == w.modifiers;
    if k > 0 {
      SumNatSnoc(w.modifiers, k - 1);
    }
  }

  lemma TypeTextColumn(start: nat, d: Decl, w: Widths, lead: string)
    requires WellFormed(d) && Covers(w, d) && Formattable(d, w)
    ensures Column(start, TypeText(Formatted(d, w, lead))) == start + w.typeName - TypeAlignment(d, w)
  {
    var kw := d.keyword.text;
    ColumnOneLine(start, kw);
    match d.signing {
      case None => assert kw + "" == kw;
      case Some(s) =>
        ColumnAppend(start, kw, Render(ReplaceSpacing(s, 1)));
        ColumnOfSpaced(start + |kw|, s, 1);
    }
  }

  /** How far a name ends up from the common column. */
  function Offset(d: Decl, w: Widths): int
    requires Covers(w, d)
  {
    if |w.types| == 0 then if TypeAlignment(d, w) >= 2 then -1 else 0
    else (if d.packed != [] && TypeAlignment(d, w) == 0 then 1 else 0) - DimsSlack(d.packed)
  }

  /** The column at which names are meant to start. */
  function NameColumn(w: Widths, lead: string): nat {
    KeywordColumn(w, lead) + w.typeName + (if |w.types| == 0 then 0 else 3 * |w.types| + SumSizes(w.types) + 1)
  }

  /** A declaration can be formatted unless the block has no packed dimension at all and its own
      type, signing included, is the longest. */
  lemma FormattableExactly(d: Decl, w: Widths)
    requires Covers(w, d)
    ensures Formattable(d, w) <==> |w.types| > 0 || TypeAlignment(d, w) > 0
    ensures TypeAlignment(d, w) == 0 <==> d.signing.Some? && TypeLength(d) == w.typeName
  {
  }

  /** Every name starts at the common column, but for its offset. */
  lemma NameStartsAt(start: nat, d: Decl, w: Widths, lead: string)
    requires WellFormed(d) && Covers(w, d) && Formattable(d, w) && OneLine(lead)
    ensures Column(start, BeforeName(Formatted(d, w, lead))) == NameColumn(w, lead) + Offset(d, w)
  {
    var f, a := Formatted(d, w, lead), TypeAlignment(d, w);
    var kw := KeywordColumn(w, lead);
    var c := kw + w.typeName - a;
    KeywordAligned(start, d, w, lead);
    TypeTextColumn(kw, d, w, lead);
    ColumnOfTwo(start, BeforeKeyword(f), TypeText(f), kw, c);
    ColumnOfDims(c, d.packed, w.types, a, d.name, NameGap(d, w));
    var width := |RenderAll(DimTokens(f.packed))|;
    ColumnOfTwo(start, BeforeKeyword(f) + TypeText(f), RenderAll(DimTokens(f.packed)) + RenderTrivia(f.name.trivia),
                c, c + width + NameGap(d, w));
    WidthLaw(d.packed, w.types, a);
  }

  /** Aligned dimensions and the blanks in front of the next token. */
  lemma ColumnOfDims(c: nat, dims: seq<Dim>, sizes: Sizes, a: nat, next: Token, gap: nat)
    requires AllFit(dims, sizes) && AllFlat(dims)
    ensures var s := RenderAll(DimTokens(AlignedDims(dims, sizes, true, a)));
      Column(c, s + RenderTrivia(ReplaceSpacing(next, gap).trivia)) == c + |s| + gap
  {
    var s := RenderAll(DimTokens(AlignedDims(dims, sizes, true, a)));
    AlignedDimsWidth(dims, sizes, true, a);
    ColumnOneLine(c, s);
    ColumnOfBlanks(c + |s|, next, gap);
    ColumnOfTwo(c, s, RenderTrivia(ReplaceSpacing(next, gap).trivia), c + |s|, c + |s| + gap);
  }

  /** Two declarations of a block have their names in the same column exactly when their offsets
      are the same. */
  lemma NamesAlignExactly(start: nat, start': nat, d: Decl, e: Decl, w: Widths, lead: string)
    requires WellFormed(d) && Covers(w, d) && Formattable(d, w)
    requires WellFormed(e) && Covers(w, e) && Formattable(e, w) && OneLine(lead)
    ensures Column(start, BeforeName(Formatted(d, w, lead))) == Column(start', BeforeName(Formatted(e, w, lead)))
       <==> Offset(d, w) == Offset(e, w)
  {
    NameStartsAt(start, d, w, lead);
    NameStartsAt(start', e, w, lead);
  }

  /** The blocks the alignment is meant for: unsigned, written without stray blanks. */
  ghost predicate Plain(d: Decl) {
    WellFormed(d) && d.signing.None? && CompactDims(d.packed) && CompactDims(d.unpacked)
  }

  /** In a plain block every declaration can be formatted and every name starts at one column,
      whatever modifiers and however many packed dimensions each declaration has. */
  lemma PlainBlockAligned(decls: seq<Decl>, i: nat, start: nat, lead: string)
    requires forall j :: 0 <= j < |decls| ==> Plain(decls[j])
    requires i < |decls| && OneLine(lead)
    ensures var w := MeasuredAll(decls);
      && Covers(w, decls[i]) && Formattable(decls[i], w)
      && Column(start, BeforeName(Formatted(decls[i], w, lead))) == NameColumn(w, lead)
  {
    var w := MeasuredAll(decls);
    BlockIsCovered(decls);
    var j :| 0 <= j < |decls| && TypeLength(decls[j]) == w.typeName;
    assert Plain(decls[j]) && Plain(decls[i]);
    FormattableExactly(decls[i], w);
    CompactDimsHaveNoSlack(decls[i].packed);
    NameStartsAt(start, decls[i], w, lead);
  }

  /** A block without packed dimensions can be formatted exactly when none of it is signed. */
  lemma DimensionlessBlockFormattable(decls: seq<Decl>)
    requires decls != [] && (forall j :: 0 <= j < |decls| ==> WellFormed(decls[j]))
    requires forall j :: 0 <= j < |decls| && decls[j].signing.Some? ==> decls[j].signing.value.text != ""
    requires MeasuredAll(decls).types == []
    ensures (forall j :: 0 <= j < |decls| ==> Covers(MeasuredAll(decls), decls[j]) && Formattable(decls[j], MeasuredAll(decls)))
       <==> (forall j :: 0 <= j < |decls| ==> decls[j].signing.None?)
  {
    var w := MeasuredAll(decls);
    BlockIsCovered(decls);
    var m :| 0 <= m < |decls| && TypeLength(decls[m]) == w.typeName;
    forall j | 0 <= j < |decls| ensures Formattable(decls[j], w) <==> TypeAlignment(decls[j], w) > 0 {
      FormattableExactly(decls[j], w);
    }
    if decls[m].signing.None? {
      forall j | 0 <= j < |decls| ensures decls[j].signing.None? {
        assert TypeLength(decls[j]) <= TypeLength(decls[m]);
      }
    } else {
      assert !Formattable(decls[m], w);
    }
  }

  // -------------------------------------------------------------- semicolons

  predicate Partial(d: Decl, w: Widths) {
    0 < |d.unpacked| < |w.arrays|
  }

  function SemiColumn(w: Widths, lead: string): nat {
    NameColumn(w, lead) + w.varName + (if |w.arrays| == 0 then 0 else 1 + 3 * |w.arrays| + SumSizes(w.arrays))
  }

  /** In a plain block the semicolon follows at one column, except that a declaration with some but
      not all of the unpacked dimensions of the block has it one column further. */
  lemma SemicolonStartsAt(decls: seq<Decl>, i: nat, start: nat, lead: string)
    requires forall j :: 0 <= j < |decls| ==> Plain(decls[j])
    requires i < |decls| && OneLine(lead)
    ensures var w := MeasuredAll(decls);
      && Covers(w, decls[i]) && Formattable(decls[i], w)
      && Column(start, BeforeSemi(Formatted(decls[i], w, lead)))
         == SemiColumn(w, lead) + (if Partial(decls[i], w) then 1 else 0)
  {
    var d, w := decls[i], MeasuredAll(decls);
    PlainBlockAligned(decls, i, start, lead);
    var f, a, c := Formatted(d, w, lead), VarAlignment(d, w), NameColumn(w, lead);
    var gap: nat := Remaining(|d.unpacked|, w.arrays, a);
    var dims := RenderAll(DimTokens(f.unpacked));
    var tail := dims + RenderTrivia(f.semi.trivia);
    var c' := c + |d.name.text|;
    assert Plain(d);
    ColumnOneLine(c, d.name.text);
    ColumnOfDims(c', d.unpacked, w.arrays, a, d.semi, gap);
    ColumnOfTwo(c, d.name.text, tail, c', c' + |dims| + gap);
    ColumnOfTwo(start, BeforeName(f), d.name.text + tail, c, c' + |dims| + gap);
    CompactDimsHaveNoSlack(d.unpacked);
    WidthLaw(d.unpacked, w.arrays, a);
  }

  /** The semicolons of a plain block are aligned exactly when all or none of its declarations
      have only part of the unpacked dimensions. */
  lemma SemicolonsAlignExactly(decls: seq<Decl>, starts: seq<nat>, lead: string)
    requires forall j :: 0 <= j < |decls| ==> Plain(decls[j])
    requires |starts| == |decls| && OneLine(lead)
    ensures forall i :: 0 <= i < |decls| ==> Covers(MeasuredAll(decls), decls[i]) && Formattable(decls[i], MeasuredAll(decls))
    ensures var w := MeasuredAll(decls);
      (forall i, j :: 0 <= i < |decls| && 0 <= j < |decls| ==>
         Column(starts[i], BeforeSemi(Formatted(decls[i], w, lead))) == Column(starts[j], BeforeSemi(Formatted(decls[j], w, lead))))
      <==>
      (forall i, j :: 0 <= i < |decls| && 0 <= j < |decls| ==> Partial(decls[i], w) == Partial(decls[j], w))
  {
    var w := MeasuredAll(decls);
    forall i | 0 <= i < |decls|
      ensures Covers(w, decls[i]) && Formattable(decls[i], w)
      ensures Column(starts[i], BeforeSemi(Formatted(decls[i], w, lead)))
           == SemiColumn(w, lead) + (if Partial(decls[i], w) then 1 else 0)
    {
      SemicolonStartsAt(decls, i, starts[i], lead);
    }
  }

  // ------------------------------------------- where names do not line up

  /** A signed declaration of the longest type in its block, with a packed dimension, has its name
      one column to the right of every unsigned one. */
  lemma SignedNamesShift(start: nat, start': nat, d: Decl, e: Decl, w: Widths, lead: string)
    requires WellFormed(d) && Covers(w, d) && WellFormed(e) && Covers(w, e) && OneLine(lead)
    requires CompactDims(d.packed) && CompactDims(e.packed) && d.packed != []
    requires d.signing.Some? && TypeLength(d) == w.typeName && e.signing.None?
    ensures Formattable(d, w) && Formattable(e, w)
    ensures Column(start, BeforeName(Formatted(d, w, lead))) == Column(start', BeforeName(Formatted(e, w, lead))) + 1
  {
    CompactDimsHaveNoSlack(d.packed);
    CompactDimsHaveNoSlack(e.packed);
    NameStartsAt(start, d, w, lead);
    NameStartsAt(start', e, w, lead);
  }

  /** The expression with a blank in front. */
  function Blanked(e: Expr): Expr {
    [Token([BLANK], e[0].text)] + e[1..]
  }

  function BlankedDim(d: Dim): Dim {
    match d
    case Range(open, left, colon, right, close) => Range(open, Blanked(left), colon, right, close)
    case Bit(open, expr, close) => Bit(open, Blanked(expr), close)
  }

  /** Nothing in front of the first expression of a dimension. */
  predicate Bare(d: Dim) {
    match d
    case Range(_, left, _, _, _) => left[0].trivia == []
    case Bit(_, expr, _) => expr[0].trivia == []
  }

  /** A blank in front of an expression is counted in its width but not printed back. */
  lemma LeadingBlankIsSlack(e: Expr)
    requires e[0].trivia == []
    ensures Slack(Blanked(e)) == Slack(e) + 1
  {
    var e' := Blanked(e);
    assert e'[1..] == e[1..];
    assert e'[0].trivia[0].kind == Whitespace;
  }

  lemma {:induction false} BlankedSlack(dims: seq<Dim>, i: nat)
    requires i < |dims| && Bare(dims[i])
    ensures DimsSlack(dims[i := BlankedDim(dims[i])]) == DimsSlack(dims) + 1
  {
    var dims' := dims[i := BlankedDim(dims[i])];
    if i == 0 {
      assert dims'[1..] == dims[1..];
      match dims[0] {
        case Range(_, left, _, _, _) => LeadingBlankIsSlack(left);
        case Bit(_, expr, _) => LeadingBlankIsSlack(expr);
      }
    } else {
      BlankedSlack(dims[1..], i - 1);
      assert dims'[1..] == dims[1..][i - 1 := BlankedDim(dims[i])];
    }
  }

  /** Such a blank moves the declared name one column to the left of where it would be. */
  lemma LeadingBlankMovesTheName(start: nat, d: Decl, i: nat, w: Widths, lead: string)
    requires i < |d.packed| && Bare(d.packed[i]) && OneLine(lead)
    requires WellFormed(d) && Covers(w, d)
    requires var d' := d.(packed := d.packed[i := BlankedDim(d.packed[i])]); WellFormed(d') && Covers(w, d')
    ensures var d' := d.(packed := d.packed[i := BlankedDim(d.packed[i])]);
      && Formattable(d, w) && Formattable(d', w)
      && Column(start, BeforeName(Formatted(d', w, lead))) == Column(start, BeforeName(Formatted(d, w, lead))) - 1
  {
    var d' := d.(packed := d.packed[i := BlankedDim(d.packed[i])]);
    FormattableExactly(d, w);
    FormattableExactly(d', w);
    NameStartsAt(start, d, w, lead);
    NameStartsAt(start, d', w, lead);
    BlankedSlack(d.packed, i);
  }

  function Bracketed(high: string): Dim {
    Range(Token([], "["), [Token([], high)], Token([], ":"), [Token([], "0")], Token([], "]"))
  }

  /** logic signed [7:0] a; logic [7:0] b; */
  const SIGNED := Decl([], Token([], "logic"), Some(Token([], "signed")), [Bracketed("7")], Token([], "a"), [], Token([], ";"))
  const UNSIGNED := Decl([], Token([], "logic"), None, [Bracketed("7")], Token([], "b"), [], Token([], ";"))

  lemma MixedBlockMisaligned(lead: string)
    requires OneLine(lead)
    ensures var w := MeasuredAll([SIGNED, UNSIGNED]);
      && Covers(w, SIGNED) && Formattable(SIGNED, w) && Covers(w, UNSIGNED) && Formattable(UNSIGNED, w)
      && Column(0, BeforeName(Formatted(SIGNED, w, lead))) != Column(0, BeforeName(Formatted(UNSIGNED, w, lead)))
  {
    var w := MeasuredAll([SIGNED, UNSIGNED]);
    MixedBlockWidth();
    MixedBlockIsPlain();
    SignedNamesShift(0, 0, SIGNED, UNSIGNED, w, lead);
  }

  lemma MixedBlockIsPlain()
    ensures WellFormed(SIGNED) && WellFormed(UNSIGNED) && CompactDims(SIGNED.packed) && CompactDims(UNSIGNED.packed)
    ensures TypeLength(SIGNED) == 12
  {
    assert RawText([Token([], "7")]) == "7" && RawText([Token([], "0")]) == "0";
  }

  lemma MixedBlockWidth()
    ensures var w := MeasuredAll([SIGNED, UNSIGNED]); w.typeName == 12 && Covers(w, SIGNED) && Covers(w, UNSIGNED)
  {
    BlockIsCovered([SIGNED, UNSIGNED]);
    assert [SIGNED, UNSIGNED][0] == SIGNED && [SIGNED, UNSIGNED][1] == UNSIGNED;
    assert [SIGNED, UNSIGNED][..1] == [SIGNED] && [SIGNED][..0] == [];
    assert MeasuredAll([SIGNED]) == Measured(NO_WIDTHS, SIGNED);
  }

  // --------------------------------------------------------------- the object

  function FormattedAll(decls: seq<Decl>, w: Widths, lead: string): seq<Option<Decl>>
    requires forall i :: 0 <= i < |decls| ==> Covers(w, decls[i])
  {
    seq(|decls|, i requires 0 <= i < |decls| =>
      if Formattable(decls[i], w) then Some(Formatted(decls[i], w, lead)) else None)
  }

  /** A block, formatted with the widths gathered over it. */
  function FormattedBlock(decls: seq<Decl>, lead: string): seq<Option<Decl>> {
    BlockIsCovered(decls);
    FormattedAll(decls, MeasuredAll(decls), lead)
  }

  /** Kinds of syntax nodes, by which a block may be told from the next one. */
  datatype Kind = LogicType | NamedType | Port | Assignment | Instantiation

  class DeclarationFormatter {
    var widths: Widths
    var toFormat: seq<Decl>
    var blockKind: Option<Kind>         // that of the first node ever met; nothing resets it
    const isKind: (Kind, Kind) -> bool  // the test of the syntax library
    const manager: SpacingManager

    /** The widths are those of the declarations waiting to be formatted. */
    ghost predicate Valid()
      reads this
    {
      widths == MeasuredAll(toFormat)
    }

    constructor (m: SpacingManager, isKind: (Kind, Kind) -> bool)
      ensures Valid() && toFormat == [] && blockKind == None && manager == m && this.isKind == isKind
    {
      widths, toFormat, blockKind, manager, this.isKind := NO_WIDTHS, [], None, m, isKind;
    }

    /** The kind of the blocks, from such a node on. */
    function KindFrom(kind: Kind): Kind
      reads this
    {
      if blockKind.Some? then blockKind.value else kind
    }

    /** By its kind, the node does not belong into the current block. */
    predicate Differs(kind: Kind)
      reads this
    {
      !isKind(kind, KindFrom(kind))
    }

    /** A node of another kind, or any node when forced, closes the current block. */
    method SwitchBlockKind(kind: Kind, force: bool) returns (formatted: seq<Option<Decl>>)
      requires Valid()
      modifies this
      ensures Valid() && blockKind == Some(old(KindFrom(kind)))
      ensures if force || old(Differs(kind))
              then toFormat == [] && formatted == FormattedBlock(old(toFormat), manager.Lead())
              else toFormat == old(toFormat) && formatted == []
    {
      formatted := [];
      if blockKind.None? {
        blockKind := Some(kind);
      }
      if force || !isKind(kind, blockKind.value) {
        formatted := ProcessPendingFormats();
      }
    }

    /** Reads the widths of one more declaration. */
    method ReadWidths(d: Decl)
      modifies this`widths
      ensures widths == Measured(old(widths), d)
    {
      var modifiers := TokensToVector(d.modifiers, widths.modifiers);
      var types := DimensionSyntaxToVector(d.packed, widths.types);
      var arrays := DimensionSyntaxToVector(d.unpacked, widths.arrays);
      widths := Widths(modifiers, types, arrays, Max(widths.typeName, TypeLength(d)), Max(widths.varName, |d.name.text|));
    }

    method StoreFormat(d: Decl) returns (formatted: seq<Option<Decl>>)
      requires Valid()
      modifies this
      ensures Valid() && blockKind == Some(old(KindFrom(LogicType)))
      ensures if old(Differs(LogicType))
              then toFormat == [d] && formatted == FormattedBlock(old(toFormat), manager.Lead())
              else toFormat == old(toFormat) + [d] && formatted == []
    {
      formatted := SwitchBlockKind(LogicType, false);
      ReadWidths(d);
      assert (toFormat + [d])[..|toFormat|] == toFormat;
      toFormat := toFormat + [d];
    }

    method FormatModifiers(d: Decl) returns (toks: seq<Token>, next: int)
      requires Covers(widths, d)
      ensures toks == FormattedModifiers(d.modifiers, widths.modifiers, manager.Lead())
      ensures next == KeywordGap(d, widths)
    {
      next := 0;
      toks := [];
      var firstElement := true;
      for id := 0 to |d.modifiers|
        invariant firstElement == (id == 0)
        invariant next == if id == 0 then 0 else widths.modifiers[id - 1] + 1 - |d.modifiers[id - 1].text|
        invariant toks == FormattedModifiers(d.modifiers[..id], widths.modifiers, manager.Lead())
      {
        var tok := d.modifiers[id];
        assert d.modifiers[..id + 1][..id] == d.modifiers[..id];
        if firstElement {
          firstElement := false;
          var t := manager.Indent(tok, 0);
          toks := toks + [t];
        } else {
          toks := toks + [ReplaceSpacing(tok, next)];
        }
        next := widths.modifiers[id] + 1 - |tok.text|;
      }
      assert d.modifiers[..|d.modifiers|] == d.modifiers;
      if |d.modifiers| < |widths.modifiers| {
        next := next + SumNat(widths.modifiers[|d.modifiers|..]) + |widths.modifiers| - |d.modifiers|;
      }
      if |d.modifiers| != 0 && next == 0 {
        next := 1;
      }
    }

    /** The dimensions are cloned, then rewritten in place. */
    method AlignCloned(dims: seq<Dim>, sizes: Sizes, alignment: nat) returns (r: seq<Dim>, remaining: int)
      requires AllFit(dims, sizes)
      ensures r == AlignedDims(dims, sizes, true, alignment)
      ensures remaining == Remaining(|dims|, sizes, alignment)
    {
      var work := new Dim[|dims|](i requires 0 <= i < |dims| => dims[i]);
      assert work[..] == dims;
      remaining := AlignDimension(work, sizes, alignment);
      r := work[..];
    }

    method FormatDataType(d: Decl, next: nat) returns (keyword: Token, signing: Option<Token>, packed: seq<Dim>, remaining: int)
      requires Covers(widths, d)
      ensures keyword == if d.modifiers == [] then Indented(d.keyword, Indentation(manager.Lead(), next))
                         else ReplaceSpacing(d.keyword, next)
      ensures signing == if d.signing.Some? then Some(ReplaceSpacing(d.signing.value, 1)) else None
      ensures packed == AlignedDims(d.packed, widths.types, true, TypeAlignment(d, widths))
      ensures remaining == NameGap(d, widths)
    {
      if |d.modifiers| == 0 {
        keyword := manager.Indent(d.keyword, next);
      } else {
        keyword := ReplaceSpacing(d.keyword, next);
      }
      signing := None;
      var alignment := widths.typeName - |d.keyword.text|;
      if d.signing.Some? {
        signing := Some(ReplaceSpacing(d.signing.value, 1));
        alignment := alignment - (1 + |d.signing.value.text|);
      }
      packed, remaining := AlignCloned(d.packed, widths.types, alignment);
      if remaining == 0 {
        remaining := 1;
      }
      if |widths.types| != 0 && |d.packed| == 0 {
        remaining := remaining + 1;
      }
    }

    /** Pads one declaration; None stands for the failed assertion on a negative spacing. */
    method Format(d: Decl) returns (r: Option<Decl>)
      requires Covers(widths, d)
      ensures r == if Formattable(d, widths) then Some(Formatted(d, widths, manager.Lead())) else None
    {
      var modifiers, next := FormatModifiers(d);
      var keyword, signing, packed, remaining := FormatDataType(d, next);
      if remaining < 0 {
        return None;
      }
      var name := ReplaceSpacing(d.name, remaining);
      var unpacked;
      unpacked, remaining := AlignCloned(d.unpacked, widths.arrays, widths.varName - |d.name.text| + 1);
      return Some(Decl(modifiers, keyword, signing, packed, name, unpacked, ReplaceSpacing(d.semi, remaining)));
    }

    /** Formats the waiting declarations with the widths of their block, and starts a new block. */
    method ProcessPendingFormats() returns (formatted: seq<Option<Decl>>)
      requires Valid()
      modifies this`widths, this`toFormat
      ensures Valid() && toFormat == []
      ensures formatted == FormattedBlock(old(toFormat), manager.Lead())
    {
      BlockIsCovered(toFormat);
      formatted := FormatAll(toFormat);
      widths, toFormat := NO_WIDTHS, [];
    }

    method FormatAll(decls: seq<Decl>) returns (formatted: seq<Option<Decl>>)
      requires forall i :: 0 <= i < |decls| ==> Covers(widths, decls[i])
      ensures formatted == FormattedAll(decls, widths, manager.Lead())
    {
      formatted := [];
      for i := 0 to |decls|
        invariant |formatted| == i
        invariant forall j :: 0 <= j < i ==> formatted[j] == FormattedAll(decls, widths, manager.Lead())[j]
      {
        var d := Format(decls[i]);
        formatted := formatted + [d];
      }
    }

    /** An empty line in front of a declaration closes the current block. */
    method SplitBlock(d: Decl) returns (formatted: seq<Option<Decl>>)
      requires Valid()
      modifies this`widths, this`toFormat
      ensures Valid()
      ensures if StartsBlock(d) then toFormat == [] && formatted == FormattedBlock(old(toFormat), manager.Lead())
              else toFormat == old(toFormat) && formatted == []
    {
      var nbNewlines := CountNewlines(FirstToken(d).trivia);
      if nbNewlines == 2 {
        formatted := ProcessPendingFormats();
      } else {
        formatted := [];
      }
    }

    /** A declaration met by the visitor: an empty line in front of it, or a kind that does not fit,
        closes the current block. */
    method Handle(d: Decl) returns (formatted: seq<Option<Decl>>)
      requires Valid()
      modifies this
      ensures Valid() && blockKind == Some(old(KindFrom(LogicType)))
      ensures if StartsBlock(d) || old(Differs(LogicType))
              then toFormat == [d] && formatted == FormattedBlock(old(toFormat), manager.Lead())
              else toFormat == old(toFormat) + [d] && formatted == []
    {
      NothingWaiting(manager.Lead());
      var first := SplitBlock(d);
      var second := StoreFormat(d);
      formatted := first + second;
    }
  }

  lemma NothingWaiting(lead: string)
    ensures FormattedBlock([], lead) == []
  {
  }

  /** Counts line ends, at most two. */
  method CountNewlines(trivia: seq<Trivia>) returns (n: nat)
    ensures n == if Newlines(trivia) >= 2 then 2 else Newlines(trivia)
  {
    n := 0;
    var i := 0;
    while i < |trivia| && n < 2
      invariant i <= |trivia| && n <= 2
      invariant n == Newlines(trivia[..i])
    {
      assert trivia[..i + 1][..i] == trivia[..i];
      if trivia[i].kind == EndOfLine {
        n := n + 1;
      }
      i := i + 1;
    }
    NewlinesGrow(trivia, i);
    assert i == |trivia| ==> trivia[..i] == trivia;
  }

  function FirstToken(d: Decl): Token {
    if d.modifiers != [] then d.modifiers[0] else d.keyword
  }

  function Newlines(trivia: seq<Trivia>): nat {
    if trivia == [] then 0
    else Newlines(trivia[..|trivia| - 1]) + (if trivia[|trivia| - 1].kind == EndOfLine then 1 else 0)
  }

  function LineEnds(trivia: seq<Trivia>): set<int> {
    set i | 0 <= i < |trivia| && trivia[i].kind == EndOfLine
  }

  lemma LineEndsSnoc(trivia: seq<Trivia>, t: Trivia)
    ensures LineEnds(trivia + [t]) == if t.kind == EndOfLine then LineEnds(trivia) + {|trivia|} else LineEnds(trivia)
  {
    assert forall i :: 0 <= i < |trivia| ==> (trivia + [t])[i] == trivia[i];
  }

  /** The ends of lines among the trivia, counted one by one. */
  lemma {:induction false} NewlinesExactly(trivia: seq<Trivia>)
    ensures Newlines(trivia) == |LineEnds(trivia)|
  {
    if trivia == [] {
      assert LineEnds(trivia) == {};
    } else {
      var n := |trivia| - 1;
      NewlinesExactly(trivia[..n]);
      LineEndsSnoc(trivia[..n], trivia[n]);
      assert trivia == trivia[..n] + [trivia[n]];
    }
  }

  /** The declaration comes after an empty line. */
  predicate StartsBlock(d: Decl) {
    Newlines(FirstToken(d).trivia) >= 2
  }

  lemma {:induction false} NewlinesGrow(trivia: seq<Trivia>, i: nat)
    requires i <= |trivia|
    ensures Newlines(trivia[..i]) <= Newlines(trivia)
    decreases |trivia|
  {
    if i < |trivia| {
      NewlinesGrow(trivia[..|trivia| - 1], i);
      assert trivia[..|trivia| - 1][..i] == trivia[..i];
    } else {
      assert trivia[..i] == trivia;
    }
  }
}

/** What formatting keeps: every token, and which of the comments. */
module FormatKeeps {
  import opened Spacing
  import opened Dimensions
  import opened Declarations

  function AllTokens(d: Decl): seq<Token> {
    d.modifiers + ([d.keyword] + ((if d.signing.Some? then [d.signing.value] else [])
    + (DimTokens(d.packed) + ([d.name] + (DimTokens(d.unpacked) + [d.semi])))))
  }

  function Texts(toks: seq<Token>): seq<string> {
    seq(|toks|, i requires 0 <= i < |toks| => toks[i].text)
  }

  lemma TextsAppend(a: seq<Token>, b: seq<Token>, c: seq<Token>, d: seq<Token>)
    requires Texts(a) == Texts(c) && Texts(b) == Texts(d)
    ensures Texts(a + b) == Texts(c + d)
  {
    assert Texts(a + b) == Texts(a) + Texts(b);
    assert Texts(c + d) == Texts(c) + Texts(d);
  }

  lemma {:induction false} ModifierTexts(mods: seq<Token>, sizes: seq<nat>, lead: string)
    requires |mods| <= |sizes| && forall i :: 0 <= i < |mods| ==> |mods[i].text| <= sizes[i]
    ensures Texts(FormattedModifiers(mods, sizes, lead)) == Texts(mods)
  {
    if mods != [] {
      var n := |mods| - 1;
      var before := FormattedModifiers(mods[..n], sizes, lead);
      var r := FormattedModifiers(mods, sizes, lead);
      ModifierTexts(mods[..n], sizes, lead);
      assert r == before + [r[|before|]] && mods == mods[..n] + [mods[n]];
      TextsAppend(before, [r[|before|]], mods[..n], [mods[n]]);
    }
  }

  lemma DimTexts(d: Dim, size: (nat, nat), first: bool, a: nat)
    requires Fits(d, size)
    ensures Texts(TokensOf(AlignedDim(d, size, first, a))) == Texts(TokensOf(d))
  {
    var r := AlignedDim(d, size, first, a);
    match d {
      case Range(open, left, colon, right, close) =>
        ExprTexts(left, size.0);
        ExprTexts(right, size.1);
        TextsAppend([r.open], r.left, [open], left);
        TextsAppend([r.open] + r.left, [r.colon], [open] + left, [colon]);
        TextsAppend([r.open] + r.left + [r.colon], r.right, [open] + left + [colon], right);
        TextsAppend([r.open] + r.left + [r.colon] + r.right, [r.close], [open] + left + [colon] + right, [close]);
      case Bit(open, expr, close) =>
        ExprTexts(expr, 1 + size.0 + size.1);
        TextsAppend([r.open], r.expr, [open], expr);
        TextsAppend([r.open] + r.expr, [r.close], [open] + expr, [close]);
    }
  }

  lemma ExprTexts(e: Expr, size: nat)
    requires |RawText(e)| <= size
    ensures Texts(AlignedExpr(e, size)) == Texts(e)
  {
    var r := AlignedExpr(e, size);
    assert e == [e[0]] + e[1..];
    TextsAppend([r[0]], e[1..], [e[0]], e[1..]);
  }

  lemma {:induction false} DimsTexts(dims: seq<Dim>, sizes: Sizes, first: bool, a: nat)
    requires AllFit(dims, sizes)
    ensures Texts(DimTokens(AlignedDims(dims, sizes, first, a))) == Texts(DimTokens(dims))
  {
    if dims != [] {
      var d, rest := AlignedDim(dims[0], sizes[0], first, a), AlignedDims(dims[1..], sizes[1..], false, a);
      DimTexts(dims[0], sizes[0], first, a);
      DimsTexts(dims[1..], sizes[1..], false, a);
      assert ([d] + rest)[1..] == rest;
      TextsAppend(TokensOf(d), DimTokens(rest), TokensOf(dims[0]), DimTokens(dims[1..]));
    }
  }

  /** Formatting changes only what is between the tokens. */
  lemma TokensArePreserved(d: Decl, w: Widths, lead: string)
    requires Covers(w, d) && Formattable(d, w)
    ensures Texts(AllTokens(Formatted(d, w, lead))) == Texts(AllTokens(d))
  {
    var f := Formatted(d, w, lead);
    ModifierTexts(d.modifiers, w.modifiers, lead);
    DimsTexts(d.packed, w.types, true, TypeAlignment(d, w));
    DimsTexts(d.unpacked, w.arrays, true, VarAlignment(d, w));
    var sf := if f.signing.Some? then [f.signing.value] else [];
    var sd := if d.signing.Some? then [d.signing.value] else [];
    TextsAppend(DimTokens(f.unpacked), [f.semi], DimTokens(d.unpacked), [d.semi]);
    var (f1, d1) := (DimTokens(f.unpacked) + [f.semi], DimTokens(d.unpacked) + [d.semi]);
    TextsAppend([f.name], f1, [d.name], d1);
    var (f2, d2) := ([f.name] + f1, [d.name] + d1);
    TextsAppend(DimTokens(f.packed), f2, DimTokens(d.packed), d2);
    var (f3, d3) := (DimTokens(f.packed) + f2, DimTokens(d.packed) + d2);
    TextsAppend(sf, f3, sd, d3);
    TextsAppend([f.keyword], sf + f3, [d.keyword], sd + d3);
    TextsAppend(f.modifiers, [f.keyword] + (sf + f3), d.modifiers, [d.keyword] + (sd + d3));
  }

  // ---------------------------------------------------------------- comments

  /** The comments of a list of trivia, in order. */
  function Comments(trivia: seq<Trivia>): seq<Trivia> {
    if trivia == [] then [] else (if trivia[0].kind == Comment then [trivia[0]] else []) + Comments(trivia[1..])
  }

  /** The comments of a list of tokens, in order. */
  function CommentsIn(toks: seq<Token>): seq<Trivia> {
    if toks == [] then [] else Comments(toks[0].trivia) + CommentsIn(toks[1..])
  }

  lemma {:induction false} CommentsAppend(a: seq<Token>, b: seq<Token>)
    ensures CommentsIn(a + b) == CommentsIn(a) + CommentsIn(b)
  {
    if a == [] {
      assert a + b == b;
    } else {
      assert (a + b)[0] == a[0] && (a + b)[1..] == a[1..] + b;
      CommentsAppend(a[1..], b);
    }
  }

  lemma CommentsOfOne(tok: Token)
    ensures CommentsIn([tok]) == Comments(tok.trivia)
  {
    assert [tok][1..] == [];
  }

  lemma RespacedHasNone(tok: Token, n: nat)
    ensures Comments(ReplaceSpacing(tok, n).trivia) == []
  {
    if n > 0 {
      assert [Trivia(Whitespace, Repeat(' ', n))][1..] == [];
    }
  }

  lemma CommentsCons(t: Trivia, k: seq<Trivia>)
    ensures Comments([t] + k) == (if t.kind == Comment then [t] else []) + Comments(k)
  {
    assert ([t] + k)[1..] == k;
  }

  lemma {:induction false} KeptComments(trivia: seq<Trivia>, ind: Trivia, skipping: bool, clean: bool)
    requires ind.kind == Whitespace
    ensures Comments(Kept(trivia, ind, skipping, clean)) == Comments(trivia)
    decreases |trivia|
  {
    if trivia == [] {
      CommentsCons(NEWLINE, [ind]);
      CommentsCons(ind, []);
    } else {
      var t, rest := trivia[0], trivia[1..];
      match t.kind {
        case Whitespace =>
          KeptComments(rest, ind, skipping, clean);
          NoTrivia(Kept(rest, ind, skipping, clean));
          CommentsCons(t, Kept(rest, ind, skipping, clean));
        case EndOfLine =>
          var k := Kept(rest, ind, true, true);
          KeptComments(rest, ind, true, true);
          CommentsCons(t, [ind] + k);
          CommentsCons(ind, k);
          assert [t, ind] + k == [t] + ([ind] + k);
        case Comment =>
          KeptComments(rest, ind, false, false);
          CommentsCons(t, Kept(rest, ind, false, false));
      }
    }
  }

  /** The comments inside expressions, after their first token. */
  function InnerComments(d: Dim): seq<Trivia> {
    match d
    case Range(_, left, _, right, _) => CommentsIn(left[1..]) + CommentsIn(right[1..])
    case Bit(_, expr, _) => CommentsIn(expr[1..])
  }

  function InnerCommentsAll(dims: seq<Dim>): seq<Trivia> {
    if dims == [] then [] else InnerComments(dims[0]) + InnerCommentsAll(dims[1..])
  }

  lemma ExprComments(e: Expr, size: nat)
    requires |RawText(e)| <= size
    ensures CommentsIn(AlignedExpr(e, size)) == CommentsIn(e[1..])
  {
    var r := AlignedExpr(e, size);
    RespacedHasNone(e[0], size - |RawText(e)|);
    assert r[1..] == e[1..];
  }

  /** A token without comments. */
  predicate Silent(tok: Token) {
    Comments(tok.trivia) == []
  }

  lemma SilentInFront(tok: Token, toks: seq<Token>)
    requires Silent(tok)
    ensures CommentsIn([tok] + toks) == CommentsIn(toks)
  {
    CommentsAppend([tok], toks);
    CommentsOfOne(tok);
    assert [] + CommentsIn(toks) == CommentsIn(toks);
  }

  lemma SilentAfter(toks: seq<Token>, tok: Token)
    requires Silent(tok)
    ensures CommentsIn(toks + [tok]) == CommentsIn(toks)
  {
    CommentsAppend(toks, [tok]);
    CommentsOfOne(tok);
    assert CommentsIn(toks) + [] == CommentsIn(toks);
  }

  lemma SilentRange(open: Token, left: seq<Token>, colon: Token, right: seq<Token>, close: Token)
    requires Silent(open) && Silent(colon) && Silent(close)
    ensures CommentsIn([open] + left + [colon] + right + [close]) == CommentsIn(left) + CommentsIn(right)
  {
    SilentAfter([open] + left + [colon] + right, close);
    CommentsAppend([open] + left + [colon], right);
    SilentAfter([open] + left, colon);
    SilentInFront(open, left);
  }

  lemma SilentBit(open: Token, expr: seq<Token>, close: Token)
    requires Silent(open) && Silent(close)
    ensures CommentsIn([open] + expr + [close]) == CommentsIn(expr)
  {
    SilentAfter([open] + expr, close);
    SilentInFront(open, expr);
  }

  lemma DimComments(d: Dim, size: (nat, nat), first: bool, a: nat)
    requires Fits(d, size)
    ensures CommentsIn(TokensOf(AlignedDim(d, size, first, a))) == InnerComments(d)
  {
    var r := AlignedDim(d, size, first, a);
    RespacedHasNone(d.open, Opening(first, a));
    RespacedHasNone(d.close, 0);
    match d {
      case Range(open, left, colon, right, close) =>
        RespacedHasNone(colon, 0);
        SilentRange(r.open, r.left, r.colon, r.right, r.close);
        ExprComments(left, size.0);
        ExprComments(right, size.1);
      case Bit(open, expr, close) =>
        SilentBit(r.open, r.expr, r.close);
        ExprComments(expr, 1 + size.0 + size.1);
    }
  }

  lemma {:induction false} DimsComments(dims: seq<Dim>, sizes: Sizes, first: bool, a: nat)
    requires AllFit(dims, sizes)
    ensures CommentsIn(DimTokens(AlignedDims(dims, sizes, first, a))) == InnerCommentsAll(dims)
  {
    if dims != [] {
      var d, rest := AlignedDim(dims[0], sizes[0], first, a), AlignedDims(dims[1..], sizes[1..], false, a);
      DimComments(dims[0], sizes[0], first, a);
      DimsComments(dims[1..], sizes[1..], false, a);
      assert ([d] + rest)[1..] == rest;
      CommentsAppend(TokensOf(d), DimTokens(rest));
    }
  }

  lemma {:induction false} ModifierComments(mods: seq<Token>, sizes: seq<nat>, lead: string)
    requires |mods| <= |sizes| && forall i :: 0 <= i < |mods| ==> |mods[i].text| <= sizes[i]
    ensures CommentsIn(FormattedModifiers(mods, sizes, lead)) == if mods == [] then [] else Comments(mods[0].trivia)
  {
    if mods != [] {
      var n := |mods| - 1;
      var before := FormattedModifiers(mods[..n], sizes, lead);
      var r := FormattedModifiers(mods, sizes, lead);
      ModifierComments(mods[..n], sizes, lead);
      assert r == before + [r[|before|]];
      CommentsAppend(before, [r[|before|]]);
      CommentsOfOne(r[|before|]);
      if n == 0 {
        KeptComments(mods[0].trivia, Indentation(lead, 0), false, false);
      }
    }
  }

  /** The comments of what follows the type keyword, when only dimensions have any. */
  lemma CommentsAfterKeyword(d: Decl)
    requires (d.signing.Some? ==> Silent(d.signing.value)) && Silent(d.name) && Silent(d.semi)
    ensures var s := if d.signing.Some? then [d.signing.value] else [];
      CommentsIn(s + (DimTokens(d.packed) + ([d.name] + (DimTokens(d.unpacked) + [d.semi]))))
      == CommentsIn(DimTokens(d.packed)) + CommentsIn(DimTokens(d.unpacked))
  {
    var rest := DimTokens(d.packed) + ([d.name] + (DimTokens(d.unpacked) + [d.semi]));
    SilentAfter(DimTokens(d.unpacked), d.semi);
    SilentInFront(d.name, DimTokens(d.unpacked) + [d.semi]);
    CommentsAppend(DimTokens(d.packed), [d.name] + (DimTokens(d.unpacked) + [d.semi]));
    if d.signing.Some? {
      SilentInFront(d.signing.value, rest);
    } else {
      assert [] + rest == rest;
    }
  }

  /** The comments of a declaration whose first token and dimensions are all that has any. */
  lemma CommentsOfAll(d: Decl)
    requires (d.signing.Some? ==> Silent(d.signing.value)) && Silent(d.name) && Silent(d.semi)
    requires d.modifiers != [] ==> Silent(d.keyword)
    ensures CommentsIn(AllTokens(d))
         == (if d.modifiers == [] then Comments(d.keyword.trivia) else CommentsIn(d.modifiers))
            + (CommentsIn(DimTokens(d.packed)) + CommentsIn(DimTokens(d.unpacked)))
  {
    var s := if d.signing.Some? then [d.signing.value] else [];
    var after := s + (DimTokens(d.packed) + ([d.name] + (DimTokens(d.unpacked) + [d.semi])));
    CommentsAfterKeyword(d);
    if d.modifiers == [] {
      assert AllTokens(d) == [d.keyword] + after;
      CommentsAppend([d.keyword], after);
      CommentsOfOne(d.keyword);
    } else {
      SilentInFront(d.keyword, after);
      CommentsAppend(d.modifiers, [d.keyword] + after);
    }
  }

  /** Formatting keeps the comments in front of the declaration and those inside expressions, as they
      were and in order, and drops all the others: the blanks that replace the trivia of the other
      tokens replace their comments too. */
  lemma CommentsKeptExactly(d: Decl, w: Widths, lead: string)
    requires Covers(w, d) && Formattable(d, w)
    ensures CommentsIn(AllTokens(Formatted(d, w, lead)))
         == Comments(FirstToken(d).trivia) + (InnerCommentsAll(d.packed) + InnerCommentsAll(d.unpacked))
  {
    var f := Formatted(d, w, lead);
    RespacedHasNone(d.keyword, KeywordGap(d, w));
    if d.signing.Some? {
      RespacedHasNone(d.signing.value, 1);
    }
    RespacedHasNone(d.name, NameGap(d, w));
    RespacedHasNone(d.semi, Remaining(|d.unpacked|, w.arrays, VarAlignment(d, w)));
    CommentsOfAll(f);
    DimsComments(d.packed, w.types, true, TypeAlignment(d, w));
    DimsComments(d.unpacked, w.arrays, true, VarAlignment(d, w));
    FirstComments(d, w, lead);
  }

  lemma FirstComments(d: Decl, w: Widths, lead: string)
    requires Covers(w, d) && Formattable(d, w)
    ensures var f := Formatted(d, w, lead);
      && (f.modifiers == [] <==> d.modifiers == [])
      && (if f.modifiers == [] then Comments(f.keyword.trivia) else CommentsIn(f.modifiers)) == Comments(FirstToken(d).trivia)
  {
    if d.modifiers == [] {
      KeptComments(d.keyword.trivia, Indentation(lead, KeywordGap(d, w)), false, false);
    } else {
      ModifierComments(d.modifiers, w.modifiers, lead);
    }
  }

  // ------------------------------------------------------------ whole blocks

  /** A declaration starts a block when its first token comes after two line ends at least. */
  lemma StartsBlockExactly(d: Decl)
    ensures var trivia := AllTokens(d)[0].trivia;
      StartsBlock(d) <==> exists i, j :: 0 <= i < j < |trivia| && trivia[i].kind == EndOfLine && trivia[j].kind == EndOfLine
  {
    var trivia := AllTokens(d)[0].trivia;
    var ends := LineEnds(trivia);
    assert AllTokens(d)[0] == FirstToken(d);
    NewlinesExactly(trivia);
    if i, j :| 0 <= i < j < |trivia| && trivia[i].kind == EndOfLine && trivia[j].kind == EndOfLine {
      TwoElements(ends, i, j);
    }
    if |ends| >= 2 {
      var i :| i in ends;
      assert |ends - {i}| >= 1;
      var j :| j in ends - {i};
      assert if i < j then 0 <= i < j < |trivia| else 0 <= j < i < |trivia|;
    }
  }

  lemma TwoElements(s: set<int>, i: int, j: int)
    requires i in s && j in s && i != j
    ensures |s| >= 2
  {
    assert |s - {i}| == |s| - 1 && j in s - {i};
  }

  /** Of a block every declaration is printed, unless its spacing is negative, in place and with all its
      tokens. */
  lemma BlockIsKept(decls: seq<Decl>, lead: string, i: nat)
    requires i < |decls|
    ensures var w, r := MeasuredAll(decls), FormattedBlock(decls, lead);
      && |r| == |decls| && Covers(w, decls[i]) && (r[i].Some? <==> NameGap(decls[i], w) >= 0)
      && (r[i].Some? ==> Texts(AllTokens(r[i].value)) == Texts(AllTokens(decls[i])))
  {
    var w := MeasuredAll(decls);
    BlockIsCovered(decls);
    if Formattable(decls[i], w) {
      TokensArePreserved(decls[i], w, lead);
    }
  }

  /** Of a block of plain declarations all are printed, with their names in one column. */
  lemma PlainBlockIsPrinted(decls: seq<Decl>, lead: string, i: nat, j: nat, start: nat)
    requires i < |decls| && j < |decls| && OneLine(lead) && forall k :: 0 <= k < |decls| ==> Plain(decls[k])
    ensures var r := FormattedBlock(decls, lead);
      && |r| == |decls| && r[i].Some? && r[j].Some?
      && Column(start, BeforeName(r[i].value)) == Column(start, BeforeName(r[j].value))
  {
    PlainBlockAligned(decls, i, start, lead);
    PlainBlockAligned(decls, j, start, lead);
  }
}
