/** The wire format of the RPC pipe: what the outbox thread prints around each message,
    and the character scanner with which the inbox thread finds the messages again. */

/** JSON values and their compact printing. Characters stand for bytes. */
module JsonText {

  datatype Json =
    | Null
    | Bool(b: bool)
    | Number(literal: string)
    | Str(s: string)
    | Arr(elems: Elems)
    | Obj(fields: Fields)

  datatype Elems = NoElem | Elem(head: Json, tail: Elems)

  datatype Fields = NoField | Field(key: string, value: Json, rest: Fields)

  predicate NumberChar(c: char) {
    '0' <= c <= '9' || c == '+' || c == '-' || c == '.' || c == 'e' || c == 'E'
  }

  const HEX := "0123456789abcdef"

  /** How one character of a string is printed between the quotes. */
  function Escape(c: char): (r: string)
    ensures r != ""
  {
    if c == '"' then "\\\""
    else if c == '\\' then "\\\\"
    else if c == '\n' then "\\n"
    else if c == '\r' then "\\r"
    else if c == '\t' then "\\t"
    else if c == 8 as char then "\\b"
    else if c == 12 as char then "\\f"
    else if c < ' ' then "\\u00" + [HEX[c as int / 16], HEX[c as int % 16]]
    else [c]
  }

  function EscapeAll(s: string): string {
    if s == "" then "" else Escape(s[0]) + EscapeAll(s[1..])
  }

  /** The value of a hexadecimal digit. */
  function HexValue(c: char): (n: nat)
    ensures n < 16
  {
    if '0' <= c <= '9' then c as int - '0' as int else if 'a' <= c <= 'f' then 10 + (c as int - 'a' as int) else 0
  }

  /** What a JSON reader makes of the characters between the quotes (section 7 of RFC 8259), as far as
      characters below 256 are concerned. */
  function Unescaped(s: string): string {
    if s == "" then ""
    else if s[0] != '\\' || |s| < 2 then [s[0]] + Unescaped(s[1..])
    else if s[1] == 'u' && |s| >= 6 then [(16 * HexValue(s[4]) + HexValue(s[5])) as char] + Unescaped(s[6..])
    else
      [match s[1]
       case 'n' => '\n' case 'r' => '\r' case 't' => '\t' case 'b' => 8 as char case 'f' => 12 as char
       case c => c] + Unescaped(s[2..])
  }

  lemma HexOf(n: nat)
    requires n < 16
    ensures HexValue(HEX[n]) == n
  {
  }

  lemma PairReadsBack(k: char, c: char, rest: string)
    requires k != 'u' && [c] == [match k case 'n' => '\n' case 'r' => '\r' case 't' => '\t' case 'b' => 8 as char case 'f' => 12 as char case d => d]
    ensures Unescaped(['\\', k] + rest) == [c] + Unescaped(rest)
  {
    assert (['\\', k] + rest)[2..] == rest;
  }

  lemma ControlReadsBack(c: char, rest: string)
    requires c < ' '
    ensures Unescaped("\\u00" + [HEX[c as int / 16], HEX[c as int % 16]] + rest) == [c] + Unescaped(rest)
  {
    var s := "\\u00" + [HEX[c as int / 16], HEX[c as int % 16]] + rest;
    HexOf(c as int / 16);
    HexOf(c as int % 16);
    assert s[0] == '\\' && s[1] == 'u' && s[4] == HEX[c as int / 16] && s[5] == HEX[c as int % 16] && s[6..] == rest;
  }

  lemma EscapeReadsBack(c: char, rest: string)
    ensures Unescaped(Escape(c) + rest) == [c] + Unescaped(rest)
  {
    if |Escape(c)| == 2 {
      assert Escape(c) == ['\\', Escape(c)[1]];
      PairReadsBack(Escape(c)[1], c, rest);
    } else if c < ' ' {
      ControlReadsBack(c, rest);
    } else {
      assert (Escape(c) + rest)[1..] == rest;
    }
  }

  /** A string printed is read back as it was, and no control character is printed. */
  lemma {:induction false} EscapedReadsBack(s: string)
    ensures Unescaped(EscapeAll(s)) == s
    ensures forall i :: 0 <= i < |EscapeAll(s)| ==> EscapeAll(s)[i] >= ' '
  {
    if s != "" {
      EscapedReadsBack(s[1..]);
      EscapeReadsBack(s[0], EscapeAll(s[1..]));
      NoControl(s[0]);
    }
  }

  lemma NoControl(c: char)
    ensures forall i :: 0 <= i < |Escape(c)| ==> Escape(c)[i] >= ' '
  {
  }

  function Literal(s: string): string {
    "\"" + EscapeAll(s) + "\""
  }

  function Dump(j: Json): string
    decreases j, 2
  {
    match j
    case Null => "null"
    case Bool(b) => if b then "true" else "false"
    case Number(literal) => literal
    case Str(s) => Literal(s)
    case Arr(elems) => "[" + DumpElems(elems) + "]"
    case Obj(fields) => "{" + DumpFields(fields) + "}"
  }

  function DumpElems(e: Elems): string
    decreases e, 0
  {
    match e
    case NoElem => ""
    case Elem(head, tail) => Dump(head) + ElemsTail(tail)
  }

  /** What follows an element or a member: nothing, or a comma and the others. */
  function ElemsTail(e: Elems): string
    decreases e, 1
  {
    if e.NoElem? then "" else "," + DumpElems(e)
  }

  function DumpFields(f: Fields): string
    decreases f, 0
  {
    match f
    case NoField => ""
    case Field(key, value, rest) => Literal(key) + (":" + (Dump(value) + FieldsTail(rest)))
  }

  function FieldsTail(f: Fields): string
    decreases f, 1
  {
    if f.NoField? then "" else "," + DumpFields(f)
  }

  /** Every number is spelled with the characters of a JSON number, one at least. */
  predicate NumbersOk(j: Json) {
    match j
    case Number(literal) => literal != "" && forall i :: 0 <= i < |literal| ==> NumberChar(literal[i])
    case Arr(elems) => NumbersOkElems(elems)
    case Obj(fields) => NumbersOkFields(fields)
    case _ => true
  }

  predicate NumbersOkElems(e: Elems) {
    e.Elem? ==> NumbersOk(e.head) && NumbersOkElems(e.tail)
  }

  predicate NumbersOkFields(f: Fields) {
    f.Field? ==> NumbersOk(f.value) && NumbersOkFields(f.rest)
  }

  predicate EndsInBackslash(s: string) {
    s != "" && s[|s| - 1] == '\\'
  }

  /** How many strings of the value, keys included, end in a backslash. */
  function TrailingBackslashes(j: Json): nat {
    match j
    case Str(s) => if EndsInBackslash(s) then 1 else 0
    case Arr(elems) => TrailingBackslashesElems(elems)
    case Obj(fields) => TrailingBackslashesFields(fields)
    case _ => 0
  }

  function TrailingBackslashesElems(e: Elems): nat {
    if e.NoElem? then 0 else TrailingBackslashes(e.head) + TrailingBackslashesElems(e.tail)
  }

  function TrailingBackslashesFields(f: Fields): nat {
    if f.NoField? then 0
    else (if EndsInBackslash(f.key) then 1 else 0) + TrailingBackslashes(f.value) + TrailingBackslashesFields(f.rest)
  }
}

/** The scanner as a function of the text, and the theorems tying it to the printer. */
module JsonFraming {
  import opened Wrappers
  import opened Decimals
  import opened JsonText

  // ---------------------------------------------------------------- scanner

  /** The scanner's variables: brace depth, string flag, and the character read last. */
  datatype Mode = Mode(depth: int, inString: bool, last: char)

  const START := Mode(0, false, 0 as char)

  /** One character read while at least one brace is open. */
  function Inside(m: Mode, c: char): Mode {
    if c == '"' && m.last != '\\' then Mode(m.depth, !m.inString, c)
    else if m.inString then Mode(m.depth, true, c)
    else Mode(m.depth + (if c == '{' then 1 else if c == '}' then -1 else 0), false, c)
  }

  /** One character read, wherever the scanner is. */
  function Next(m: Mode, c: char): Mode {
    if m.depth != 0 then Inside(m, c)
    else if !m.inString && m.last == '\n' && c == '{' then Mode(1, m.inString, c)
    else m.(last := c)
  }

  datatype Scan = Captured(text: string, rest: string) | EndOfInput

  /** The whole scan: characters before the first brace on a fresh line are dropped, then
      everything is collected until the depth is back to zero. */
  function ScanFrom(m: Mode, buf: string, input: string): (r: Scan)
    ensures r.Captured? ==> |r.rest| < |input|
    decreases |input|
  {
    if input == "" then EndOfInput
    else
      var n := Next(m, input[0]);
      var buf' := if m.depth == 0 && n.depth != 0 then [input[0]] else buf + [input[0]];
      if m.depth != 0 && n.depth == 0 then Captured(buf', input[1..])
      else ScanFrom(n, buf', input[1..])
  }

  function GetJson(input: string): Scan {
    ScanFrom(START, "", input)
  }

  /** The texts captured by calling the scanner until the input is exhausted. */
  function ReadAll(input: string): seq<string>
    decreases |input|
  {
    match GetJson(input)
    case EndOfInput => []
    case Captured(text, rest) => [text] + ReadAll(rest)
  }

  // ----------------------------------------------------------------- framer

  const LENGTH_FIELD := "Content-Length: "
  const TYPE_FIELD := "Content-Type: "
  const MEDIA_TYPE := "application/"
  const SUBTYPE := "vscode-jsonrpc; "
  const CHARSET := "charset=utf-8"
  const CRLF := "\r\n"

  /** The header block of a message of the given length, up to and including its blank line. */
  function Header(length: nat): string {
    LENGTH_FIELD + Decimal(length) + CRLF + TYPE_FIELD + MEDIA_TYPE + SUBTYPE + CHARSET + CRLF + CRLF
  }

  lemma MediaType()
    ensures TYPE_FIELD + MEDIA_TYPE + SUBTYPE + CHARSET == "Content-Type: application/vscode-jsonrpc; charset=utf-8"
  {
    assert TYPE_FIELD + MEDIA_TYPE == "Content-Type: application/";
    assert "Content-Type: application/" + SUBTYPE == "Content-Type: application/vscode-jsonrpc; ";
    assert "Content-Type: application/vscode-jsonrpc; " + CHARSET == "Content-Type: application/vscode-jsonrpc; charset=utf-8";
  }

  /** The header as it appears on the wire. */
  lemma HeaderText(length: nat)
    ensures Header(length)
         == "Content-Length: " + Decimal(length) + "\r\n" + ("Content-Type: application/vscode-jsonrpc; charset=utf-8" + "\r\n" + "\r\n")
  {
    MediaType();
    HeaderInTwo(LENGTH_FIELD + Decimal(length) + CRLF, TYPE_FIELD, MEDIA_TYPE, SUBTYPE, CHARSET, CRLF);
  }

  lemma HeaderInTwo(a: string, b: string, c: string, d: string, e: string, crlf: string)
    ensures a + b + c + d + e + crlf + crlf == a + ((b + c + d + e) + crlf + crlf)
  {
  }

  function Frame(text: string, endl: bool): string {
    Header(|text|) + text + (if endl then "\n" else "")
  }

  /** What the outbox has printed after these messages. */
  function Frames(messages: seq<Json>, endl: bool): string {
    if messages == [] then "" else Frame(Dump(messages[0]), endl) + Frames(messages[1..], endl)
  }

  /** The outbox prints one more frame after those already there. */
  lemma {:induction false} FramesSnoc(messages: seq<Json>, j: Json, endl: bool)
    ensures Frames(messages + [j], endl) == Frames(messages, endl) + Frame(Dump(j), endl)
  {
    var frame := Frame(Dump(j), endl);
    if messages == [] {
      assert (messages + [j])[1..] == [];
      assert frame + "" == "" + frame;
    } else {
      var first := Frame(Dump(messages[0]), endl);
      assert (messages + [j])[1..] == messages[1..] + [j];
      FramesSnoc(messages[1..], j, endl);
      Associative(first, Frames(messages[1..], endl), frame);
    }
  }

  lemma Associative(a: string, b: string, c: string)
    ensures a + (b + c) == (a + b) + c
  {
  }

  predicate NoQuote(s: string) {
    forall i :: 0 <= i < |s| ==> s[i] != '"'
  }

  predicate NoBrace(s: string) {
    forall i :: 0 <= i < |s| ==> s[i] != '{' && s[i] != '}'
  }

  // --------------------------------------- feeding text to an open scanner

  /** The mode after a text, or None when the depth reaches zero on the way. */
  datatype Fed = Closed | Open(m: Mode)

  function Feed(m: Mode, s: string): Fed
    decreases |s|
  {
    if s == "" then Open(m)
    else if Inside(m, s[0]).depth == 0 then Closed
    else Feed(Inside(m, s[0]), s[1..])
  }

  lemma {:induction false} FeedAppend(m: Mode, a: string, b: string)
    ensures Feed(m, a + b) == if Feed(m, a).Closed? then Closed else Feed(Feed(m, a).m, b)
    decreases |a|
  {
    if a == "" {
      assert a + b == b;
    } else {
      assert (a + b)[0] == a[0] && (a + b)[1..] == a[1..] + b;
      if Inside(m, a[0]).depth != 0 {
        FeedAppend(Inside(m, a[0]), a[1..], b);
      }
    }
  }

  lemma FeedOne(m: Mode, c: char)
    ensures Feed(m, [c]) == if Inside(m, c).depth == 0 then Closed else Open(Inside(m, c))
  {
    assert [c][1..] == "";
  }

  /** Inside a string, characters that are neither quotes nor backslashes only move on. */
  lemma {:induction false} FeedPlain(m: Mode, s: string)
    requires m.depth >= 1
    requires m.inString || NoBrace(s)
    requires NoQuote(s)
    ensures Feed(m, s) == Open(Mode(m.depth, m.inString, if s == "" then m.last else s[|s| - 1]))
    decreases |s|
  {
    if s != "" {
      FeedPlain(Inside(m, s[0]), s[1..]);
    }
  }

  // ------------------------------------------- what the scanner counts

  predicate Odd(n: nat) {
    n % 2 == 1
  }

  /** The string flag after n strings that end in a backslash: the closing quote of each is missed. */
  predicate Turned(inString: bool, n: nat) {
    inString != Odd(n)
  }

  /** The depth after the braces of a text, or None when it reaches zero on the way. */
  function Dive(depth: nat, s: string): (r: Option<nat>)
    ensures depth >= 1 && r.Some? ==> r.value >= 1
    decreases |s|
  {
    if s == "" then Some(depth)
    else
      var d := if s[0] == '{' then depth + 1 else if s[0] == '}' then depth - 1 else depth;
      if d <= 0 then None else Dive(d, s[1..])
  }

  /** The characters of a printed value that the scanner reads outside strings, as far as braces go:
      its structure, or once the flag is turned, the contents of its strings. */
  function Counted(j: Json, inString: bool): string {
    match j
    case Str(s) => if inString then s else ""
    case Arr(elems) => CountedElems(elems, inString)
    case Obj(fields) =>
      (if inString then "" else "{") + CountedFields(fields, inString)
      + (if Turned(inString, TrailingBackslashesFields(fields)) then "" else "}")
    case _ => ""
  }

  function CountedElems(e: Elems, inString: bool): string {
    match e
    case NoElem => ""
    case Elem(head, tail) => Counted(head, inString) + CountedElems(tail, Turned(inString, TrailingBackslashes(head)))
  }

  function CountedFields(f: Fields, inString: bool): string {
    match f
    case NoField => ""
    case Field(key, value, rest) =>
      var q := inString != EndsInBackslash(key);
      (if inString then key else "")
      + (Counted(value, q) + CountedFields(rest, Turned(q, TrailingBackslashes(value))))
  }

  lemma {:induction false} DiveAppend(depth: nat, a: string, b: string)
    requires depth >= 1
    ensures Dive(depth, a + b) == if Dive(depth, a).None? then None else Dive(Dive(depth, a).value, b)
    decreases |a|
  {
    if a == "" {
      assert a + b == b;
    } else {
      assert (a + b)[0] == a[0] && (a + b)[1..] == a[1..] + b;
      var d := if a[0] == '{' then depth + 1 else if a[0] == '}' then depth - 1 else depth;
      if d >= 1 {
        DiveAppend(d, a[1..], b);
      }
    }
  }

  lemma DiveOne(depth: nat, c: char)
    requires depth >= 1
    ensures Dive(depth, [c]) == if c == '{' then Some(depth + 1) else if c != '}' then Some(depth)
                                else if depth == 1 then None else Some(depth - 1)
  {
    assert [c][1..] == "";
  }

  /** The scanner fed a text has done what the counted characters tell, and ends with the given flag,
      not after a backslash. */
  predicate Follows(depth: nat, fed: Fed, counted: string, inString: bool)
    requires depth >= 1
  {
    match Dive(depth, counted)
    case None => fed.Closed?
    case Some(d) => fed.Open? && fed.m.depth == d && fed.m.inString == inString && fed.m.last != '\\'
  }

  /** Open inside a message, and not after a backslash. */
  predicate Ready(m: Mode) {
    m.depth >= 1 && m.last != '\\'
  }

  /** One text after the other. */
  lemma FollowsAppend(m: Mode, a: string, ca: string, qa: bool, b: string, cb: string, qb: bool)
    requires m.depth >= 1 && Follows(m.depth, Feed(m, a), ca, qa)
    requires Feed(m, a).Open? ==> Follows(Feed(m, a).m.depth, Feed(Feed(m, a).m, b), cb, qb)
    ensures Follows(m.depth, Feed(m, a + b), ca + cb, qb)
  {
    FeedAppend(m, a, b);
    DiveAppend(m.depth, ca, cb);
  }

  lemma FollowsPlain(m: Mode, s: string)
    requires Ready(m) && NoQuote(s) && NoBrace(s) && !EndsInBackslash(s)
    ensures Follows(m.depth, Feed(m, s), "", m.inString)
  {
    FeedPlain(m, s);
  }

  lemma FollowsBrace(m: Mode, c: char)
    requires Ready(m) && (c == '{' || c == '}')
    ensures Follows(m.depth, Feed(m, [c]), if m.inString then "" else [c], m.inString)
  {
    FeedOne(m, c);
    DiveOne(m.depth, c);
  }

  /** The content of a printed string: braces count exactly when the scanner takes the content for
      structure; it remembers a backslash exactly at the end of an escaped one. */
  predicate ContentRead(m: Mode, fed: Fed, s: string)
    requires m.depth >= 1
  {
    match Dive(m.depth, if m.inString then "" else s)
    case None => fed.Closed?
    case Some(d) =>
      && fed.Open? && fed.m.depth == d && fed.m.inString == m.inString
      && (fed.m.last == '\\' <==> if s == "" then m.last == '\\' else EndsInBackslash(s))
  }

  lemma EscapedCharacterRead(m: Mode, c: char)
    requires m.depth >= 1
    ensures ContentRead(m, Feed(m, Escape(c)), [c])
  {
    if c == '"' {
      EscapedQuoteRead(m);
    } else if c == '{' || c == '}' {
      assert Escape(c) == [c];
      BraceRead(m, c);
    } else {
      EscapeIsPlain(c);
      PlainRead(m, Escape(c), c);
    }
  }

  lemma EscapedQuoteRead(m: Mode)
    requires m.depth >= 1
    ensures ContentRead(m, Feed(m, Escape('"')), ['"'])
  {
    assert Escape('"') == ['\\', '"'] && ['\\', '"'][1..] == ['"'];
    FeedOne(Inside(m, '\\'), '"');
    DiveOne(m.depth, '"');
  }

  lemma BraceRead(m: Mode, c: char)
    requires m.depth >= 1 && (c == '{' || c == '}')
    ensures ContentRead(m, Feed(m, [c]), [c])
  {
    DiveOne(m.depth, c);
    FeedOne(m, c);
    assert !EndsInBackslash([c]);
  }

  lemma PlainRead(m: Mode, s: string, c: char)
    requires m.depth >= 1 && c != '{' && c != '}'
    requires s != "" && NoQuote(s) && NoBrace(s) && (s[|s| - 1] == '\\' <==> c == '\\')
    ensures ContentRead(m, Feed(m, s), [c])
  {
    FeedPlain(m, s);
    DiveOne(m.depth, c);
  }

  lemma EscapeIsPlain(c: char)
    requires c != '"' && c != '{' && c != '}'
    ensures NoQuote(Escape(c)) && NoBrace(Escape(c))
    ensures Escape(c)[|Escape(c)| - 1] == '\\' <==> c == '\\'
  {
  }

  lemma {:induction false} EscapedStringRead(m: Mode, s: string)
    requires m.depth >= 1
    ensures ContentRead(m, Feed(m, EscapeAll(s)), s)
    decreases |s|
  {
    if s != "" {
      FeedAppend(m, Escape(s[0]), EscapeAll(s[1..]));
      EscapedCharacterRead(m, s[0]);
      assert s == [s[0]] + s[1..];
      DiveAppend(m.depth, [s[0]], s[1..]);
      if Feed(m, Escape(s[0])).Open? {
        EscapedStringRead(Feed(m, Escape(s[0])).m, s[1..]);
      }
    }
  }

  /** A printed string turns the flag exactly when its content ends in a backslash; its braces count
      exactly when the flag was turned before. */
  lemma StringLiteralExact(m: Mode, s: string)
    requires Ready(m)
    ensures Follows(m.depth, Feed(m, Literal(s)), if m.inString then s else "", m.inString != EndsInBackslash(s))
  {
    var q := ['"'];
    FeedAppend(m, q + EscapeAll(s), q);
    FeedAppend(m, q, EscapeAll(s));
    FeedOne(m, '"');
    EscapedStringRead(Inside(m, '"'), s);
    var fed := Feed(Inside(m, '"'), EscapeAll(s));
    if fed.Open? {
      FeedOne(fed.m, '"');
    }
  }

  lemma OddSum(a: nat, b: nat)
    ensures Odd(a + b) == (Odd(a) != Odd(b))
  {
  }

  /** Feeding a printed value does what its counted characters tell. */
  lemma {:induction false} ValueFollows(m: Mode, j: Json)
    requires Ready(m) && NumbersOk(j)
    ensures Follows(m.depth, Feed(m, Dump(j)), Counted(j, m.inString), Turned(m.inString, TrailingBackslashes(j)))
    decreases j, 1
  {
    match j
    case Str(s) => StringLiteralExact(m, s);
    case Arr(elems) => ArrayFollows(m, elems);
    case Obj(fields) => ObjectFollows(m, fields);
    case _ => FollowsPlain(m, Dump(j));
  }

  lemma {:induction false} ArrayFollows(m: Mode, elems: Elems)
    requires Ready(m) && NumbersOkElems(elems)
    ensures Follows(m.depth, Feed(m, Dump(Arr(elems))), CountedElems(elems, m.inString),
                    Turned(m.inString, TrailingBackslashesElems(elems)))
    decreases elems, 2
  {
    var q, inner := Turned(m.inString, TrailingBackslashesElems(elems)), CountedElems(elems, m.inString);
    FollowsPlain(m, "[");
    var n := Feed(m, "[").m;
    ElemsFollow(n, elems);
    var fed := Feed(n, DumpElems(elems));
    if fed.Open? {
      FollowsPlain(fed.m, "]");
    }
    FollowsAround(m, "[", "", DumpElems(elems), inner, q, "]", "");
    assert "" + inner + "" == inner;
  }

  lemma {:induction false} ObjectFollows(m: Mode, fields: Fields)
    requires Ready(m) && NumbersOkFields(fields)
    ensures Follows(m.depth, Feed(m, Dump(Obj(fields))), Counted(Obj(fields), m.inString),
                    Turned(m.inString, TrailingBackslashesFields(fields)))
    decreases fields, 3
  {
    var q, inner := Turned(m.inString, TrailingBackslashesFields(fields)), CountedFields(fields, m.inString);
    FollowsBrace(m, '{');
    var n := Feed(m, "{").m;
    FieldsFollow(n, fields);
    var fed := Feed(n, DumpFields(fields));
    if fed.Open? {
      FollowsBrace(fed.m, '}');
    }
    FollowsAround(m, "{", if m.inString then "" else "{", DumpFields(fields), inner, q, "}", if q then "" else "}");
  }

  /** A text between an opening and a closing one. */
  lemma FollowsAround(m: Mode, a: string, ca: string, b: string, cb: string, q: bool, c: string, cc: string)
    requires Ready(m) && Feed(m, a).Open? && Follows(m.depth, Feed(m, a), ca, m.inString)
    requires Follows(Feed(m, a).m.depth, Feed(Feed(m, a).m, b), cb, q)
    requires var fed := Feed(Feed(m, a).m, b); fed.Open? ==> Follows(fed.m.depth, Feed(fed.m, c), cc, q)
    ensures Follows(m.depth, Feed(m, a + b + c), ca + cb + cc, q)
  {
    FollowsAppend(m, a, ca, m.inString, b, cb, q);
    FeedAppend(m, a, b);
    FollowsAppend(m, a + b, ca + cb, q, c, cc, q);
  }

  lemma {:induction false} ElemsFollow(m: Mode, e: Elems)
    requires Ready(m) && NumbersOkElems(e)
    ensures Follows(m.depth, Feed(m, DumpElems(e)), CountedElems(e, m.inString), Turned(m.inString, TrailingBackslashesElems(e)))
    decreases e, 0
  {
    if e.Elem? {
      var q1 := Turned(m.inString, TrailingBackslashes(e.head));
      var q2 := Turned(q1, TrailingBackslashesElems(e.tail));
      ValueFollows(m, e.head);
      var fed := Feed(m, Dump(e.head));
      if fed.Open? {
        ElemsTailFollows(fed.m, e.tail);
      }
      FollowsAppend(m, Dump(e.head), Counted(e.head, m.inString), q1, ElemsTail(e.tail), CountedElems(e.tail, q1), q2);
      OddSum(TrailingBackslashes(e.head), TrailingBackslashesElems(e.tail));
    }
  }

  lemma {:induction false} ElemsTailFollows(m: Mode, e: Elems)
    requires Ready(m) && NumbersOkElems(e)
    ensures Follows(m.depth, Feed(m, ElemsTail(e)), CountedElems(e, m.inString), Turned(m.inString, TrailingBackslashesElems(e)))
    decreases e, 1
  {
    if e.Elem? {
      FollowsPlain(m, ",");
      ElemsFollow(Feed(m, ",").m, e);
      FollowsAppend(m, ",", "", m.inString, DumpElems(e), CountedElems(e, m.inString), Turned(m.inString, TrailingBackslashesElems(e)));
      assert "" + CountedElems(e, m.inString) == CountedElems(e, m.inString);
    }
  }

  lemma {:induction false} FieldsFollow(m: Mode, f: Fields)
    requires Ready(m) && NumbersOkFields(f)
    ensures Follows(m.depth, Feed(m, DumpFields(f)), CountedFields(f, m.inString), Turned(m.inString, TrailingBackslashesFields(f)))
    decreases f, 1
  {
    if f.Field? {
      var q1 := m.inString != EndsInBackslash(f.key);
      var q3 := Turned(Turned(q1, TrailingBackslashes(f.value)), TrailingBackslashesFields(f.rest));
      StringLiteralExact(m, f.key);
      var fed := Feed(m, Literal(f.key));
      assert DumpFields(f) == Literal(f.key) + (":" + (Dump(f.value) + FieldsTail(f.rest)));
      if fed.Open? {
        MemberFollows(fed.m, f);
      }
      FollowsAppend(m, Literal(f.key), if m.inString then f.key else "", q1, ":" + (Dump(f.value) + FieldsTail(f.rest)),
                    Counted(f.value, q1) + CountedFields(f.rest, Turned(q1, TrailingBackslashes(f.value))), q3);
      MemberParity(m.inString, EndsInBackslash(f.key), TrailingBackslashes(f.value), TrailingBackslashesFields(f.rest));
    }
  }

  lemma MemberParity(q: bool, key: bool, value: nat, rest: nat)
    ensures Turned(Turned(q != key, value), rest) == Turned(q, (if key then 1 else 0) + value + rest)
  {
    var k: nat := if key then 1 else 0;
    OddSum(k, value);
    OddSum(k + value, rest);
  }

  /** From the colon of a member on. */
  lemma {:induction false} MemberFollows(m: Mode, f: Fields)
    requires Ready(m) && f.Field? && NumbersOkFields(f)
    ensures Follows(m.depth, Feed(m, ":" + (Dump(f.value) + FieldsTail(f.rest))),
                    Counted(f.value, m.inString) + CountedFields(f.rest, Turned(m.inString, TrailingBackslashes(f.value))),
                    Turned(Turned(m.inString, TrailingBackslashes(f.value)), TrailingBackslashesFields(f.rest)))
    decreases f, 0
  {
    var Field(_, value, rest) := f;
    var q2 := Turned(m.inString, TrailingBackslashes(value));
    var q3 := Turned(q2, TrailingBackslashesFields(rest));
    var counted := Counted(value, m.inString) + CountedFields(rest, q2);
    FollowsPlain(m, ":");
    var n := Feed(m, ":").m;
    ValueFollows(n, value);
    if Feed(n, Dump(value)).Open? {
      FieldsTailFollows(Feed(n, Dump(value)).m, rest);
    }
    FollowsAppend(n, Dump(value), Counted(value, m.inString), q2, FieldsTail(rest), CountedFields(rest, q2), q3);
    FollowsAppend(m, ":", "", m.inString, Dump(value) + FieldsTail(rest), counted, q3);
    assert "" + counted == counted;
  }

  lemma {:induction false} FieldsTailFollows(m: Mode, f: Fields)
    requires Ready(m) && NumbersOkFields(f)
    ensures Follows(m.depth, Feed(m, FieldsTail(f)), CountedFields(f, m.inString), Turned(m.inString, TrailingBackslashesFields(f)))
    decreases f, 2
  {
    if f.Field? {
      FollowsPlain(m, ",");
      FieldsFollow(Feed(m, ",").m, f);
      FollowsAppend(m, ",", "", m.inString, DumpFields(f), CountedFields(f, m.inString), Turned(m.inString, TrailingBackslashesFields(f)));
      assert "" + CountedFields(f, m.inString) == CountedFields(f, m.inString);
    }
  }

  // ------------------------------------------------------- clean messages

  /** Without strings that end in a backslash, what counts is the structure, and it is balanced. */
  lemma {:induction false} CleanValueBalanced(depth: nat, j: Json)
    requires depth >= 1 && TrailingBackslashes(j) == 0
    ensures Dive(depth, Counted(j, false)) == Some(depth)
    decreases j, 1
  {
    match j
    case Arr(elems) => CleanElemsBalanced(depth, elems);
    case Obj(fields) =>
      var inner := CountedFields(fields, false);
      CleanFieldsBalanced(depth + 1, fields);
      assert "{"[1..] == "" && "}"[1..] == "";
      DiveAppend(depth, "{", inner);
      DiveAppend(depth, "{" + inner, "}");
    case _ =>
  }

  lemma {:induction false} CleanElemsBalanced(depth: nat, e: Elems)
    requires depth >= 1 && TrailingBackslashesElems(e) == 0
    ensures Dive(depth, CountedElems(e, false)) == Some(depth)
    decreases e, 0
  {
    if e.Elem? {
      CleanValueBalanced(depth, e.head);
      CleanElemsBalanced(depth, e.tail);
      DiveAppend(depth, Counted(e.head, false), CountedElems(e.tail, false));
    }
  }

  lemma {:induction false} CleanFieldsBalanced(depth: nat, f: Fields)
    requires depth >= 1 && TrailingBackslashesFields(f) == 0
    ensures Dive(depth, CountedFields(f, false)) == Some(depth)
    decreases f, 0
  {
    if f.Field? {
      CleanValueBalanced(depth, f.value);
      CleanFieldsBalanced(depth, f.rest);
      DiveAppend(depth, Counted(f.value, false), CountedFields(f.rest, false));
      assert "" + (Counted(f.value, false) + CountedFields(f.rest, false)) == Counted(f.value, false) + CountedFields(f.rest, false);
    }
  }

  // -------------------------------------------------- from feeding to scanning

  /** Text that keeps the scanner open is collected and nothing is returned yet. */
  lemma {:induction false} ScanThrough(m: Mode, buf: string, s: string, rest: string)
    requires m.depth != 0 && Feed(m, s).Open?
    ensures Feed(m, s).m.depth != 0
    ensures ScanFrom(m, buf, s + rest) == ScanFrom(Feed(m, s).m, buf + s, rest)
    decreases |s|
  {
    if s == "" {
      assert s + rest == rest && buf + s == buf;
    } else {
      assert (s + rest)[0] == s[0] && (s + rest)[1..] == s[1..] + rest;
      assert (buf + [s[0]]) + s[1..] == buf + s;
      ScanThrough(Inside(m, s[0]), buf + [s[0]], s[1..], rest);
    }
  }

  /** No brace of the text opens a line. */
  predicate NoStart(last: char, s: string) {
    && (s != "" && s[0] == '{' ==> last != '\n')
    && forall i :: 0 < i < |s| && s[i] == '{' ==> s[i - 1] != '\n'
  }

  /** Before a message, text is skipped, whatever else it holds, when no brace opens a line. */
  lemma {:induction false} ScanSkips(m: Mode, buf: string, s: string, rest: string)
    requires m.depth == 0 && NoStart(m.last, s)
    ensures ScanFrom(m, buf, s + rest)
         == ScanFrom(if s == "" then m else m.(last := s[|s| - 1]), buf + s, rest)
    decreases |s|
  {
    if s == "" {
      assert s + rest == rest && buf + s == buf;
    } else {
      assert (s + rest)[0] == s[0] && (s + rest)[1..] == s[1..] + rest;
      assert (buf + [s[0]]) + s[1..] == buf + s;
      ScanSkips(m.(last := s[0]), buf + [s[0]], s[1..], rest);
    }
  }

  /** The collected text starts with what was collected already. */
  lemma {:induction false} ScanKeepsBuffer(m: Mode, buf: string, input: string)
    requires m.depth != 0
    ensures var r := ScanFrom(m, buf, input); r.Captured? ==> buf < r.text
    decreases |input|
  {
    if input != "" && Next(m, input[0]).depth != 0 {
      ScanKeepsBuffer(Next(m, input[0]), buf + [input[0]], input[1..]);
    }
  }

  /** Text after which a brace opens a message. */
  predicate LeadsIn(s: string) {
    NoStart(START.last, s) && s != "" && s[|s| - 1] == '\n'
  }

  /** A header: braceless, and ending its line. */
  predicate Preamble(s: string) {
    NoBrace(s) && s != "" && s[|s| - 1] == '\n'
  }

  lemma HeaderLeadsIn(pre: string, head: string)
    requires NoStart(START.last, pre) && Preamble(head)
    ensures LeadsIn(pre + head)
  {
  }

  lemma BracelessAppend(a: string, b: string)
    requires NoBrace(a) && NoBrace(b)
    ensures NoBrace(a + b)
  {
  }

  lemma HeaderIsPreamble(n: nat)
    ensures Preamble(Header(n))
  {
    var h := LENGTH_FIELD + Decimal(n);
    BracelessAppend(LENGTH_FIELD, Decimal(n));
    BracelessAppend(h, CRLF);
    BracelessAppend(h + CRLF, TYPE_FIELD);
    BracelessAppend(h + CRLF + TYPE_FIELD, MEDIA_TYPE);
    BracelessAppend(h + CRLF + TYPE_FIELD + MEDIA_TYPE, SUBTYPE);
    BracelessAppend(h + CRLF + TYPE_FIELD + MEDIA_TYPE + SUBTYPE, CHARSET);
    BracelessAppend(h + CRLF + TYPE_FIELD + MEDIA_TYPE + SUBTYPE + CHARSET, CRLF);
    BracelessAppend(h + CRLF + TYPE_FIELD + MEDIA_TYPE + SUBTYPE + CHARSET + CRLF, CRLF);
  }

  /** Skipped text, then a message: the scan is that of the message from its brace on. */
  lemma ScanReachesMessage(pre: string, fields: Fields, rest: string)
    requires LeadsIn(pre)
    ensures GetJson(pre + (Dump(Obj(fields)) + rest))
         == ScanFrom(Mode(1, false, '{'), "{", DumpFields(fields) + ("}" + rest))
  {
    var input := Dump(Obj(fields)) + rest;
    ScanSkips(START, "", pre, input);
    MessageText(DumpFields(fields), rest);
    ScanOpens(Mode(0, false, '\n'), pre, input);
  }

  lemma MessageText(fields: string, rest: string)
    ensures var input := ("{" + fields + "}") + rest; input[0] == '{' && input[1..] == fields + ("}" + rest)
  {
  }

  lemma ScanOpens(m: Mode, buf: string, input: string)
    requires m == Mode(0, false, '\n') && input != "" && input[0] == '{'
    ensures ScanFrom(m, buf, input) == ScanFrom(Mode(1, false, '{'), "{", input[1..])
  {
  }

  /** If feeding a text closes the scanner, the scan returns within that text. */
  lemma {:induction false} ScanStopsEarly(m: Mode, buf: string, s: string, rest: string)
    requires m.depth != 0 && Feed(m, s).Closed?
    ensures var r := ScanFrom(m, buf, s + rest); r.Captured? && |r.text| <= |buf| + |s|
    decreases |s|
  {
    assert (s + rest)[0] == s[0] && (s + rest)[1..] == s[1..] + rest;
    if Inside(m, s[0]).depth != 0 {
      ScanStopsEarly(Inside(m, s[0]), buf + [s[0]], s[1..], rest);
    }
  }

  /** The braces that the scanner counts in a message are balanced, and it meets the last one outside
      strings. */
  predicate Balanced(fields: Fields) {
    Dive(1, CountedFields(fields, false)) == Some(1) && !Odd(TrailingBackslashesFields(fields))
  }

  /** Main step, and its exact limit: a printed object is captured whole, from its own brace to its
      own brace, exactly when the braces the scanner counts are balanced, and then the scan stops
      right there. */
  lemma CapturedExactly(pre: string, fields: Fields, rest: string)
    requires LeadsIn(pre) && NumbersOkFields(fields)
    ensures var r := GetJson(pre + (Dump(Obj(fields)) + rest));
      && (r.Captured? && r.text == Dump(Obj(fields)) <==> Balanced(fields))
      && (Balanced(fields) ==> r == Captured(Dump(Obj(fields)), rest))
  {
    var inner := Mode(1, false, '{');
    var body := DumpFields(fields);
    ScanReachesMessage(pre, fields, rest);
    FieldsFollow(inner, fields);
    if Feed(inner, body).Closed? {
      ScanStopsEarly(inner, "{", body, "}" + rest);
    } else {
      ScanThrough(inner, "{", body, "}" + rest);
      var n := Inside(Feed(inner, body).m, '}');
      assert ("}" + rest)[0] == '}' && ("}" + rest)[1..] == rest;
      if n.depth != 0 {
        ScanKeepsBuffer(n, "{" + body + "}", rest);
      }
    }
  }

  /** The messages the server sends: JSON objects. */
  predicate Message(j: Json) {
    j.Obj? && NumbersOk(j)
  }

  /** The same stream with any preambles in place of the headers, and any text after each
      message that the next preamble may start with. */
  function Stream(heads: seq<string>, messages: seq<Json>, tail: string): string
    requires |heads| == |messages|
  {
    if messages == [] then "" else heads[0] + (Dump(messages[0]) + (tail + Stream(heads[1..], messages[1..], tail)))
  }

  function Texts(messages: seq<Json>): seq<string> {
    seq(|messages|, i requires 0 <= i < |messages| => Dump(messages[i]))
  }

  predicate AllMessages(messages: seq<Json>) {
    forall i :: 0 <= i < |messages| ==> Message(messages[i])
  }

  predicate Faithful(messages: seq<Json>)
    requires AllMessages(messages)
  {
    forall i :: 0 <= i < |messages| ==> Balanced(messages[i].fields)
  }

  lemma FirstReadExactly(pre: string, head: string, fields: Fields, rest: string, more: seq<string>)
    requires NoStart(START.last, pre) && Preamble(head) && NumbersOkFields(fields)
    ensures ReadAll(pre + (head + (Dump(Obj(fields)) + rest))) == [Dump(Obj(fields))] + more
       <==> Balanced(fields) && ReadAll(rest) == more
  {
    var text := Dump(Obj(fields));
    Associative(pre, head, text + rest);
    HeaderLeadsIn(pre, head);
    CapturedExactly(pre + head, fields, rest);
    ReadAllStep(pre + (head + (text + rest)), text, more);
  }

  lemma {:induction false} StreamReadBackExactly(pre: string, heads: seq<string>, messages: seq<Json>, tail: string)
    requires |heads| == |messages| && AllMessages(messages)
    requires forall i :: 0 <= i < |heads| ==> Preamble(heads[i])
    requires NoStart(START.last, pre) && NoBrace(tail)
    ensures ReadAll(pre + Stream(heads, messages, tail)) == Texts(messages) <==> Faithful(messages)
    decreases |messages|
  {
    if messages == [] {
      ScanSkips(START, "", pre, "");
    } else {
      FirstReadExactly(pre, heads[0], messages[0].fields, tail + Stream(heads[1..], messages[1..], tail), Texts(messages[1..]));
      StreamReadBackExactly(tail, heads[1..], messages[1..], tail);
      assert Texts(messages) == [Dump(messages[0])] + Texts(messages[1..]);
      FaithfulStep(messages);
    }
  }

  lemma FaithfulStep(messages: seq<Json>)
    requires messages != [] && AllMessages(messages)
    ensures Faithful(messages) <==> Balanced(messages[0].fields) && Faithful(messages[1..])
  {
  }

  lemma ReadAllStep(input: string, text: string, more: seq<string>)
    ensures ReadAll(input) == [text] + more
       <==> GetJson(input).Captured? && GetJson(input).text == text && ReadAll(GetJson(input).rest) == more
  {
    match GetJson(input)
    case EndOfInput =>
    case Captured(t, rest) =>
      assert ([t] + ReadAll(rest))[1..] == ReadAll(rest) && ([text] + more)[1..] == more;
      assert ([t] + ReadAll(rest))[0] == t && ([text] + more)[0] == text;
  }

  function Headers(messages: seq<Json>): seq<string> {
    seq(|messages|, i requires 0 <= i < |messages| => Header(|Dump(messages[i])|))
  }

  lemma {:induction false} FramesAreStream(messages: seq<Json>, endl: bool)
    ensures Frames(messages, endl) == Stream(Headers(messages), messages, if endl then "\n" else "")
  {
    if messages != [] {
      var tail := if endl then "\n" else "";
      assert Headers(messages)[1..] == Headers(messages[1..]);
      FramesAreStream(messages[1..], endl);
      Regroup(Headers(messages)[0], Dump(messages[0]), tail, Stream(Headers(messages[1..]), messages[1..], tail));
    }
  }

  lemma Regroup(a: string, b: string, c: string, d: string)
    ensures (a + b + c) + d == a + (b + (c + d))
  {
  }

  /** Framing round trip: reading back everything the outbox printed gives the text of every
      message, in order and nothing else, with or without a newline after each frame, exactly when
      in every message the braces that the scanner counts are balanced. */
  lemma FramingReadBackExactly(messages: seq<Json>, endl: bool)
    requires AllMessages(messages)
    ensures ReadAll(Frames(messages, endl)) == Texts(messages) <==> Faithful(messages)
  {
    var heads, tail := Headers(messages), if endl then "\n" else "";
    forall i | 0 <= i < |heads| ensures Preamble(heads[i]) {
      HeaderIsPreamble(|Dump(messages[i])|);
    }
    FramesAreStream(messages, endl);
    assert "" + Stream(heads, messages, tail) == Stream(heads, messages, tail);
    StreamReadBackExactly("", heads, messages, tail);
  }

  /** Messages none of whose strings ends in a backslash always come back. */
  lemma FramingRoundTrip(messages: seq<Json>, endl: bool)
    requires AllMessages(messages)
    requires forall i :: 0 <= i < |messages| ==> TrailingBackslashes(messages[i]) == 0
    ensures Faithful(messages) && ReadAll(Frames(messages, endl)) == Texts(messages)
  {
    forall i | 0 <= i < |messages| ensures Balanced(messages[i].fields) {
      CleanFieldsBalanced(1, messages[i].fields);
    }
    FramingReadBackExactly(messages, endl);
  }

  /** A message with an odd number of such strings never comes back. */
  lemma OddBackslashesBreakTheStream(messages: seq<Json>, endl: bool, i: nat)
    requires AllMessages(messages) && i < |messages| && Odd(TrailingBackslashes(messages[i]))
    ensures ReadAll(Frames(messages, endl)) != Texts(messages)
  {
    FramingReadBackExactly(messages, endl);
    assert !Balanced(messages[i].fields);
  }

  // ---------------------------------------------------- after a lost piece

  predicate NoNewline(s: string) {
    forall i :: 0 <= i < |s| ==> s[i] != '\n'
  }

  lemma NoNewlineAppend(a: string, b: string)
    requires NoNewline(a) && NoNewline(b)
    ensures NoNewline(a + b)
  {
  }

  lemma EscapeHasNoNewline(c: char)
    ensures NoNewline(Escape(c))
  {
  }

  lemma {:induction false} EscapedHasNoNewline(s: string)
    ensures NoNewline(EscapeAll(s))
  {
    if s != "" {
      EscapeHasNoNewline(s[0]);
      EscapedHasNoNewline(s[1..]);
      NoNewlineAppend(Escape(s[0]), EscapeAll(s[1..]));
    }
  }

  lemma LiteralHasNoNewline(s: string)
    ensures NoNewline(Literal(s))
  {
    EscapedHasNoNewline(s);
    NoNewlineAppend("\"", EscapeAll(s));
    NoNewlineAppend("\"" + EscapeAll(s), "\"");
  }

  /** A printed value is on one line. */
  lemma {:induction false} ValueHasNoNewline(j: Json)
    requires NumbersOk(j)
    ensures NoNewline(Dump(j))
    decreases j, 2
  {
    match j
    case Str(s) => LiteralHasNoNewline(s);
    case Arr(elems) =>
      ElemsHaveNoNewline(elems);
      NoNewlineAppend("[", DumpElems(elems));
      NoNewlineAppend("[" + DumpElems(elems), "]");
    case Obj(fields) =>
      FieldsHaveNoNewline(fields);
      NoNewlineAppend("{", DumpFields(fields));
      NoNewlineAppend("{" + DumpFields(fields), "}");
    case _ =>
  }

  lemma {:induction false} ElemsHaveNoNewline(e: Elems)
    requires NumbersOkElems(e)
    ensures NoNewline(DumpElems(e)) && NoNewline(ElemsTail(e))
    decreases e, 0
  {
    if e.Elem? {
      ValueHasNoNewline(e.head);
      ElemsHaveNoNewline(e.tail);
      NoNewlineAppend(Dump(e.head), ElemsTail(e.tail));
      NoNewlineAppend(",", DumpElems(e));
    }
  }

  lemma {:induction false} FieldsHaveNoNewline(f: Fields)
    requires NumbersOkFields(f)
    ensures NoNewline(DumpFields(f)) && NoNewline(FieldsTail(f))
    decreases f, 0
  {
    if f.Field? {
      LiteralHasNoNewline(f.key);
      ValueHasNoNewline(f.value);
      FieldsHaveNoNewline(f.rest);
      NoNewlineAppend(Dump(f.value), FieldsTail(f.rest));
      NoNewlineAppend(":", Dump(f.value) + FieldsTail(f.rest));
      NoNewlineAppend(Literal(f.key), ":" + (Dump(f.value) + FieldsTail(f.rest)));
      NoNewlineAppend(",", DumpFields(f));
    }
  }

  /** The rest of a printed message, cut anywhere, with what follows it on the wire. */
  lemma PieceIsSkipped(text: string, tail: string, k: nat)
    requires NoNewline(text) && (tail == "" || tail == "\n") && k <= |text + tail|
    ensures NoStart(START.last, (text + tail)[k..])
  {
  }

  lemma CutHeader(n: nat, k: nat)
    requires k < |Header(n)|
    ensures Preamble(Header(n)[k..])
  {
    HeaderIsPreamble(n);
  }

  lemma CutFirst(header: string, text: string, tail: string, more: string, n: nat)
    requires n <= |header + text + tail|
    ensures n < |header| ==> ((header + text + tail) + more)[n..] == header[n..] + (text + (tail + more))
    ensures n >= |header| ==> ((header + text + tail) + more)[n..] == (text + tail)[n - |header|..] + more
  {
    var whole := (header + text + tail) + more;
    if n < |header| {
      assert whole == header + (text + (tail + more));
    } else {
      assert whole == header + ((text + tail) + more);
      assert whole[n..] == ((text + tail) + more)[n - |header|..];
    }
  }

  /** Wherever a stream is cut, reading goes on with the first message whose header is not cut away to
      its end: of the messages whose frames start behind the cut none is lost, and nothing is made up. */
  lemma {:induction false} ResumesAfterCut(messages: seq<Json>, endl: bool, n: nat) returns (k: nat)
    requires AllMessages(messages) && Faithful(messages) && n <= |Frames(messages, endl)|
    ensures k <= |messages| && ReadAll(Frames(messages, endl)[n..]) == Texts(messages[k..])
    ensures k > 0 ==> |Frames(messages[..k - 1], endl)| < n
    decreases |messages|
  {
    if messages == [] {
      k := 0;
      FramingReadBackExactly(messages, endl);
      assert Frames(messages, endl)[n..] == Frames(messages, endl) && messages[k..] == messages;
    } else {
      FaithfulStep(messages);
      var length := |Frame(Dump(messages[0]), endl)|;
      if n < length {
        k := CutInFirst(messages, endl, n);
      } else {
        k := ResumesAfterCut(messages[1..], endl, n - length);
        CutBehindFirst(messages, endl, n, k);
        k := k + 1;
      }
    }
  }

  lemma CutBehindFirst(messages: seq<Json>, endl: bool, n: nat, k: nat)
    requires messages != [] && k <= |messages[1..]|
    requires |Frame(Dump(messages[0]), endl)| <= n <= |Frames(messages, endl)|
    requires var m: nat := n - |Frame(Dump(messages[0]), endl)|;
      && ReadAll(Frames(messages[1..], endl)[m..]) == Texts(messages[1..][k..])
      && (k > 0 ==> |Frames(messages[1..][..k - 1], endl)| < m)
    ensures ReadAll(Frames(messages, endl)[n..]) == Texts(messages[k + 1..])
    ensures |Frames(messages[..k], endl)| < n
  {
    CutLater(Frame(Dump(messages[0]), endl), Frames(messages[1..], endl), n);
    assert messages[1..][k..] == messages[k + 1..];
    LaterFrames(messages, endl, k);
  }

  lemma CutLater(first: string, more: string, n: nat)
    requires |first| <= n <= |first + more|
    ensures (first + more)[n..] == more[n - |first|..]
  {
  }

  lemma LaterFrames(messages: seq<Json>, endl: bool, k: nat)
    requires messages != [] && k <= |messages[1..]|
    ensures |Frames(messages[..k], endl)|
         == if k == 0 then 0 else |Frame(Dump(messages[0]), endl)| + |Frames(messages[1..][..k - 1], endl)|
  {
    if k > 0 {
      assert messages[..k][1..] == messages[1..][..k - 1];
    }
  }

  /** Any preamble does for the header of the first message. */
  lemma ReadFrom(header: string, messages: seq<Json>, endl: bool)
    requires AllMessages(messages) && Faithful(messages) && messages != [] && Preamble(header)
    ensures ReadAll(header + (Dump(messages[0]) + ((if endl then "\n" else "") + Frames(messages[1..], endl)))) == Texts(messages)
  {
    var tail, heads := if endl then "\n" else "", [header] + Headers(messages[1..]);
    FramesAreStream(messages[1..], endl);
    HeadersArePreambles(messages[1..]);
    assert heads[1..] == Headers(messages[1..]);
    StreamReadBackExactly("", heads, messages, tail);
    assert "" + Stream(heads, messages, tail) == Stream(heads, messages, tail);
  }

  lemma CutInHeader(messages: seq<Json>, endl: bool, n: nat)
    requires AllMessages(messages) && Faithful(messages) && messages != [] && n < |Header(|Dump(messages[0])|)|
    ensures ReadAll(Frames(messages, endl)[n..]) == Texts(messages)
  {
    var text := Dump(messages[0]);
    CutHeader(|text|, n);
    ReadFrom(Header(|text|)[n..], messages, endl);
    CutFirst(Header(|text|), text, if endl then "\n" else "", Frames(messages[1..], endl), n);
  }

  /** What holds no start of a message is skipped, and everything behind it is read. */
  lemma ReadBehind(piece: string, messages: seq<Json>, endl: bool)
    requires AllMessages(messages) && Faithful(messages) && NoStart(START.last, piece)
    ensures ReadAll(piece + Frames(messages, endl)) == Texts(messages)
  {
    FramesAreStream(messages, endl);
    HeadersArePreambles(messages);
    StreamReadBackExactly(piece, Headers(messages), messages, if endl then "\n" else "");
  }

  lemma CutInText(messages: seq<Json>, endl: bool, n: nat)
    requires AllMessages(messages) && Faithful(messages) && messages != []
    requires |Header(|Dump(messages[0])|)| <= n < |Frame(Dump(messages[0]), endl)|
    ensures ReadAll(Frames(messages, endl)[n..]) == Texts(messages[1..])
  {
    var header, text, tail := Header(|Dump(messages[0])|), Dump(messages[0]), if endl then "\n" else "";
    var piece := (text + tail)[n - |header|..];
    ValueHasNoNewline(messages[0]);
    PieceIsSkipped(text, tail, n - |header|);
    ReadBehind(piece, messages[1..], endl);
    CutFirst(header, text, tail, Frames(messages[1..], endl), n);
  }

  lemma CutInFirst(messages: seq<Json>, endl: bool, n: nat) returns (k: nat)
    requires AllMessages(messages) && Faithful(messages) && messages != []
    requires n < |Frame(Dump(messages[0]), endl)|
    ensures k <= |messages| && ReadAll(Frames(messages, endl)[n..]) == Texts(messages[k..])
    ensures k > 0 ==> |Frames(messages[..k - 1], endl)| < n
  {
    if n < |Header(|Dump(messages[0])|)| {
      k := 0;
      CutInHeader(messages, endl, n);
      assert messages[k..] == messages;
    } else {
      k := 1;
      CutInText(messages, endl, n);
      assert messages[..0] == [];
    }
  }

  lemma HeadersArePreambles(messages: seq<Json>)
    ensures forall i :: 0 <= i < |messages| ==> Preamble(Headers(messages)[i])
  {
    forall i | 0 <= i < |messages| ensures Preamble(Headers(messages)[i]) {
      HeaderIsPreamble(|Dump(messages[i])|);
    }
  }
}
