/** The client's side of the wire: a reader that trusts the Content-Length field, as the base protocol
    of LSP 3.17 asks, instead of scanning the text. */
module LengthFraming {
  import opened Wrappers
  import opened Decimals
  import opened JsonText
  import opened JsonFraming

  /** How many digits a text starts with. */
  function Digits(s: string): (n: nat)
    ensures n <= |s|
  {
    if s == "" || !Digit(s[0]) then 0 else 1 + Digits(s[1..])
  }

  lemma {:induction false} DigitsAre(s: string, rest: string)
    requires forall i :: 0 <= i < |s| ==> Digit(s[i])
    requires rest != "" && !Digit(rest[0])
    ensures Digits(s + rest) == |s|
  {
    if s == "" {
      assert s + rest == rest;
    } else {
      assert (s + rest)[1..] == s[1..] + rest;
      DigitsAre(s[1..], rest);
    }
  }

  /** What follows the current line. */
  function AfterLine(s: string): (r: string)
    ensures |r| <= |s| && (s != "" ==> |r| < |s|)
  {
    if s == "" then "" else if s[0] == '\n' then s[1..] else AfterLine(s[1..])
  }

  /** What follows the blank line that ends the header fields. */
  function AfterHeader(s: string): (r: Option<string>)
    ensures r.Some? ==> |r.value| < |s|
    decreases |s|
  {
    if s == "" then None
    else if CRLF <= s then Some(s[2..])
    else AfterHeader(AfterLine(s))
  }

  /** One message: the length field first, then the other fields, then that many characters. */
  function ReadFrame(input: string): (r: Scan)
    ensures r.Captured? ==> |r.rest| < |input|
  {
    if !(LENGTH_FIELD <= input) then EndOfInput
    else
      var s := input[|LENGTH_FIELD|..];
      var n := LeadingNumber(s);
      var body := AfterHeader(s);
      if body.None? || |body.value| < n then EndOfInput else Captured(body.value[..n], body.value[n..])
  }

  function LeadingNumber(s: string): nat {
    DigitsAreDigits(s);
    NumberOf(s[..Digits(s)])
  }

  lemma DigitsAreDigits(s: string)
    ensures forall i :: 0 <= i < Digits(s) ==> Digit(s[i])
  {
  }

  function ReadByLength(input: string): seq<string>
    decreases |input|
  {
    match ReadFrame(input)
    case EndOfInput => []
    case Captured(text, rest) => [text] + ReadByLength(rest)
  }

  lemma {:induction false} LineSkipped(line: string, rest: string)
    requires forall i :: 0 <= i < |line| ==> line[i] != '\n'
    ensures AfterLine(line + ("\n" + rest)) == rest
  {
    if line == "" {
      assert line + ("\n" + rest) == "\n" + rest && ("\n" + rest)[1..] == rest;
    } else {
      assert (line + ("\n" + rest))[1..] == line[1..] + ("\n" + rest);
      LineSkipped(line[1..], rest);
    }
  }

  /** A field of the header: a line that is not blank. */
  predicate Field(field: string) {
    field != "" && field[0] != '\r' && forall i :: 0 <= i < |field| ==> field[i] != '\n'
  }

  lemma FieldAppend(a: string, b: string)
    requires Field(a) && Field(b)
    ensures Field(a + b)
  {
  }

  /** A field of the header is skipped as a line. */
  lemma FieldSkipped(field: string, rest: string)
    requires Field(field)
    ensures AfterHeader(field + (CRLF + rest)) == AfterHeader(rest)
  {
    var s := field + (CRLF + rest);
    assert s == (field + "\r") + ("\n" + rest);
    LineSkipped(field + "\r", rest);
    assert s[0] == field[0];
    assert !(CRLF <= s);
  }

  /** Two fields and a blank line in front of a text. */
  lemma FieldsSkipped(number: string, kind: string, body: string)
    requires Field(number) && Field(kind)
    ensures AfterHeader(number + (CRLF + (kind + (CRLF + (CRLF + body))))) == Some(body)
  {
    FieldSkipped(number, kind + (CRLF + (CRLF + body)));
    FieldSkipped(kind, CRLF + body);
    assert (CRLF + body)[2..] == body;
  }

  const CONTENT_TYPE := TYPE_FIELD + MEDIA_TYPE + SUBTYPE + CHARSET

  lemma ContentTypeIsField()
    ensures Field(CONTENT_TYPE)
  {
    FieldAppend(TYPE_FIELD, MEDIA_TYPE);
    FieldAppend(TYPE_FIELD + MEDIA_TYPE, SUBTYPE);
    FieldAppend(TYPE_FIELD + MEDIA_TYPE + SUBTYPE, CHARSET);
  }

  lemma HeaderSplits(n: nat, body: string)
    ensures Header(n) + body == LENGTH_FIELD + (Decimal(n) + (CRLF + (CONTENT_TYPE + (CRLF + (CRLF + body)))))
  {
    Regrouped(LENGTH_FIELD, Decimal(n), CRLF, CONTENT_TYPE, body);
    HeaderFields(LENGTH_FIELD + Decimal(n) + CRLF, TYPE_FIELD, MEDIA_TYPE, SUBTYPE, CHARSET);
  }

  lemma HeaderFields(a: string, b: string, c: string, d: string, e: string)
    ensures a + b + c + d + e == a + (b + c + d + e)
  {
  }

  lemma Regrouped(a: string, b: string, c: string, d: string, e: string)
    ensures (a + b + c + d + c + c) + e == a + (b + (c + (d + (c + (c + e)))))
  {
  }

  /** The length in a header is the number of characters after it, and is read back as such. */
  lemma HeaderReadBack(n: nat, body: string)
    ensures var input := Header(n) + body;
      LENGTH_FIELD <= input && LeadingNumber(input[|LENGTH_FIELD|..]) == n && AfterHeader(input[|LENGTH_FIELD|..]) == Some(body)
  {
    var after := CRLF + (CONTENT_TYPE + (CRLF + (CRLF + body)));
    HeaderSplits(n, body);
    ContentTypeIsField();
    FieldsSkipped(Decimal(n), CONTENT_TYPE, body);
    NumberRead(n, after);
  }

  lemma NumberRead(n: nat, after: string)
    requires after != "" && !Digit(after[0])
    ensures LeadingNumber(Decimal(n) + after) == n
  {
    DigitsAre(Decimal(n), after);
    assert (Decimal(n) + after)[..|Decimal(n)|] == Decimal(n);
    DecimalReadsBack(n);
  }

  lemma FrameReadBack(text: string, tail: string)
    ensures ReadByLength(Header(|text|) + (text + tail)) == [text] + ReadByLength(tail)
  {
    HeaderReadBack(|text|, text + tail);
    assert ReadFrame(Header(|text|) + (text + tail)) == Captured(text, tail);
  }

  lemma NewlineStops(more: string)
    ensures ReadByLength("\n" + more) == []
  {
    assert ("\n" + more)[0] == '\n' && LENGTH_FIELD[0] != '\n';
  }

  lemma FrameApart(header: string, text: string, endl: bool, rest: string)
    ensures (header + text + (if endl then "\n" else "")) + rest == header + (text + (if endl then "\n" + rest else rest))
  {
  }

  /** The first frame is read whole; a newline after it stops the reader. */
  lemma FrameRead(text: string, endl: bool, rest: string)
    ensures ReadByLength(Frame(text, endl) + rest) == [text] + (if endl then [] else ReadByLength(rest))
  {
    FrameApart(Header(|text|), text, endl, rest);
    FrameReadBack(text, if endl then "\n" + rest else rest);
    NewlineStops(rest);
  }

  lemma FrameReadExactly(text: string, endl: bool, rest: string, texts: seq<string>)
    ensures ReadByLength(Frame(text, endl) + rest) == [text] + texts
       <==> if endl then texts == [] else ReadByLength(rest) == texts
  {
    FrameRead(text, endl, rest);
    var read := if endl then [] else ReadByLength(rest);
    assert ([text] + read)[1..] == read && ([text] + texts)[1..] == texts;
  }

  lemma TextsStep(messages: seq<Json>)
    requires messages != []
    ensures Texts(messages) == [Dump(messages[0])] + Texts(messages[1..])
  {
  }

  /** A client that goes by the length field gets the text of every message, whatever its strings
      hold, exactly when no newline follows the frames, or there is at most one. */
  lemma {:induction false} LengthReadBackExactly(messages: seq<Json>, endl: bool)
    ensures ReadByLength(Frames(messages, endl)) == Texts(messages) <==> !endl || |messages| <= 1
    decreases |messages|
  {
    if messages == [] {
      NothingRead();
    } else {
      FrameReadExactly(Dump(messages[0]), endl, Frames(messages[1..], endl), Texts(messages[1..]));
      LengthReadBackExactly(messages[1..], endl);
      TextsStep(messages);
    }
  }

  lemma NothingRead()
    ensures ReadByLength("") == []
  {
  }
}
