/** What braced names mean, inside colored spans too, and how spans around tokens read back. */
module TemplateSpans {
  import opened Sequences
  import opened Template

  // ----- one name -----

  predicate InheritsLevelColor(name: string) {
    name == "level.tag" || name == "elapsed" || "timestamp." <= name
  }

  /**
   * `{name}` and `{name:color}` are tokens for the listed names and every dotless one. The color is the written one,
   * else that of the span around it; only without either can the level color show. Any other name stays as it is
   * written, uncolored.
   */
  lemma TokenMeaning(raw: string, name: string, color: Option<string>, span: Option<string>)
    requires ':' !in name && raw == if color.None? then name else name + ":" + color.value
    ensures TokenPart(raw, span) ==
            if name in KNOWN_TOKENS || (name != "" && '.' !in name) then
              Token(name, if color.Some? then color else span,
                    color.None? && span.None? && InheritsLevelColor(name))
            else Literal("{" + raw + "}", None)
  {
    SplitsAtColon(name, color);
    assert raw == TokenText(name, color);
  }

  // ----- text without a closing brace -----

  /** Backslashes in front of braces are taken off. */
  function Unescaped(s: string): string
    decreases |s|
  {
    if s == "" then ""
    else if |s| >= 2 && s[0] == '\\' && (s[1] == '{' || s[1] == '}') then [s[1]] + Unescaped(s[2..])
    else [s[0]] + Unescaped(s[1..])
  }

  lemma {:induction false} NoCloserIsLiteral(token: Tokenizer, s: string, literal: string, span: Option<string>)
    requires '}' !in s
    ensures Scan(token, s, literal, span) == FlushLiteral(literal + Unescaped(s), span)
    decreases |s|
  {
    if s == "" {
      assert literal + "" == literal;
    } else if EscapesBrace(s) {
      NoCloserIsLiteral(token, s[2..], literal + [s[1]], span);
      ConcatAssociates(literal, [s[1]], Unescaped(s[2..]));
    } else {
      NoCloserIsLiteral(token, s[1..], literal + [s[0]], span);
      ConcatAssociates(literal, [s[0]], Unescaped(s[1..]));
    }
  }

  /** A template without a closing brace is one literal, open braces included. */
  lemma UnclosedIsLiteral(source: string)
    requires '}' !in source
    ensures Parse(source) == if source == "" then [] else [Literal(Unescaped(source), None)]
  {
    NoCloserIsLiteral(TokenPart, source, "", None);
    EmptyConcat(Unescaped(source));
  }

  /** A backslash in front of every brace. */
  function Escaped(text: string): string {
    if text == "" then ""
    else (if text[0] == '{' || text[0] == '}' then ['\\', text[0]] else [text[0]]) + Escaped(text[1..])
  }

  lemma {:induction false} EscapedIsEscapeBraces(text: string)
    ensures Escaped(text) == EscapeBraces(text)
    decreases |text|
  {
    if text != "" { EscapedIsEscapeBraces(text[1..]); }
  }

  /** Any text at all, escaped, reads back as itself. */
  lemma EscapedTextReadsBack(text: string)
    ensures Parse(Escaped(text)) == if text == "" then [] else [Literal(text, None)]
  {
    EscapedIsEscapeBraces(text);
    ScanEscaped(TokenPart, text, "", "", None);
    assert EscapeBraces(text) + "" == EscapeBraces(text);
    EmptyConcat(text);
  }

  // ----- spans around tokens -----

  /** What can stand inside a colored span. */
  datatype Piece = Text(text: string) | Name(name: string, color: Option<string>)

  /** Printed pieces, with `closing` behind them. */
  function Inside(pieces: seq<Piece>, closing: string): string {
    if pieces == [] then closing
    else
      match pieces[0]
      case Text(text) => EscapeBraces(text) + Inside(pieces[1..], closing)
      case Name(name, color) => "{" + TokenText(name, color) + "}" + Inside(pieces[1..], closing)
  }

  /** The parts they stand for inside a span of color `c`. */
  function Colored(token: Tokenizer, pieces: seq<Piece>, c: string): seq<Part> {
    if pieces == [] then []
    else
      match pieces[0]
      case Text(text) => [Literal(text, Some(c))] + Colored(token, pieces[1..], c)
      case Name(name, color) => [token(TokenText(name, color), Some(c))] + Colored(token, pieces[1..], c)
  }

  /** Texts that are not empty and not next to each other, and names the scanner finds the end of. */
  predicate WellPieced(pieces: seq<Piece>) {
    pieces == [] ||
    (WellPieced(pieces[1..]) &&
     match pieces[0]
     case Text(text) => text != "" && (|pieces| > 1 ==> pieces[1].Name?)
     case Name(name, color) =>
       '}' !in name && ':' !in name && name != "" && (color.Some? ==> '}' !in color.value))
  }

  /** Some text ends in a backslash: inside a span a brace always follows. */
  predicate Trips(pieces: seq<Piece>) {
    exists i :: 0 <= i < |pieces| && pieces[i].Text? && pieces[i].text != ""
                && pieces[i].text[|pieces[i].text| - 1] == '\\'
  }

  predicate HeadTrips(p: Piece) {
    p.Text? && p.text != "" && p.text[|p.text| - 1] == '\\'
  }

  lemma TripsCons(pieces: seq<Piece>)
    requires pieces != []
    ensures Trips(pieces) <==> HeadTrips(pieces[0]) || Trips(pieces[1..])
  {
    if Trips(pieces[1..]) {
      var i :| 0 <= i < |pieces[1..]| && pieces[1..][i].Text? && pieces[1..][i].text != ""
               && pieces[1..][i].text[|pieces[1..][i].text| - 1] == '\\';
      assert pieces[i + 1] == pieces[1..][i];
    }
    if Trips(pieces) && !HeadTrips(pieces[0]) {
      var i :| 0 <= i < |pieces| && pieces[i].Text? && pieces[i].text != ""
               && pieces[i].text[|pieces[i].text| - 1] == '\\';
      assert pieces[1..][i - 1] == pieces[i];
    }
  }

  lemma NameIsPlain(name: string, color: Option<string>)
    requires '}' !in name && ':' !in name && name != "" && (color.Some? ==> '}' !in color.value)
    ensures '}' !in TokenText(name, color) && !(":" <= TokenText(name, color))
  {
    assert TokenText(name, color)[0] == name[0] && name[0] in name;
  }

  /** Whatever follows a text inside a span starts with a brace. */
  lemma BraceFollows(pieces: seq<Piece>, rest: string)
    requires pieces == [] || pieces[0].Name?
    ensures Inside(pieces, "{:/}" + rest) != "" && Inside(pieces, "{:/}" + rest)[0] == '{'
  {
  }

  lemma CancelPrefix(prefix: seq<Part>, a: seq<Part>, b: seq<Part>)
    ensures prefix + a == prefix + b <==> a == b
  {
    assert (prefix + a)[|prefix|..] == a && (prefix + b)[|prefix|..] == b;
  }

  lemma TextTrips(token: Tokenizer, text: string, pieces: seq<Piece>, rest: string, c: string, after: seq<Part>)
    requires HeadTrips(Text(text)) && (pieces == [] || pieces[0].Name?)
    ensures Scan(token, EscapeBraces(text) + Inside(pieces, "{:/}" + rest), "", Some(c))
            != [Literal(text, Some(c))] + after
  {
    var follows := Inside(pieces, "{:/}" + rest);
    BraceFollows(pieces, rest);
    HeadAndTail(follows);
    ConcatAssociates(EscapeBraces(text), "{", follows[1..]);
    DanglingMisreads(token, text, follows[1..], Some(c));
  }

  /** A text that does not trip is read as the literal to flush next. */
  lemma TextIsRead(token: Tokenizer, text: string, follows: string, c: string)
    requires text != "" && text[|text| - 1] != '\\'
    ensures Scan(token, EscapeBraces(text) + follows, "", Some(c)) == Scan(token, follows, text, Some(c))
  {
    ScanEscaped(token, text, follows, "", Some(c));
    EmptyConcat(text);
  }

  /** The printed pieces, with `literal` still open in front of them, are read as what they stand for. */
  predicate ReadsInside(token: Tokenizer, pieces: seq<Piece>, c: string, rest: string, literal: string) {
    Scan(token, Inside(pieces, "{:/}" + rest), literal, Some(c))
    == FlushLiteral(literal, Some(c)) + (Colored(token, pieces, c) + Scan(token, rest, "", None))
  }

  lemma CloserReads(token: Tokenizer, c: string, rest: string, literal: string)
    ensures ReadsInside(token, [], c, rest, literal)
  {
    CloseSpan(token, c, rest, literal);
    assert "{" + ":/" + "}" + rest == "{:/}" + rest;
    EmptyConcat(Scan(token, rest, "", None));
  }

  lemma TextReads(token: Tokenizer, pieces: seq<Piece>, c: string, rest: string)
    requires pieces != [] && pieces[0].Text? && pieces[0].text != "" && !HeadTrips(pieces[0])
    ensures ReadsInside(token, pieces, c, rest, "") <==> ReadsInside(token, pieces[1..], c, rest, pieces[0].text)
  {
    var text, tail, after := pieces[0].text, pieces[1..], Scan(token, rest, "", None);
    EmptyConcat(Colored(token, pieces, c) + after);
    ConcatAssociates([Literal(text, Some(c))], Colored(token, tail, c), after);
    TextIsRead(token, text, Inside(tail, "{:/}" + rest), c);
  }

  lemma TrippingTextMisreads(token: Tokenizer, pieces: seq<Piece>, c: string, rest: string)
    requires pieces != [] && HeadTrips(pieces[0]) && (|pieces| > 1 ==> pieces[1].Name?)
    ensures !ReadsInside(token, pieces, c, rest, "")
  {
    var text, tail, after := pieces[0].text, pieces[1..], Scan(token, rest, "", None);
    EmptyConcat(Colored(token, pieces, c) + after);
    ConcatAssociates([Literal(text, Some(c))], Colored(token, tail, c), after);
    TextTrips(token, text, tail, rest, c, Colored(token, tail, c) + after);
  }

  lemma NameReads(token: Tokenizer, pieces: seq<Piece>, c: string, rest: string, literal: string)
    requires pieces != [] && pieces[0].Name? && WellPieced(pieces)
    ensures ReadsInside(token, pieces, c, rest, literal) <==> ReadsInside(token, pieces[1..], c, rest, "")
  {
    var raw, tail := TokenText(pieces[0].name, pieces[0].color), pieces[1..];
    var follows, after := Inside(tail, "{:/}" + rest), Scan(token, rest, "", None);
    NameIsPlain(pieces[0].name, pieces[0].color);
    ScanBraced(token, raw, follows, literal, Some(c));
    CancelName(FlushLiteral(literal, Some(c)), token(raw, Some(c)), Scan(token, follows, "", Some(c)),
               Colored(token, tail, c), after);
    EmptyConcat(Colored(token, tail, c) + after);
  }

  lemma CancelName(prefix: seq<Part>, p: Part, scanned: seq<Part>, tail: seq<Part>, after: seq<Part>)
    ensures prefix + ([p] + scanned) == prefix + ([p] + tail + after) <==> scanned == tail + after
  {
    ConcatAssociates([p], tail, after);
    CancelPrefix(prefix, [p] + scanned, [p] + (tail + after));
    CancelPrefix([p], scanned, tail + after);
  }

  lemma {:induction false} ScanInside(
    token: Tokenizer, pieces: seq<Piece>, c: string, rest: string, literal: string)
    requires WellPieced(pieces) && (literal != "" ==> pieces == [] || pieces[0].Name?)
    ensures ReadsInside(token, pieces, c, rest, literal) <==> !Trips(pieces)
    decreases |pieces|
  {
    if pieces == [] {
      CloserReads(token, c, rest, literal);
    } else {
      TripsCons(pieces);
      if HeadTrips(pieces[0]) {
        TrippingTextMisreads(token, pieces, c, rest);
      } else if pieces[0].Text? {
        TextReads(token, pieces, c, rest);
        ScanInside(token, pieces[1..], c, rest, pieces[0].text);
      } else {
        NameReads(token, pieces, c, rest, literal);
        ScanInside(token, pieces[1..], c, rest, "");
      }
    }
  }

  /**
   * A colored span reads back as its literals and tokens in its color, with what follows it uncolored again,
   * exactly if none of its texts ends in a backslash.
   */
  lemma SpanReadsBackIff(c: string, pieces: seq<Piece>, rest: string)
    requires WellPieced(pieces) && '}' !in c && c != "/"
    ensures Parse("{" + (":" + c) + "}" + Inside(pieces, "{:/}" + rest))
            == Colored(TokenPart, pieces, c) + Parse(rest)
            <==> !Trips(pieces)
  {
    var inner := Inside(pieces, "{:/}" + rest);
    OpenSpan(TokenPart, c, inner, "");
    EmptyConcat(Scan(TokenPart, inner, "", Some(c)));
    ScanInside(TokenPart, pieces, c, rest, "");
    EmptyConcat(Colored(TokenPart, pieces, c) + Parse(rest));
  }
}
