/** The template scanner of src/format/template.format.ts and the printer it undoes. */
module Template {
  import opened Sequences

  /** A parsed piece. Only tokens can inherit the level color. */
  datatype Part =
    | Literal(text: string, color: Option<string>)
    | Token(name: string, color: Option<string>, levelColored: bool)

  const KNOWN_TOKENS: set<string> := {
    "author", "context", "context.kv", "elapsed", "group.indent", "level", "level.tag", "message", "retry.attempt",
    "task", "task.frame", "task.glyph", "timestamp", "timestamp.date", "timestamp.day", "timestamp.hour",
    "timestamp.minute", "timestamp.month", "timestamp.ms", "timestamp.second", "timestamp.time",
    "timestamp.weekday", "timestamp.year"
  }

  /** Names a template may use; those of ISO_FORMATTERS are dotless, so the last clause covers them. */
  predicate Known(name: string) {
    name in KNOWN_TOKENS || (name != "" && '.' !in name)
  }

  predicate LevelColored(name: string, color: Option<string>) {
    color.None? && (name == "level.tag" || name == "elapsed" || "timestamp." <= name)
  }

  /** String.indexOf, with |s| for "not found". */
  function Find(s: string, c: char): (i: nat)
    ensures i <= |s| && (i < |s| ==> s[i] == c)
    ensures forall j :: 0 <= j < i ==> s[j] != c
  {
    if s == "" || s[0] == c then 0 else 1 + Find(s[1..], c)
  }

  predicate IsBrace(c: char) { c == '{' || c == '}' }

  function FlushLiteral(literal: string, color: Option<string>): seq<Part> {
    if literal == "" then [] else [Literal(literal, color)]
  }

  /** The part a `{raw}` that is no span marker stands for. */
  function TokenPart(raw: string, span: Option<string>): Part {
    var colonAt := Find(raw, ':');
    var name := raw[..colonAt];
    var color := if colonAt == |raw| then span else Some(raw[colonAt + 1..]);
    if Known(name) then Token(name, color, LevelColored(name, color)) else Literal("{" + raw + "}", None)
  }

  predicate EscapesBrace(rest: string) {
    |rest| >= 2 && rest[0] == '\\' && IsBrace(rest[1])
  }

  /** What a braced name means; `TokenPart` is the one in use. */
  type Tokenizer = (string, Option<string>) -> Part

  /** What the scanner still produces from `rest`, with `literal` read and `span` open. */
  function Scan(token: Tokenizer, rest: string, literal: string, span: Option<string>): seq<Part>
    decreases |rest|
  {
    if rest == "" then FlushLiteral(literal, span)
    else if EscapesBrace(rest) then Scan(token, rest[2..], literal + [rest[1]], span)
    else if rest[0] != '{' then Scan(token, rest[1..], literal + [rest[0]], span)
    else
      var close := Find(rest, '}');
      if close == |rest| then Scan(token, rest[1..], literal + [rest[0]], span)
      else
        var raw, after := rest[1..close], rest[close + 1..];
        if ":" <= raw then
          FlushLiteral(literal, span) + Scan(token, after, "", if raw[1..] == "/" then None else Some(raw[1..]))
        else FlushLiteral(literal, span) + [token(raw, span)] + Scan(token, after, "", span)
  }

  function Parse(source: string): seq<Part> { Scan(TokenPart, source, "", None) }

  method ParseTemplate(source: string) returns (parts: seq<Part>)
    ensures parts == Parse(source)
  {
    parts := ScanTemplate(TokenPart, source);
  }

  /** What one turn of the loop emits, and where it leaves the scanner. */
  datatype Turned = Turned(emitted: seq<Part>, next: nat, literal: string, span: Option<string>)

  function Marker(token: Tokenizer, raw: string, next: nat, literal: string, span: Option<string>): Turned {
    if ":" <= raw then Turned(FlushLiteral(literal, span), next, "", if raw[1..] == "/" then None else Some(raw[1..]))
    else Turned(FlushLiteral(literal, span) + [token(raw, span)], next, "", span)
  }

  /** An escape, a character, or a braced marker. */
  function Turn(token: Tokenizer, source: string, at: nat, literal: string, span: Option<string>): (t: Turned)
    requires at < |source|
    ensures at < t.next <= |source|
  {
    var rest := source[at..];
    var close := Find(rest, '}');
    if EscapesBrace(rest) then Turned([], at + 2, literal + [source[at + 1]], span)
    else if source[at] != '{' || close == |rest| then Turned([], at + 1, literal + [source[at]], span)
    else Marker(token, rest[1..close], at + close + 1, literal, span)
  }

  lemma FirstTurnScans(token: Tokenizer, rest: string, literal: string, span: Option<string>)
    requires rest != ""
    ensures var t := Turn(token, rest, 0, literal, span);
            Scan(token, rest, literal, span) == t.emitted + Scan(token, rest[t.next..], t.literal, t.span)
  {
    assert rest[0..] == rest;
    var close := Find(rest, '}');
    if EscapesBrace(rest) {
      EmptyConcat(Scan(token, rest[2..], literal + [rest[1]], span));
    } else if rest[0] != '{' || close == |rest| {
      EmptyConcat(Scan(token, rest[1..], literal + [rest[0]], span));
    } else {
      assert Turn(token, rest, 0, literal, span) == Marker(token, rest[1..close], close + 1, literal, span);
    }
  }

  /** A turn depends on what is left only. */
  lemma TurnShifts(token: Tokenizer, source: string, at: nat, literal: string, span: Option<string>)
    requires at < |source|
    ensures var t0 := Turn(token, source[at..], 0, literal, span);
            Turn(token, source, at, literal, span) == t0.(next := at + t0.next)
  {
    assert source[at..][0..] == source[at..];
  }

  /** A turn takes the scan as far as it advances. */
  lemma TurnScans(token: Tokenizer, source: string, at: nat, literal: string, span: Option<string>)
    requires at < |source|
    ensures var t := Turn(token, source, at, literal, span);
            Scan(token, source[at..], literal, span) == t.emitted + Scan(token, source[t.next..], t.literal, t.span)
  {
    FirstTurnScans(token, source[at..], literal, span);
    TurnShifts(token, source, at, literal, span);
    var n := Turn(token, source[at..], 0, literal, span).next;
    DropTwice(source, at, n);
  }

  /** The index loop of parseTemplate; it always advances. */
  method ScanTemplate(token: Tokenizer, source: string) returns (parts: seq<Part>)
    ensures parts == Scan(token, source, "", None)
  {
    parts := [];
    var literal := "";
    var span: Option<string> := None;
    var i := 0;
    while i < |source|
      invariant 0 <= i <= |source|
      invariant Scan(token, source, "", None) == parts + Scan(token, source[i..], literal, span)
      decreases |source| - i
    {
      TurnScans(token, source, i, literal, span);
      var turned := ScanOne(token, source, i, literal, span);
      ConcatAssociates(parts, turned.emitted, Scan(token, source[turned.next..], turned.literal, turned.span));
      parts := parts + turned.emitted;
      i, literal, span := turned.next, turned.literal, turned.span;
    }
    parts := parts + FlushLiteral(literal, span);
  }

  /** The body of the loop. */
  method ScanOne(token: Tokenizer, source: string, at: nat, literal: string, span: Option<string>)
    returns (turned: Turned)
    requires at < |source|
    ensures turned == Turn(token, source, at, literal, span)
  {
    var c := source[at];
    if c == '\\' && at + 1 < |source| && IsBrace(source[at + 1]) {
      return Turned([], at + 2, literal + [source[at + 1]], span);
    }
    if c != '{' {
      return Turned([], at + 1, literal + [c], span);
    }
    var close := Find(source[at..], '}');
    if at + close == |source| {
      return Turned([], at + 1, literal + [c], span);
    }
    var raw := source[at..][1..close];
    var emitted, span' := FlushLiteral(literal, span), span;
    if ":" <= raw {
      span' := if raw[1..] == "/" then None else Some(raw[1..]);
    } else {
      emitted := emitted + [token(raw, span)];
    }
    return Turned(emitted, at + close + 1, "", span');
  }

  // ----- printing in the documented syntax -----

  function EscapeBraces(text: string): string {
    if text == "" then "" else (if IsBrace(text[0]) then ['\\', text[0]] else [text[0]]) + EscapeBraces(text[1..])
  }

  function TokenText(name: string, color: Option<string>): string {
    if color.None? then name else name + ":" + color.value
  }

  function PrintPart(p: Part): string {
    match p
    case Literal(text, None) => EscapeBraces(text)
    case Literal(text, Some(c)) => "{" + (":" + c) + "}" + (EscapeBraces(text) + ("{:/}"))
    case Token(name, color, _) => "{" + TokenText(name, color) + "}"
  }

  function Print(parts: seq<Part>): string {
    if parts == [] then "" else PrintPart(parts[0]) + Print(parts[1..])
  }

  predicate Plain(p: Part) { p.Literal? && p.color.None? }

  /** Parts the syntax has a form for. */
  predicate Printable(p: Part) {
    match p
    case Literal(text, color) => text != "" && (color.Some? ==> '}' !in color.value && color.value != "/")
    case Token(name, color, levelColored) =>
      && Known(name) && '}' !in name && ':' !in name && (color.Some? ==> '}' !in color.value)
      && levelColored == LevelColored(name, color)
  }

  /** Printable parts, and no two uncolored literals in a row: they would read as one. */
  predicate WellFormed(parts: seq<Part>) {
    parts == [] ||
    (Printable(parts[0]) && WellFormed(parts[1..]) && (Plain(parts[0]) && |parts| > 1 ==> !Plain(parts[1])))
  }

  /** The same for any tokenizer: the printed text of a token must be read as that token. */
  predicate Readable(token: Tokenizer, parts: seq<Part>) {
    parts == [] ||
    (ReadablePart(token, parts[0]) && Readable(token, parts[1..])
     && (Plain(parts[0]) && |parts| > 1 ==> !Plain(parts[1])))
  }

  predicate ReadablePart(token: Tokenizer, p: Part) {
    match p
    case Literal(text, color) => text != "" && (color.Some? ==> '}' !in color.value && color.value != "/")
    case Token(name, color, _) =>
      var raw := TokenText(name, color);
      '}' !in raw && !(":" <= raw) && token(raw, None) == p
  }

  /** The first part ends in a backslash that lands right before a printed brace. */
  predicate HeadDangles(parts: seq<Part>)
    requires parts != []
  {
    var p := parts[0];
    p.Literal? && p.text != "" && p.text[|p.text| - 1] == '\\' && (p.color.Some? || |parts| > 1)
  }

  predicate Dangles(parts: seq<Part>) {
    parts != [] && (HeadDangles(parts) || Dangles(parts[1..]))
  }

  lemma ScanBrace(token: Tokenizer, c: char, after: string, literal: string, span: Option<string>)
    requires IsBrace(c)
    ensures Scan(token, ['\\', c] + after, literal, span) == Scan(token, after, literal + [c], span)
  {
    assert (['\\', c] + after)[2..] == after;
  }

  lemma ScanChar(token: Tokenizer, c: char, after: string, literal: string, span: Option<string>)
    requires !IsBrace(c) && (c == '\\' && after != "" ==> !IsBrace(after[0]))
    ensures Scan(token, [c] + after, literal, span) == Scan(token, after, literal + [c], span)
  {
    assert ([c] + after)[1..] == after;
  }

  lemma EscapeStart(text: string)
    requires text != ""
    ensures EscapeBraces(text) != "" && !IsBrace(EscapeBraces(text)[0])
  {
  }

  lemma ScanEscapedStep(token: Tokenizer, text: string, rest: string, literal: string, span: Option<string>)
    requires text != "" && (text == "\\" ==> rest == "" || !IsBrace(rest[0]))
    ensures Scan(token, EscapeBraces(text) + rest, literal, span)
         == Scan(token, EscapeBraces(text[1..]) + rest, literal + [text[0]], span)
  {
    var c, tail := text[0], text[1..];
    var after := EscapeBraces(tail) + rest;
    if IsBrace(c) {
      assert EscapeBraces(text) + rest == ['\\', c] + after;
      ScanBrace(token, c, after, literal, span);
    } else {
      assert EscapeBraces(text) + rest == [c] + after;
      if tail != "" { EscapeStart(tail); } else { assert text == [c]; }
      ScanChar(token, c, after, literal, span);
    }
  }

  lemma {:induction false} ScanEscaped(
    token: Tokenizer, text: string, rest: string, literal: string, span: Option<string>)
    requires text != "" && text[|text| - 1] == '\\' ==> rest == "" || !IsBrace(rest[0])
    ensures Scan(token, EscapeBraces(text) + rest, literal, span) == Scan(token, rest, literal + text, span)
    decreases |text|
  {
    if text == "" {
      EmptyConcat(rest);
      assert literal + text == literal;
    } else {
      ScanEscapedStep(token, text, rest, literal, span);
      ScanEscaped(token, text[1..], rest, literal + [text[0]], span);
      ConcatAssociates(literal, [text[0]], text[1..]);
      HeadAndTail(text);
    }
  }

  lemma BracedShape(raw: string, rest: string)
    requires '}' !in raw
    ensures var source := "{" + raw + "}" + rest;
            && source[0] == '{' && Find(source, '}') == 1 + |raw|
            && source[1..1 + |raw|] == raw && source[2 + |raw|..] == rest
  {
    var source := "{" + raw + "}" + rest;
    assert source[1..1 + |raw|] == raw && source[1 + |raw|] == '}';
    forall j | 1 <= j < 1 + |raw| ensures source[j] != '}' {
      assert source[j] == raw[j - 1] && raw[j - 1] in raw;
    }
  }

  /** One `{raw}` in front of the rest. */
  lemma ScanBraced(token: Tokenizer, raw: string, rest: string, literal: string, span: Option<string>)
    requires '}' !in raw
    ensures Scan(token, "{" + raw + "}" + rest, literal, span) ==
            FlushLiteral(literal, span)
            + (if ":" <= raw then Scan(token, rest, "", if raw[1..] == "/" then None else Some(raw[1..]))
               else [token(raw, span)] + Scan(token, rest, "", span))
  {
    BracedShape(raw, rest);
    ConcatAssociates(FlushLiteral(literal, span), [token(raw, span)], Scan(token, rest, "", span));
  }

  /** The first colon separates the name from the color. */
  lemma SplitsAtColon(name: string, color: Option<string>)
    requires ':' !in name
    ensures var raw := TokenText(name, color);
            var colonAt := Find(raw, ':');
            && colonAt == |name| <= |raw| && raw[..colonAt] == name
            && (color.None? <==> colonAt == |raw|)
            && (color.Some? ==> raw[colonAt + 1..] == color.value)
  {
    var raw := TokenText(name, color);
    assert forall i :: 0 <= i < |name| ==> raw[i] == name[i] && name[i] in name;
    if color.Some? {
      assert raw[|name|] == ':';
    }
  }

  lemma TokenReadsBack(name: string, color: Option<string>)
    requires Known(name) && ':' !in name && name != ""
    ensures TokenPart(TokenText(name, color), None) == Token(name, color, LevelColored(name, color))
    ensures !(":" <= TokenText(name, color))
  {
    SplitsAtColon(name, color);
    assert TokenText(name, color)[0] == name[0] && name[0] in name;
  }

  /** An open literal only grows until it is flushed. */
  lemma {:induction false} LiteralGrows(token: Tokenizer, rest: string, literal: string, span: Option<string>)
    requires literal != ""
    ensures var parts := Scan(token, rest, literal, span);
            parts != [] && parts[0].Literal? && parts[0].color == span && literal <= parts[0].text
    decreases |rest|
  {
    if rest != "" {
      if EscapesBrace(rest) {
        LiteralGrows(token, rest[2..], literal + [rest[1]], span);
      } else if rest[0] != '{' || Find(rest, '}') == |rest| {
        LiteralGrows(token, rest[1..], literal + [rest[0]], span);
      }
    }
  }

  /** Where a printed literal ending in a backslash meets a brace, the scanner reads an escape instead. */
  lemma DanglingMisreads(token: Tokenizer, text: string, rest: string, span: Option<string>)
    requires text != "" && text[|text| - 1] == '\\'
    ensures var parts := Scan(token, EscapeBraces(text) + "{" + rest, "", span);
            parts != [] && parts[0] != Literal(text, span)
  {
    var init := text[..|text| - 1];
    EscapeInit(text);
    assert EscapeBraces(text) + "{" + rest == EscapeBraces(init) + ("\\{" + rest);
    ScanEscaped(token, init, "\\{" + rest, "", span);
    assert "" + init == init;
    assert ("\\{" + rest)[2..] == rest;
    LiteralGrows(token, rest, init + ['{'], span);
  }

  lemma {:induction false} EscapeInit(text: string)
    requires text != "" && !IsBrace(text[|text| - 1])
    ensures EscapeBraces(text) == EscapeBraces(text[..|text| - 1]) + [text[|text| - 1]]
    decreases |text|
  {
    if |text| > 1 {
      EscapeInit(text[1..]);
      assert text[1..][..|text| - 2] == text[..|text| - 1][1..];
    } else {
      assert text == [text[0]] && text[1..] == "";
    }
  }

  /** A printed part starts with a brace exactly if it is not an uncolored literal. */
  lemma PrintStart(token: Tokenizer, parts: seq<Part>)
    requires parts != [] && Readable(token, parts)
    ensures Print(parts) != ""
    ensures !Plain(parts[0]) ==> Print(parts)[0] == '{'
  {
  }

  /** The text of a colored literal: an opening marker, the literal, a closing marker. */
  lemma ColoredShape(text: string, c: string, rest: string)
    ensures PrintPart(Literal(text, Some(c))) + rest
         == "{" + (":" + c) + "}" + (EscapeBraces(text) + ("{" + ":/" + "}" + rest))
    ensures "{" + ":/" + "}" + rest == "{" + (":/}" + rest)
  {
    assert "{" + ":/" + "}" == "{:/}";
  }

  lemma OpenSpan(token: Tokenizer, c: string, inner: string, literal: string)
    requires '}' !in c && c != "/"
    ensures Scan(token, "{" + (":" + c) + "}" + inner, literal, None)
         == FlushLiteral(literal, None) + Scan(token, inner, "", Some(c))
  {
    assert (":" + c)[1..] == c;
    ScanBraced(token, ":" + c, inner, literal, None);
  }

  lemma CloseSpan(token: Tokenizer, c: string, rest: string, literal: string)
    ensures Scan(token, "{" + ":/" + "}" + rest, literal, Some(c))
         == FlushLiteral(literal, Some(c)) + Scan(token, rest, "", None)
  {
    assert ":/"[1..] == "/";
    ScanBraced(token, ":/", rest, literal, Some(c));
  }

  lemma ScanColored(token: Tokenizer, text: string, c: string, rest: string, literal: string)
    requires '}' !in c && c != "/" && text != "" && text[|text| - 1] != '\\'
    ensures Scan(token, PrintPart(Literal(text, Some(c))) + rest, literal, None) ==
            FlushLiteral(literal, None) + [Literal(text, Some(c))] + Scan(token, rest, "", None)
  {
    var closing := "{" + ":/" + "}" + rest;
    ColoredShape(text, c, rest);
    OpenSpan(token, c, EscapeBraces(text) + closing, literal);
    ScanEscaped(token, text, closing, "", Some(c));
    assert "" + text == text;
    CloseSpan(token, c, rest, text);
  }

  lemma ScanColoredDangling(token: Tokenizer, text: string, c: string, rest: string, literal: string)
    requires '}' !in c && c != "/" && text != "" && text[|text| - 1] == '\\'
    ensures var flushed := FlushLiteral(literal, None);
            var parts := Scan(token, PrintPart(Literal(text, Some(c))) + rest, literal, None);
            |parts| > |flushed| && parts[|flushed|] != Literal(text, Some(c))
  {
    var inner := EscapeBraces(text) + ("{" + (":/}" + rest));
    ColoredShape(text, c, rest);
    OpenSpan(token, c, inner, literal);
    ConcatAssociates(EscapeBraces(text), "{", ":/}" + rest);
    DanglingMisreads(token, text, ":/}" + rest, Some(c));
  }

  lemma ScanToken(token: Tokenizer, p: Part, rest: string, literal: string)
    requires p.Token? && ReadablePart(token, p)
    ensures Scan(token, PrintPart(p) + rest, literal, None)
            == FlushLiteral(literal, None) + [p] + Scan(token, rest, "", None)
  {
    ScanBraced(token, TokenText(p.name, p.color), rest, literal, None);
  }

  lemma ScanPlain(token: Tokenizer, text: string, rest: string)
    requires text != ""
    requires text[|text| - 1] == '\\' ==> rest == "" || !IsBrace(rest[0])
    ensures Scan(token, EscapeBraces(text) + rest, "", None) == Scan(token, rest, text, None)
  {
    ScanEscaped(token, text, rest, "", None);
    assert "" + text == text;
  }

  /** Cancel what both sides start with. */
  lemma SamePrefix(flushed: seq<Part>, p: Part, rest: seq<Part>, tail: seq<Part>)
    ensures flushed + [p] + rest == flushed + ([p] + tail) <==> rest == FlushLiteral("", None) + tail
  {
    var left, right := flushed + [p] + rest, flushed + ([p] + tail);
    assert left[|flushed| + 1..] == rest && right[|flushed| + 1..] == tail;
    assert FlushLiteral("", None) + tail == tail;
  }

  /** The text of the first part, whole, in front of the rest. */
  lemma ScanHead(token: Tokenizer, parts: seq<Part>, literal: string)
    requires Readable(token, parts) && parts != [] && !Plain(parts[0]) && !HeadDangles(parts)
    ensures Scan(token, Print(parts), literal, None) ==
            FlushLiteral(literal, None) + [parts[0]] + Scan(token, Print(parts[1..]), "", None)
  {
    var p := parts[0];
    if p.Token? {
      ScanToken(token, p, Print(parts[1..]), literal);
    } else {
      ScanColored(token, p.text, p.color.value, Print(parts[1..]), literal);
    }
  }

  lemma ScanDanglingPlain(token: Tokenizer, text: string, tail: seq<Part>)
    requires Readable(token, tail) && tail != [] && !Plain(tail[0]) && text != "" && text[|text| - 1] == '\\'
    ensures var parts := Scan(token, EscapeBraces(text) + Print(tail), "", None);
            parts != [] && parts[0] != Literal(text, None)
  {
    PrintStart(token, tail);
    var rest := Print(tail)[1..];
    HeadAndTail(Print(tail));
    ConcatAssociates(EscapeBraces(text), "{", rest);
    DanglingMisreads(token, text, rest, None);
  }

  lemma ScanDanglingHead(token: Tokenizer, parts: seq<Part>, literal: string)
    requires Readable(token, parts) && parts != [] && HeadDangles(parts) && (literal != "" ==> !Plain(parts[0]))
    ensures Scan(token, Print(parts), literal, None) != FlushLiteral(literal, None) + parts
  {
    var p, flushed := parts[0], FlushLiteral(literal, None);
    assert (flushed + parts)[|flushed|] == p;
    if p.color.Some? {
      ScanColoredDangling(token, p.text, p.color.value, Print(parts[1..]), literal);
    } else {
      ScanDanglingPlain(token, p.text, parts[1..]);
    }
  }

  lemma ScanPlainHead(token: Tokenizer, parts: seq<Part>)
    requires Readable(token, parts) && parts != [] && Plain(parts[0]) && !HeadDangles(parts)
    ensures Scan(token, Print(parts), "", None) == Scan(token, Print(parts[1..]), parts[0].text, None)
    ensures FlushLiteral("", None) + parts == FlushLiteral(parts[0].text, None) + parts[1..]
  {
    if |parts| == 1 { assert Print(parts[1..]) == ""; }
    ScanPlain(token, parts[0].text, Print(parts[1..]));
  }

  /**
   * Scanning what was printed, with `literal` still open in front: it gives the parts back
   * exactly when no literal ends in a backslash right before a printed brace.
   */
  lemma {:induction false} ScanPrinted(token: Tokenizer, parts: seq<Part>, literal: string)
    requires Readable(token, parts) && (literal != "" && parts != [] ==> !Plain(parts[0]))
    ensures Scan(token, Print(parts), literal, None) == FlushLiteral(literal, None) + parts <==> !Dangles(parts)
    decreases |parts|
  {
    if parts == [] {
      assert FlushLiteral(literal, None) + parts == FlushLiteral(literal, None);
    } else if HeadDangles(parts) {
      ScanDanglingHead(token, parts, literal);
    } else if Plain(parts[0]) {
      ScanPlainHead(token, parts);
      ScanPrinted(token, parts[1..], parts[0].text);
    } else {
      ScanHead(token, parts, literal);
      ScanPrinted(token, parts[1..], "");
      SamePrefix(FlushLiteral(literal, None), parts[0], Scan(token, Print(parts[1..]), "", None), parts[1..]);
      assert [parts[0]] + parts[1..] == parts;
    }
  }

  lemma KnownIsNonempty(name: string)
    requires Known(name)
    ensures name != ""
  {
  }

  lemma {:induction false} WellFormedIsReadable(parts: seq<Part>)
    requires WellFormed(parts)
    ensures Readable(TokenPart, parts)
    decreases |parts|
  {
    if parts != [] {
      var p := parts[0];
      WellFormedIsReadable(parts[1..]);
      if p.Token? {
        KnownIsNonempty(p.name);
        TokenReadsBack(p.name, p.color);
      }
    }
  }

  /**
   * Round trip: well-formed parts survive printing and parsing exactly when no literal ends
   * in a backslash right before a printed brace. The syntax has no way to write that.
   */
  lemma ParseUndoesPrintIff(parts: seq<Part>)
    requires WellFormed(parts)
    ensures Parse(Print(parts)) == parts <==> !Dangles(parts)
  {
    WellFormedIsReadable(parts);
    ScanPrinted(TokenPart, parts, "");
    assert FlushLiteral("", None) + parts == parts;
  }

  /** A concrete template text that cannot be written. */
  lemma BackslashBeforeToken()
    ensures var parts := [Literal("\\", None), Token("message", None, false)];
            WellFormed(parts) && Parse(Print(parts)) != parts
  {
    var parts := [Literal("\\", None), Token("message", None, false)];
    assert parts[1..] == [Token("message", None, false)];
    assert parts[1..][1..] == [];
    ParseUndoesPrintIff(parts);
  }
}
