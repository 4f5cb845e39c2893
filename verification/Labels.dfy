/** Label serialization of src/metrics/base.metric.ts (the Prometheus text format). */
module Labels {
  import opened Sequences
  import opened OrderedMap

  const BACKSLASH: char := '\\'
  const QUOTE: char := '"'
  const NEWLINE: char := '\n'

  /** String.replaceAll with a one-character pattern. */
  function ReplaceAll(s: string, c: char, to: string): string {
    if s == "" then "" else (if s[0] == c then to else [s[0]]) + ReplaceAll(s[1..], c, to)
  }

  /** The three replaceAll calls, one after the other. */
  function EscapeChain(value: string): string {
    ReplaceAll(ReplaceAll(ReplaceAll(value, BACKSLASH, "\\\\"), NEWLINE, "\\n"), QUOTE, "\\\"")
  }

  /** One character of the escaped form. */
  function EscapeChar(c: char): string {
    if c == BACKSLASH then "\\\\" else if c == NEWLINE then "\\n" else if c == QUOTE then "\\\"" else [c]
  }

  function Escape(value: string): string {
    if value == "" then "" else EscapeChar(value[0]) + Escape(value[1..])
  }

  /** Reads an escaped value up to its closing quote: the value, and the text behind the quote. */
  function ReadValue(text: string): Option<(string, string)>
    decreases |text|
  {
    if text == "" || text[0] == NEWLINE then None
    else if text[0] == QUOTE then Some(("", text[1..]))
    else
      var escaped := text[0] == BACKSLASH;
      if escaped && (|text| == 1 || text[1] !in {BACKSLASH, QUOTE, 'n'}) then None
      else
        var c := if !escaped then text[0] else if text[1] == 'n' then NEWLINE else text[1];
        var rest := ReadValue(text[if escaped then 2 else 1..]);
        if rest.None? then None else Some(([c] + rest.value.0, rest.value.1))
  }

  lemma {:induction false} ReplaceAllConcat(a: string, b: string, c: char, to: string)
    ensures ReplaceAll(a + b, c, to) == ReplaceAll(a, c, to) + ReplaceAll(b, c, to)
    decreases |a|
  {
    if a == "" {
      assert a + b == b;
    } else {
      assert (a + b)[1..] == a[1..] + b;
      ReplaceAllConcat(a[1..], b, c, to);
    }
  }

  lemma ReplaceOne(x: char, c: char, to: string)
    ensures ReplaceAll([x], c, to) == if x == c then to else [x]
  {
    assert [x][1..] == "";
  }

  /** A later replacement never touches what an earlier one wrote. */
  lemma EscapeOne(x: char)
    ensures EscapeChain([x]) == EscapeChar(x)
  {
    ReplaceOne(x, BACKSLASH, "\\\\");
    if x == BACKSLASH {
      assert ReplaceAll("\\\\", NEWLINE, "\\n") == "\\\\" by { ReplaceTwo('\\', '\\', NEWLINE, "\\n"); }
      ReplaceTwo('\\', '\\', QUOTE, "\\\"");
    } else {
      ReplaceOne(x, NEWLINE, "\\n");
      if x == NEWLINE {
        ReplaceTwo('\\', 'n', QUOTE, "\\\"");
      } else {
        ReplaceOne(x, QUOTE, "\\\"");
      }
    }
  }

  lemma ReplaceTwo(x: char, y: char, c: char, to: string)
    requires x != c && y != c
    ensures ReplaceAll([x, y], c, to) == [x, y]
  {
    assert [x, y][1..] == [y];
    ReplaceOne(y, c, to);
  }

  /** The chain of whole-string replacements is one character-wise escape. */
  lemma {:induction false} ChainIsEscape(value: string)
    ensures EscapeChain(value) == Escape(value)
    decreases |value|
  {
    if value != "" {
      var head, tail := [value[0]], value[1..];
      assert value == head + tail;
      ChainIsEscape(tail);
      EscapeOne(value[0]);
      ReplaceAllConcat(head, tail, BACKSLASH, "\\\\");
      var h1, t1 := ReplaceAll(head, BACKSLASH, "\\\\"), ReplaceAll(tail, BACKSLASH, "\\\\");
      ReplaceAllConcat(h1, t1, NEWLINE, "\\n");
      ReplaceAllConcat(ReplaceAll(h1, NEWLINE, "\\n"), ReplaceAll(t1, NEWLINE, "\\n"), QUOTE, "\\\"");
    }
  }

  /** Reading undoes escaping, whatever follows the closing quote. */
  lemma {:induction false} ReadUndoesEscape(value: string, rest: string)
    ensures ReadValue(Escape(value) + [QUOTE] + rest) == Some((value, rest))
    decreases |value|
  {
    if value == "" {
      assert (Escape(value) + [QUOTE] + rest)[1..] == rest;
    } else {
      var after := Escape(value[1..]) + [QUOTE] + rest;
      assert Escape(value) + [QUOTE] + rest == EscapeChar(value[0]) + after;
      ReadOne(value[0], after);
      ReadUndoesEscape(value[1..], rest);
      assert value == [value[0]] + value[1..];
    }
  }

  /** Reading one escaped character gives it back. */
  lemma ReadOne(c: char, after: string)
    ensures var read := ReadValue(after);
            ReadValue(EscapeChar(c) + after) == if read.None? then None else Some(([c] + read.value.0, read.value.1))
  {
    var e := EscapeChar(c);
    assert (e + after)[|e|..] == after;
  }

  // ----- label keys -----

  /** Label values as text: what String(labels[name]) gives, "" when absent. */
  type Values = map<string, string>

  function ValueOf(labels: Values, name: string): string {
    if name in labels then labels[name] else ""
  }

  function Pair(name: string, value: string): string {
    name + "=\"" + Escape(value) + "\""
  }

  function LabelKey(names: seq<string>, labels: Values): string {
    if names == [] then ""
    else if |names| == 1 then Pair(names[0], ValueOf(labels, names[0]))
    else Pair(names[0], ValueOf(labels, names[0])) + "," + LabelKey(names[1..], labels)
  }

  /** Two label sets agree on every label of the metric, where an absent label counts as "". */
  predicate SameValues(names: seq<string>, a: Values, b: Values) {
    forall i :: 0 <= i < |names| ==>
      (if names[i] in a then a[names[i]] else "") == (if names[i] in b then b[names[i]] else "")
  }

  /** What follows the value of the first label. */
  function KeyRest(names: seq<string>, labels: Values): string
    requires names != []
  {
    if |names| == 1 then "" else "," + LabelKey(names[1..], labels)
  }

  lemma LabelKeySplit(names: seq<string>, labels: Values)
    requires names != []
    ensures LabelKey(names, labels) ==
            (names[0] + "=\"") + (Escape(ValueOf(labels, names[0])) + [QUOTE] + KeyRest(names, labels))
  {
    var start, value := names[0] + "=\"", Escape(ValueOf(labels, names[0]));
    Regroup(start, value, "\"", KeyRest(names, labels));
    if |names| > 1 {
      ConcatAssociates(Pair(names[0], ValueOf(labels, names[0])), ",", LabelKey(names[1..], labels));
    } else {
      assert Pair(names[0], ValueOf(labels, names[0])) + "" == Pair(names[0], ValueOf(labels, names[0]));
    }
  }

  lemma Regroup(a: string, b: string, c: string, d: string)
    ensures a + b + c + d == a + (b + c + d)
  {
  }

  /** Keys that agree agree on the first value, and on what follows it. */
  lemma SameKeySameHead(names: seq<string>, a: Values, b: Values)
    requires names != [] && LabelKey(names, a) == LabelKey(names, b)
    ensures ValueOf(a, names[0]) == ValueOf(b, names[0]) && KeyRest(names, a) == KeyRest(names, b)
  {
    var start := names[0] + "=\"";
    LabelKeySplit(names, a);
    LabelKeySplit(names, b);
    CancelStart(start, Escape(ValueOf(a, names[0])) + [QUOTE] + KeyRest(names, a),
                Escape(ValueOf(b, names[0])) + [QUOTE] + KeyRest(names, b));
    ReadUndoesEscape(ValueOf(a, names[0]), KeyRest(names, a));
    ReadUndoesEscape(ValueOf(b, names[0]), KeyRest(names, b));
  }

  lemma CancelStart(start: string, x: string, y: string)
    requires start + x == start + y
    ensures x == y
  {
    assert (start + x)[|start|..] == x && (start + y)[|start|..] == y;
  }

  lemma SameKeyIff(names: seq<string>, a: Values, b: Values)
    requires names != []
    ensures LabelKey(names, a) == LabelKey(names, b) <==>
            ValueOf(a, names[0]) == ValueOf(b, names[0]) && LabelKey(names[1..], a) == LabelKey(names[1..], b)
  {
    if LabelKey(names, a) == LabelKey(names, b) {
      SameKeySameHead(names, a, b);
      if |names| > 1 { CancelStart(",", LabelKey(names[1..], a), LabelKey(names[1..], b)); }
    }
  }

  lemma SameValuesCons(names: seq<string>, a: Values, b: Values)
    requires names != []
    ensures SameValues(names, a, b) <==>
            ValueOf(a, names[0]) == ValueOf(b, names[0]) && SameValues(names[1..], a, b)
  {
    var rest := names[1..];
    assert forall i :: 0 <= i < |rest| ==> rest[i] == names[i + 1];
    if ValueOf(a, names[0]) == ValueOf(b, names[0]) && SameValues(rest, a, b) {
      forall i | 0 <= i < |names| ensures ValueOf(a, names[i]) == ValueOf(b, names[i]) {
        if i > 0 { assert rest[i - 1] == names[i]; }
      }
    }
  }

  /** Equal keys mean equal values for every label of the metric, and conversely. */
  lemma {:induction false} LabelKeyInjective(names: seq<string>, a: Values, b: Values)
    ensures LabelKey(names, a) == LabelKey(names, b) <==> SameValues(names, a, b)
    decreases |names|
  {
    if names != [] {
      LabelKeyInjective(names[1..], a, b);
      SameKeyIff(names, a, b);
      SameValuesCons(names, a, b);
    }
  }

  /** For label sets that hold every label of the metric: equal keys exactly for equal values. */
  lemma LabelKeyDeterminesValues(names: seq<string>, a: Values, b: Values)
    requires forall n :: n in names ==> n in a && n in b
    ensures LabelKey(names, a) == LabelKey(names, b) <==> forall n :: n in names ==> a[n] == b[n]
  {
    LabelKeyInjective(names, a, b);
    assert SameValues(names, a, b) ==> forall n :: n in names ==> a[n] == b[n] by {
      forall n | n in names && SameValues(names, a, b) ensures a[n] == b[n] {
        var i :| 0 <= i < |names| && names[i] == n;
      }
    }
  }

  /** An absent label has the key of an empty one. */
  lemma AbsentReadsEmpty(names: seq<string>, labels: Values, name: string)
    requires name !in labels
    ensures LabelKey(names, labels) == LabelKey(names, labels[name := ""])
  {
    LabelKeyInjective(names, labels, labels[name := ""]);
  }

  const ESCAPE_CACHE_CAP := 512

  /** The static memo of escapeValue: first in, first out. */
  class EscapeCache {
    var entries: Map<string, string>

    ghost predicate Valid()
      reads this
    {
      && OrderedMap.Valid(entries) && |entries.keys| <= ESCAPE_CACHE_CAP
      && forall v :: v in entries.vals ==> entries.vals[v] == Escape(v)
    }

    constructor ()
      ensures Valid() && entries == Map([], map[])
    {
      entries := Map([], map[]);
    }

    /** Whatever the cache holds, the result is the escape that ReadValue undoes. */
    method EscapeValue(value: string) returns (escaped: string)
      requires Valid()
      modifies this
      ensures entries == Remember(old(entries), ESCAPE_CACHE_CAP, value, Escape(value))
      ensures Valid() && escaped == Escape(value) && ReadValue(escaped + [QUOTE]) == Some((value, ""))
    {
      ReadUndoesEscape(value, "");
      assert Escape(value) + [QUOTE] + "" == Escape(value) + [QUOTE];
      if value in entries.vals { return entries.vals[value]; }
      escaped := EscapeChain(value);
      ChainIsEscape(value);
      if |entries.keys| >= ESCAPE_CACHE_CAP {
        var firstKey := entries.keys[0];
        assert firstKey in entries.keys;
        RemoveValid(entries, firstKey);
        entries := Remove(entries, firstKey);
      }
      PutValid(entries, value, escaped);
      entries := Put(entries, value, escaped);
    }
  }
}
