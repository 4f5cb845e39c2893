/** Reading the drawn tree of src/format/span.format.ts back, by its indentation and connectors. */
module SpanDrawings {
  import opened Sequences
  import opened Spans

  /** A span with the spans drawn below it, in order. */
  datatype Tree = Tree(spanId: string, children: seq<Tree>)

  /** The trees under some nodes of a forest. */
  ghost function TreesOf(forest: Forest, rank: map<string, nat>, ids: seq<string>, bound: nat): seq<Tree>
    requires Ranked(forest, rank) && Covered(forest, rank, ids, bound)
    decreases bound, |ids|
  {
    if ids == [] then []
    else
      [Tree(ids[0], TreesOf(forest, rank, ChildrenOf(forest, ids[0]), rank[ids[0]]))]
      + TreesOf(forest, rank, ids[1..], bound)
  }

  // ----- a reader of drawings -----

  /** The trees read, and the lines left over. */
  datatype Reading = Reading(trees: seq<Tree>, rest: seq<Line>)

  /**
   * Reads siblings whose lines begin with `indent`. "+-- " announces another sibling, "`-- " is the last one; the
   * lines below a span begin with a bar under the former and with blanks under the latter.
   */
  function ReadSiblings(lines: seq<Line>, indent: string): (r: Option<Reading>)
    ensures r.Some? ==> |r.value.rest| < |lines|
    decreases |lines|, 0
  {
    if lines == [] then None
    else
      var last := indent + "`-- " <= lines[0].text;
      if !last && !(indent + "+-- " <= lines[0].text) then None
      else
        var below := ReadBelow(lines[1..], indent + if last then "   " else "|  ");
        if below.None? then None
        else
          var tree := Tree(lines[0].spanId, below.value.trees);
          if last then Some(Reading([tree], below.value.rest))
          else
            var others := ReadSiblings(below.value.rest, indent);
            if others.None? then None else Some(Reading([tree] + others.value.trees, others.value.rest))
  }

  /** The lines below a span, if there are any. */
  function ReadBelow(lines: seq<Line>, indent: string): (r: Option<Reading>)
    ensures r.Some? ==> |r.value.rest| <= |lines|
    decreases |lines|, 1
  {
    if lines != [] && indent <= lines[0].text then ReadSiblings(lines, indent) else Some(Reading([], lines))
  }

  // ----- drawings read back -----

  /** Indentation is made of blanks and bars. */
  predicate Indentation(s: string) {
    forall i :: 0 <= i < |s| ==> s[i] == ' ' || s[i] == '|'
  }

  /** The next line, if any, stands at `indent` or further left: its connector begins where indentation would go on. */
  predicate Outside(lines: seq<Line>, indent: string) {
    lines == [] ||
    exists j :: 0 <= j <= |indent| && j < |lines[0].text| && (lines[0].text[j] == '`' || lines[0].text[j] == '+')
  }

  lemma OutsideIsNotBelow(lines: seq<Line>, indent: string, block: string)
    requires Outside(lines, indent) && Indentation(indent + block) && block != ""
    ensures lines != [] ==> !(indent + block <= lines[0].text)
  {
  }

  lemma StaysOutside(lines: seq<Line>, indent: string, block: string)
    requires Outside(lines, indent)
    ensures Outside(lines, indent + block)
  {
    if lines != [] {
      var j :| 0 <= j <= |indent| && j < |lines[0].text| && (lines[0].text[j] == '`' || lines[0].text[j] == '+');
      assert j <= |indent + block|;
    }
  }

  lemma {:induction false} PadKeeps(text: string, width: int)
    ensures text <= Pad(text, width)
    decreases width - |text|
  {
    if |text| < width { PadKeeps(text + " ", width); }
  }

  /** A drawn line begins with its indentation and its connector. */
  lemma LineStart(r: Record, indent: string, isLast: bool)
    ensures var text := LineText(r, indent, isLast);
            && indent + (if isLast then "`-- " else "+-- ") <= text
            && |indent| < |text| && text[|indent|] == if isLast then '`' else '+'
  {
    var head := indent + (if isLast then "`-- " else "+-- ") + r.name;
    PadKeeps(head, Max(|head| + 1, WIDTH));
    assert head[..|indent| + 4] == indent + if isLast then "`-- " else "+-- ";
  }

  lemma SiblingsStandOutside(
    forest: Forest, rank: map<string, nat>, ids: seq<string>, indent: string, bound: nat, rest: seq<Line>)
    requires Ranked(forest, rank) && Covered(forest, rank, ids, bound) && Outside(rest, indent)
    ensures Outside(RenderList(forest, rank, ids, indent, bound) + rest, indent)
  {
    if ids == [] {
      EmptyConcat(rest);
    } else {
      LineStart(forest.nodes[ids[0]], indent, |ids| == 1);
    }
  }

  lemma FirstLine(forest: Forest, rank: map<string, nat>, ids: seq<string>, indent: string, bound: nat)
    requires Ranked(forest, rank) && Covered(forest, rank, ids, bound) && ids != []
    ensures var lines := RenderList(forest, rank, ids, indent, bound);
            lines != [] && indent <= lines[0].text
  {
    LineStart(forest.nodes[ids[0]], indent, |ids| == 1);
    assert indent <= indent + (if |ids| == 1 then "`-- " else "+-- ");
  }

  /** The lines of the first sibling, of those below it, and of the other siblings. */
  lemma ListShape(
    forest: Forest, rank: map<string, nat>, ids: seq<string>, indent: string, bound: nat, rest: seq<Line>)
    requires Ranked(forest, rank) && Covered(forest, rank, ids, bound) && ids != []
    ensures var lines := RenderList(forest, rank, ids, indent, bound) + rest;
            var inner := indent + if |ids| == 1 then "   " else "|  ";
            && lines != [] && lines[0] == Line(ids[0], LineText(forest.nodes[ids[0]], indent, |ids| == 1))
            && lines[1..] == RenderList(forest, rank, ChildrenOf(forest, ids[0]), inner, rank[ids[0]])
                             + (RenderList(forest, rank, ids[1..], indent, bound) + rest)
  {
    var line := [Line(ids[0], LineText(forest.nodes[ids[0]], indent, |ids| == 1))];
    var inner := indent + if |ids| == 1 then "   " else "|  ";
    var below := RenderList(forest, rank, ChildrenOf(forest, ids[0]), inner, rank[ids[0]]);
    var others := RenderList(forest, rank, ids[1..], indent, bound);
    assert RenderList(forest, rank, ids, indent, bound) + rest == line + (below + (others + rest));
  }

  /** What the reader makes of the lines below a span. */
  lemma BelowReadsBack(forest: Forest, rank: map<string, nat>, id: string, indent: string, block: string,
                       rest: seq<Line>)
    requires Ranked(forest, rank) && id in forest.nodes && id in rank
    requires Indentation(indent + block) && block != "" && Outside(rest, indent)
    requires var kids, inner := ChildrenOf(forest, id), indent + block;
             Outside(rest, inner) ==>
               kids == [] || ReadSiblings(RenderList(forest, rank, kids, inner, rank[id]) + rest, inner)
                             == Some(Reading(TreesOf(forest, rank, kids, rank[id]), rest))
    ensures ReadBelow(RenderList(forest, rank, ChildrenOf(forest, id), indent + block, rank[id]) + rest, indent + block)
            == Some(Reading(TreesOf(forest, rank, ChildrenOf(forest, id), rank[id]), rest))
  {
    StaysOutside(rest, indent, block);
    if ChildrenOf(forest, id) == [] {
      OutsideIsNotBelow(rest, indent, block);
      EmptyConcat(rest);
    } else {
      FirstLine(forest, rank, ChildrenOf(forest, id), indent + block, rank[id]);
    }
  }

  /** One step of the reader. */
  lemma ReadStep(lines: seq<Line>, indent: string, isLast: bool, trees: seq<Tree>, rest: seq<Line>)
    requires lines != [] && indent + (if isLast then "`-- " else "+-- ") <= lines[0].text
    requires ReadBelow(lines[1..], indent + if isLast then "   " else "|  ") == Some(Reading(trees, rest))
    ensures var tree, others := Tree(lines[0].spanId, trees), ReadSiblings(rest, indent);
            ReadSiblings(lines, indent) ==
            if isLast then Some(Reading([tree], rest))
            else if others.None? then None else Some(Reading([tree] + others.value.trees, others.value.rest))
  {
    var text := lines[0].text;
    assert text[|indent|] == (indent + if isLast then "`-- " else "+-- ")[|indent|];
    if indent + "`-- " <= text { assert text[|indent|] == (indent + "`-- ")[|indent|]; }
  }

  /** Siblings drawn at some indentation read back as their trees, whatever stands further out behind them. */
  lemma {:induction false} SiblingsReadBack(
    forest: Forest, rank: map<string, nat>, ids: seq<string>, indent: string, bound: nat, rest: seq<Line>)
    requires Ranked(forest, rank) && Covered(forest, rank, ids, bound) && ids != []
    requires Indentation(indent) && Outside(rest, indent)
    ensures ReadSiblings(RenderList(forest, rank, ids, indent, bound) + rest, indent)
            == Some(Reading(TreesOf(forest, rank, ids, bound), rest))
    decreases bound, |ids|
  {
    var block := if |ids| == 1 then "   " else "|  ";
    var others := RenderList(forest, rank, ids[1..], indent, bound) + rest;
    ListShape(forest, rank, ids, indent, bound, rest);
    LineStart(forest.nodes[ids[0]], indent, |ids| == 1);
    SiblingsStandOutside(forest, rank, ids[1..], indent, bound, rest);
    StaysOutside(others, indent, block);
    if ChildrenOf(forest, ids[0]) != [] {
      SiblingsReadBack(forest, rank, ChildrenOf(forest, ids[0]), indent + block, rank[ids[0]], others);
    }
    BelowReadsBack(forest, rank, ids[0], indent, block, others);
    var trees := TreesOf(forest, rank, ChildrenOf(forest, ids[0]), rank[ids[0]]);
    ReadStep(RenderList(forest, rank, ids, indent, bound) + rest, indent, |ids| == 1, trees, others);
    if |ids| == 1 {
      assert RenderList(forest, rank, ids[1..], indent, bound) == [] && TreesOf(forest, rank, ids[1..], bound) == [];
      EmptyConcat(rest);
      assert others == rest && TreesOf(forest, rank, ids, bound) == [Tree(ids[0], trees)];
    } else {
      SiblingsReadBack(forest, rank, ids[1..], indent, bound, rest);
    }
  }

  /**
   * The drawing says it all: from the indentation and the connectors of its lines the forest reads back, every span
   * under its parent and in order.
   */
  lemma DrawingReadsBack(forest: Forest, rank: map<string, nat>, bound: nat)
    requires Renderable(forest, rank, bound) && forest.roots != []
    ensures ReadSiblings(RenderList(forest, rank, forest.roots, "", bound), "")
            == Some(Reading(TreesOf(forest, rank, forest.roots, bound), []))
  {
    SiblingsReadBack(forest, rank, forest.roots, "", bound, []);
    assert RenderList(forest, rank, forest.roots, "", bound) + [] == RenderList(forest, rank, forest.roots, "", bound);
  }

  // ----- the text of a line -----

  function Blanks(n: nat): (s: string)
    ensures |s| == n && forall i :: 0 <= i < n ==> s[i] == ' '
  {
    if n == 0 then "" else Blanks(n - 1) + " "
  }

  lemma {:induction false} PadAddsBlanks(text: string, width: int)
    ensures Pad(text, width) == text + Blanks(if |text| >= width then 0 else width - |text|)
    decreases width - |text|
  {
    if |text| < width {
      PadAddsBlanks(text + " ", width);
      BlanksFront(width - |text| - 1);
      ConcatAssociates(text, " ", Blanks(width - |text| - 1));
    } else {
      assert text + "" == text;
    }
  }

  lemma {:induction false} BlanksFront(n: nat)
    ensures Blanks(n + 1) == " " + Blanks(n)
    decreases n
  {
    assert Blanks(n + 1) == " " + Blanks(n);
  }

  /** What the line of a span says, behind its indentation and connector. */
  predicate Says(text: string, r: Record, start: string) {
    var head := start + r.name;
    text == head + Blanks(if |head| < 24 then 24 - |head| else 1) + "  " + r.duration + "  span=" + r.spanId
            + if r.parentId.Some? then " parent=" + r.parentId.value else ""
  }

  lemma LineSays(r: Record, indent: string, isLast: bool)
    ensures Says(LineText(r, indent, isLast), r, indent + if isLast then "`-- " else "+-- ")
  {
    var head := indent + (if isLast then "`-- " else "+-- ") + r.name;
    PadAddsBlanks(head, Max(|head| + 1, WIDTH));
  }

  ghost predicate SaysItsRecord(forest: Forest, line: Line) {
    line.spanId in forest.nodes && exists start :: Says(line.text, forest.nodes[line.spanId], start)
  }

  ghost predicate AllSay(forest: Forest, lines: seq<Line>) {
    forall i :: 0 <= i < |lines| ==> SaysItsRecord(forest, lines[i])
  }

  lemma AllSayConcat(forest: Forest, a: seq<Line>, b: seq<Line>)
    requires AllSay(forest, a) && AllSay(forest, b)
    ensures AllSay(forest, a + b)
  {
  }

  /** Every line of a drawing says what the record of its span holds. */
  lemma {:induction false} LinesSayRecords(
    forest: Forest, rank: map<string, nat>, ids: seq<string>, indent: string, bound: nat)
    requires Ranked(forest, rank) && Covered(forest, rank, ids, bound)
    ensures AllSay(forest, RenderList(forest, rank, ids, indent, bound))
    decreases bound, |ids|
  {
    if ids != [] {
      var inner := indent + if |ids| == 1 then "   " else "|  ";
      var line := Line(ids[0], LineText(forest.nodes[ids[0]], indent, |ids| == 1));
      var below := RenderList(forest, rank, ChildrenOf(forest, ids[0]), inner, rank[ids[0]]);
      LineSays(forest.nodes[ids[0]], indent, |ids| == 1);
      LinesSayRecords(forest, rank, ChildrenOf(forest, ids[0]), inner, rank[ids[0]]);
      LinesSayRecords(forest, rank, ids[1..], indent, bound);
      AllSayConcat(forest, [line], below);
      AllSayConcat(forest, [line] + below, RenderList(forest, rank, ids[1..], indent, bound));
    }
  }
}
