/**
 * Span forests: treeForTrace of src/core/span.core.ts and renderSpanTree of
 * src/format/span.format.ts. A node is named by its span id; its children are listed
 * per id, as the code's Map of nodes does.
 */
module Spans {
  import opened Sequences
  import opened OrderedMap

  datatype Record = Record(spanId: string, traceId: string, parentId: Option<string>, name: string, duration: string)

  datatype Forest = Forest(nodes: map<string, Record>, children: map<string, seq<string>>, roots: seq<string>)

  /** forTrace: the records of one trace, in completion order. */
  function ForTrace(records: seq<Record>, traceId: string): seq<Record> {
    if records == [] then []
    else (if records[0].traceId == traceId then [records[0]] else []) + ForTrace(records[1..], traceId)
  }

  /** Exactly the records of the trace, in the order they came, repetitions included. */
  lemma {:induction false} ForTraceIsFilter(records: seq<Record>, traceId: string, r: Record)
    ensures Subseq(ForTrace(records, traceId), records)
    ensures multiset(ForTrace(records, traceId))[r] == if r.traceId == traceId then multiset(records)[r] else 0
    decreases |records|
  {
    if records != [] {
      var rest := ForTrace(records[1..], traceId);
      ForTraceIsFilter(records[1..], traceId, r);
      HeadAndTail(records);
      SubseqPrepend(rest, records[1..], records[0]);
      EmptyConcat(rest);
    }
  }

  function Ids(records: seq<Record>): seq<string> {
    if records == [] then [] else [records[0].spanId] + Ids(records[1..])
  }

  function Nodes(records: seq<Record>): map<string, Record> {
    if records == [] then map[]
    else Nodes(records[..|records| - 1])[records[|records| - 1].spanId := records[|records| - 1]]
  }

  /** The retained parent of a record, if any. */
  function ParentIn(nodes: map<string, Record>, r: Record): Option<string> {
    if r.parentId.Some? && r.parentId.value in nodes then r.parentId else None
  }

  /** Span ids of the records whose retained parent is `parent` (None: the roots), in completion order. */
  function Under(nodes: map<string, Record>, records: seq<Record>, parent: Option<string>): seq<string> {
    if records == [] then []
    else Under(nodes, records[..|records| - 1], parent)
         + if ParentIn(nodes, records[|records| - 1]) == parent then [records[|records| - 1].spanId] else []
  }

  function ChildrenOf(forest: Forest, id: string): seq<string> {
    if id in forest.children then forest.children[id] else []
  }

  /** The forest of `records`, declaratively. */
  ghost predicate Builds(forest: Forest, records: seq<Record>) {
    && forest.nodes == Nodes(records)
    && (forall id :: id in forest.children <==> id in forest.nodes)
    && (forall id :: id in forest.nodes ==> forest.children[id] == Under(forest.nodes, records, Some(id)))
    && forest.roots == Under(forest.nodes, records, None)
  }

  /** The first loop of treeForTrace: one node per span id. */
  method FillNodes(records: seq<Record>) returns (nodes: map<string, Record>, children: map<string, seq<string>>)
    ensures nodes == Nodes(records) && children.Keys == nodes.Keys && forall id :: id in children ==> children[id] == []
  {
    nodes, children := map[], map[];
    for i := 0 to |records|
      invariant nodes == Nodes(records[..i]) && children.Keys == nodes.Keys
      invariant forall id :: id in children ==> children[id] == []
    {
      assert records[..i + 1][..i] == records[..i];
      nodes := nodes[records[i].spanId := records[i]];
      children := children[records[i].spanId := []];
    }
    assert records[..|records|] == records;
  }

  lemma UnderGrows(nodes: map<string, Record>, records: seq<Record>, i: nat, parent: Option<string>)
    requires i < |records|
    ensures Under(nodes, records[..i + 1], parent)
            == Under(nodes, records[..i], parent)
               + if ParentIn(nodes, records[i]) == parent then [records[i].spanId] else []
  {
    assert records[..i + 1][..i] == records[..i];
  }

  /** The lists hold the first records, each under its own parent. */
  ghost predicate Linked(
    nodes: map<string, Record>, children: map<string, seq<string>>, roots: seq<string>, records: seq<Record>)
  {
    && children.Keys == nodes.Keys
    && (forall id :: id in children ==> children[id] == Under(nodes, records, Some(id)))
    && roots == Under(nodes, records, None)
  }

  lemma LinkRoot(nodes: map<string, Record>, children: map<string, seq<string>>, roots: seq<string>,
                 records: seq<Record>, i: nat)
    requires i < |records| && Linked(nodes, children, roots, records[..i]) && ParentIn(nodes, records[i]) == None
    ensures Linked(nodes, children, roots + [records[i].spanId], records[..i + 1])
  {
    UnderGrows(nodes, records, i, None);
    forall id | id in children ensures children[id] == Under(nodes, records[..i + 1], Some(id)) {
      UnderGrows(nodes, records, i, Some(id));
    }
  }

  lemma LinkChild(nodes: map<string, Record>, children: map<string, seq<string>>, roots: seq<string>,
                  records: seq<Record>, i: nat, parent: string)
    requires i < |records| && Linked(nodes, children, roots, records[..i])
    requires parent in children && ParentIn(nodes, records[i]) == Some(parent)
    ensures Linked(nodes, children[parent := children[parent] + [records[i].spanId]], roots, records[..i + 1])
  {
    var children' := children[parent := children[parent] + [records[i].spanId]];
    UnderGrows(nodes, records, i, None);
    forall id | id in children' ensures children'[id] == Under(nodes, records[..i + 1], Some(id)) {
      UnderGrows(nodes, records, i, Some(id));
    }
  }

  /** Its second loop: push every node under its parent, or among the roots. */
  method TreeForTrace(records: seq<Record>) returns (forest: Forest)
    ensures Builds(forest, records)
  {
    var nodes, children := FillNodes(records);
    var roots: seq<string> := [];
    for i := 0 to |records|
      invariant Linked(nodes, children, roots, records[..i])
    {
      var record := records[i];
      if record.parentId.None? || record.parentId.value !in nodes {
        LinkRoot(nodes, children, roots, records, i);
        roots := roots + [record.spanId];
      } else {
        var parent := record.parentId.value;
        LinkChild(nodes, children, roots, records, i, parent);
        children := children[parent := children[parent] + [record.spanId]];
      }
    }
    assert records[..|records|] == records;
    return Forest(nodes, children, roots);
  }

  lemma {:induction false} NodesCover(records: seq<Record>)
    ensures forall i :: 0 <= i < |records| ==> records[i].spanId in Nodes(records)
    ensures forall id :: id in Nodes(records) ==> id in Ids(records)
    decreases |records|
  {
    if records != [] {
      var init := records[..|records| - 1];
      NodesCover(init);
      assert records == init + [records[|records| - 1]];
      IdsConcat(init, [records[|records| - 1]]);
    }
  }

  lemma {:induction false} IdsConcat(a: seq<Record>, b: seq<Record>)
    ensures Ids(a + b) == Ids(a) + Ids(b)
    decreases |a|
  {
    if a == [] {
      assert a + b == b;
    } else {
      assert (a + b)[1..] == a[1..] + b;
      IdsConcat(a[1..], b);
    }
  }

  /** Position-wise view of the ids. */
  lemma {:induction false} IdsAt(records: seq<Record>)
    ensures |Ids(records)| == |records|
    ensures forall i :: 0 <= i < |records| ==> Ids(records)[i] == records[i].spanId
    decreases |records|
  {
    if records != [] {
      IdsAt(records[1..]);
    }
  }

  predicate DistinctIds(records: seq<Record>) { Distinct(Ids(records)) }

  lemma {:induction false} DistinctAt(s: seq<string>, i: int, j: int)
    requires Distinct(s) && 0 <= i < j < |s|
    ensures s[i] != s[j]
    decreases |s|
  {
    if i > 0 { DistinctAt(s[1..], i - 1, j - 1); }
  }

  /** With distinct ids every record is its own node. */
  lemma {:induction false} NodesExact(records: seq<Record>)
    requires DistinctIds(records)
    ensures forall i :: 0 <= i < |records| ==>
              records[i].spanId in Nodes(records) && Nodes(records)[records[i].spanId] == records[i]
    decreases |records|
  {
    if records != [] {
      var last := |records| - 1;
      var init := records[..last];
      IdsConcat(init, [records[last]]);
      assert records == init + [records[last]];
      IdsAt(records);
      IdsAt(init);
      DistinctPrefix(Ids(records), last);
      assert Ids(init) == Ids(records)[..last];
      NodesExact(init);
      forall i | 0 <= i < last ensures records[i].spanId != records[last].spanId {
        DistinctAt(Ids(records), i, last);
      }
    }
  }

  lemma {:induction false} DistinctPrefix(s: seq<string>, n: nat)
    requires Distinct(s) && n <= |s|
    ensures Distinct(s[..n])
    decreases |s|
  {
    if n > 0 {
      DistinctPrefix(s[1..], n - 1);
      assert s[..n][1..] == s[1..][..n - 1];
    }
  }

  // ----- placement -----

  /** How often `id` is listed under `parent`. */
  function Listed(forest: Forest, parent: Option<string>, id: string): nat {
    multiset(if parent.None? then forest.roots else ChildrenOf(forest, parent.value))[id]
  }

  lemma MultisetAppend(s: seq<string>, x: string, id: string)
    ensures multiset(s + [x])[id] == multiset(s)[id] + if x == id then 1 else 0
  {
  }

  /** Appending a record lists its id under its own parent and changes nothing else. */
  lemma UnderAppend(nodes: map<string, Record>, init: seq<Record>, r: Record, parent: Option<string>, id: string)
    ensures multiset(Under(nodes, init + [r], parent))[id] ==
            multiset(Under(nodes, init, parent))[id] + if r.spanId == id && ParentIn(nodes, r) == parent then 1 else 0
  {
    assert (init + [r])[..|init|] == init;
    MultisetAppend(Under(nodes, init, parent), r.spanId, id);
    assert Under(nodes, init, parent) + [] == Under(nodes, init, parent);
  }

  lemma {:induction false} UnderAbsent(
    nodes: map<string, Record>, records: seq<Record>, parent: Option<string>, id: string)
    requires forall i :: 0 <= i < |records| ==> records[i].spanId != id
    ensures multiset(Under(nodes, records, parent))[id] == 0
    decreases |records|
  {
    if records != [] {
      var init, r := records[..|records| - 1], records[|records| - 1];
      InitAndLast(records);
      UnderAbsent(nodes, init, parent, id);
      UnderAppend(nodes, init, r, parent, id);
    }
  }

  lemma {:induction false} UnderCounts(nodes: map<string, Record>, records: seq<Record>, parent: Option<string>, i: int)
    requires 0 <= i < |records| && forall j :: 0 <= j < |records| && records[j].spanId == records[i].spanId ==> j == i
    ensures multiset(Under(nodes, records, parent))[records[i].spanId]
         == if ParentIn(nodes, records[i]) == parent then 1 else 0
    decreases |records|
  {
    var init, r := records[..|records| - 1], records[|records| - 1];
    InitAndLast(records);
    UnderAppend(nodes, init, r, parent, records[i].spanId);
    if i == |init| {
      UnderAbsent(nodes, init, parent, r.spanId);
    } else {
      UnderCounts(nodes, init, parent, i);
    }
  }

  lemma OnlyPosition(records: seq<Record>, i: int)
    requires DistinctIds(records) && 0 <= i < |records|
    ensures forall j :: 0 <= j < |records| && records[j].spanId == records[i].spanId ==> j == i
  {
    IdsAt(records);
    forall j | 0 <= j < |records| && records[j].spanId == records[i].spanId ensures j == i {
      if j < i { DistinctAt(Ids(records), j, i); }
      if i < j { DistinctAt(Ids(records), i, j); }
    }
  }

  /**
   * With distinct span ids every record is placed exactly once: under its parent if that is
   * retained, among the roots otherwise, and nowhere else.
   */
  lemma EveryRecordPlacedOnce(forest: Forest, records: seq<Record>, i: int, parent: Option<string>)
    requires Builds(forest, records) && DistinctIds(records) && 0 <= i < |records|
    requires parent.Some? ==> parent.value in forest.nodes
    ensures Listed(forest, parent, records[i].spanId) == if ParentIn(forest.nodes, records[i]) == parent then 1 else 0
  {
    OnlyPosition(records, i);
    UnderCounts(forest.nodes, records, parent, i);
  }

  /**
   * In the terms of the records: one whose parent id is that of a retained record is listed once under it and
   * nowhere else, any other is listed once among the roots.
   */
  lemma PlacedByParentId(forest: Forest, records: seq<Record>, i: int, id: string)
    requires Builds(forest, records) && DistinctIds(records) && 0 <= i < |records|
    requires exists j :: 0 <= j < |records| && records[j].spanId == id
    ensures var r := records[i];
            var orphan := forall j :: 0 <= j < |records| ==> r.parentId != Some(records[j].spanId);
            && multiset(ChildrenOf(forest, id))[r.spanId] == (if r.parentId == Some(id) then 1 else 0)
            && multiset(forest.roots)[r.spanId] == if orphan then 1 else 0
  {
    RetainedIff(records, id);
    EveryRecordPlacedOnce(forest, records, i, Some(id));
    EveryRecordPlacedOnce(forest, records, i, None);
    OrphanIff(records, records[i]);
  }

  /** A node is the id of a record. */
  lemma RetainedIff(records: seq<Record>, id: string)
    ensures id in Nodes(records) <==> exists j :: 0 <= j < |records| && records[j].spanId == id
  {
    NodesCover(records);
    if id in Nodes(records) {
      IdsAt(records);
      var j :| 0 <= j < |records| && Ids(records)[j] == id;
      assert records[j].spanId == id;
    }
  }

  lemma OrphanIff(records: seq<Record>, r: Record)
    ensures ParentIn(Nodes(records), r).None? <==>
            forall j :: 0 <= j < |records| ==> r.parentId != Some(records[j].spanId)
  {
    if r.parentId.Some? { RetainedIff(records, r.parentId.value); }
  }

  /** Siblings are listed in the order their records came. */
  lemma {:induction false} ListedInOrder(nodes: map<string, Record>, records: seq<Record>, parent: Option<string>)
    ensures Subseq(Under(nodes, records, parent), Ids(records))
    decreases |records|
  {
    if records != [] {
      var init, r := records[..|records| - 1], records[|records| - 1];
      ListedInOrder(nodes, init, parent);
      InitAndLast(records);
      IdsConcat(init, [r]);
      assert Ids([r]) == [r.spanId] && Ids(records) == Ids(init) + [r.spanId];
      SubseqExtendBoth(Under(nodes, init, parent), Ids(init), r.spanId);
      SubseqExtendRight(Under(nodes, init, parent), Ids(init), r.spanId);
      assert Under(nodes, init, parent) + [] == Under(nodes, init, parent);
    }
  }

  // ----- rendering -----

  /**
   * A rank that falls from each node it covers to that node's children, which it covers too:
   * what makes the rendering recursion from there finite.
   */
  ghost predicate Ranked(forest: Forest, rank: map<string, nat>) {
    forall id, i :: id in rank && id in forest.nodes && 0 <= i < |ChildrenOf(forest, id)| ==>
      ChildrenOf(forest, id)[i] in forest.nodes && ChildrenOf(forest, id)[i] in rank
      && rank[ChildrenOf(forest, id)[i]] < rank[id]
  }

  ghost predicate Covered(forest: Forest, rank: map<string, nat>, ids: seq<string>, bound: nat) {
    forall i :: 0 <= i < |ids| ==> ids[i] in forest.nodes && ids[i] in rank && rank[ids[i]] < bound
  }

  /** The rank covers the roots, so the forest can be rendered from them. */
  ghost predicate Renderable(forest: Forest, rank: map<string, nat>, bound: nat) {
    Ranked(forest, rank) && Covered(forest, rank, forest.roots, bound) && forall id :: id in rank ==> rank[id] < bound
  }

  /** A rendered line, with the span it shows. */
  datatype Line = Line(spanId: string, text: string)

  const WIDTH := 24

  function Pad(text: string, width: int): string
    decreases width - |text|
  {
    if |text| >= width then text else Pad(text + " ", width)
  }

  function LineText(r: Record, prefix: string, isLast: bool): string {
    var head := prefix + (if isLast then "`-- " else "+-- ") + r.name;
    Pad(head, Max(|head| + 1, WIDTH)) + "  " + r.duration + "  span=" + r.spanId
    + if r.parentId.None? then "" else " parent=" + r.parentId.value
  }

  /** renderNode: the node's line, then its children, indented. */
  ghost function RenderNode(forest: Forest, rank: map<string, nat>, id: string, prefix: string, isLast: bool): seq<Line>
    requires Ranked(forest, rank) && id in forest.nodes && id in rank
    decreases rank[id], 1, 0
  {
    [Line(id, LineText(forest.nodes[id], prefix, isLast))]
    + RenderList(forest, rank, ChildrenOf(forest, id), prefix + if isLast then "   " else "|  ", rank[id])
  }

  /** The loop over siblings; all rank below `bound`. */
  ghost function RenderList(
    forest: Forest, rank: map<string, nat>, ids: seq<string>, prefix: string, bound: nat): seq<Line>
    requires Ranked(forest, rank) && Covered(forest, rank, ids, bound)
    decreases bound, 0, |ids|
  {
    if ids == [] then []
    else RenderNode(forest, rank, ids[0], prefix, |ids| == 1) + RenderList(forest, rank, ids[1..], prefix, bound)
  }

  function Shown(lines: seq<Line>, id: string): nat {
    if lines == [] then 0 else (if lines[0].spanId == id then 1 else 0) + Shown(lines[1..], id)
  }

  lemma {:induction false} ShownConcat(a: seq<Line>, b: seq<Line>, id: string)
    ensures Shown(a + b, id) == Shown(a, id) + Shown(b, id)
    decreases |a|
  {
    if a == [] {
      assert a + b == b;
    } else {
      assert (a + b)[1..] == a[1..] + b;
      ShownConcat(a[1..], b, id);
    }
  }

  /** `child` is listed under `parent` once, and under no other node. */
  ghost predicate OnlyChildOf(forest: Forest, child: string, parent: Option<string>) {
    forall p :: p in forest.nodes ==> multiset(ChildrenOf(forest, p))[child] == if parent == Some(p) then 1 else 0
  }

  /** Lines of `child` in a subtree: its own if it is the top, plus one for each line of its parent. */
  lemma {:induction false} NodeShows(
    forest: Forest, rank: map<string, nat>, id: string, prefix: string, isLast: bool,
    child: string, parent: Option<string>)
    requires Ranked(forest, rank) && id in forest.nodes && id in rank && OnlyChildOf(forest, child, parent)
    ensures Shown(RenderNode(forest, rank, id, prefix, isLast), child) ==
            (if id == child then 1 else 0)
            + if parent.None? then 0 else Shown(RenderNode(forest, rank, id, prefix, isLast), parent.value)
    decreases rank[id], 1, 0
  {
    var line := [Line(id, LineText(forest.nodes[id], prefix, isLast))];
    var kids, indent := ChildrenOf(forest, id), prefix + if isLast then "   " else "|  ";
    var below := RenderList(forest, rank, kids, indent, rank[id]);
    ListShows(forest, rank, kids, indent, rank[id], child, parent);
    ShownConcat(line, below, child);
    if parent.Some? { ShownConcat(line, below, parent.value); }
  }

  lemma {:induction false} ListShows(
    forest: Forest, rank: map<string, nat>, ids: seq<string>, prefix: string, bound: nat,
    child: string, parent: Option<string>)
    requires Ranked(forest, rank) && Covered(forest, rank, ids, bound) && OnlyChildOf(forest, child, parent)
    ensures Shown(RenderList(forest, rank, ids, prefix, bound), child) ==
            multiset(ids)[child]
            + if parent.None? then 0 else Shown(RenderList(forest, rank, ids, prefix, bound), parent.value)
    decreases bound, 0, |ids|
  {
    if ids != [] {
      var first := RenderNode(forest, rank, ids[0], prefix, |ids| == 1);
      var rest := RenderList(forest, rank, ids[1..], prefix, bound);
      NodeShows(forest, rank, ids[0], prefix, |ids| == 1, child, parent);
      ListShows(forest, rank, ids[1..], prefix, bound, child, parent);
      ShownConcat(first, rest, child);
      if parent.Some? { ShownConcat(first, rest, parent.value); }
      assert ids == [ids[0]] + ids[1..];
    }
  }

  // ----- ancestors -----

  /** The chain of retained parents of `id` ends at a root after at most `n` steps. */
  predicate Rooted(nodes: map<string, Record>, id: string, n: nat)
    decreases n
  {
    && id in nodes
    && var parent := ParentIn(nodes, nodes[id]);
       parent.None? || (n > 0 && Rooted(nodes, parent.value, n - 1))
  }

  ghost predicate ReachesRoot(nodes: map<string, Record>, id: string) {
    exists n :: Rooted(nodes, id, n)
  }

  function Depth(nodes: map<string, Record>, id: string, n: nat): (d: nat)
    requires Rooted(nodes, id, n)
    ensures d <= n
    decreases n
  {
    var parent := ParentIn(nodes, nodes[id]);
    if parent.None? then 0 else 1 + Depth(nodes, parent.value, n - 1)
  }

  lemma {:induction false} DepthIsStable(nodes: map<string, Record>, id: string, n: nat, m: nat)
    requires Rooted(nodes, id, n) && n <= m
    ensures Rooted(nodes, id, m) && Depth(nodes, id, m) == Depth(nodes, id, n)
    decreases n
  {
    var parent := ParentIn(nodes, nodes[id]);
    if parent.Some? { DepthIsStable(nodes, parent.value, n - 1, m - 1); }
  }

  /** One bound serves all chains that end. */
  lemma {:induction false} CommonBound(nodes: map<string, Record>, ids: set<string>) returns (n: nat)
    ensures forall id :: id in ids && ReachesRoot(nodes, id) ==> Rooted(nodes, id, n)
    decreases |ids|
  {
    n := 0;
    if ids != {} {
      var id :| id in ids;
      n := CommonBound(nodes, ids - {id});
      var more := n;
      if ReachesRoot(nodes, id) {
        var m: nat :| Rooted(nodes, id, m);
        more := Max(n, m);
        DepthIsStable(nodes, id, m, more);
      }
      forall x | x in ids && ReachesRoot(nodes, x) ensures Rooted(nodes, x, more) {
        if x != id { DepthIsStable(nodes, x, n, more); }
      }
      n := more;
    }
  }

  /** Whatever is listed under a node has that node as its parent. */
  lemma ListedParent(forest: Forest, records: seq<Record>, parent: Option<string>, k: int) returns (child: string)
    requires Builds(forest, records) && DistinctIds(records) && (parent.Some? ==> parent.value in forest.nodes)
    requires 0 <= k < |if parent.None? then forest.roots else ChildrenOf(forest, parent.value)|
    ensures child == (if parent.None? then forest.roots else ChildrenOf(forest, parent.value))[k]
    ensures child in forest.nodes && ParentIn(forest.nodes, forest.nodes[child]) == parent
  {
    UnderMembers(forest.nodes, records, parent, k);
    NodesExact(records);
    child := Under(forest.nodes, records, parent)[k];
  }

  /**
   * The forest of any records with distinct ids can be rendered: no rank covers a cycle,
   * but no cycle hangs below a root either.
   */
  lemma ForestIsRenderable(forest: Forest, records: seq<Record>) returns (rank: map<string, nat>, bound: nat)
    requires Builds(forest, records) && DistinctIds(records)
    ensures Renderable(forest, rank, bound)
  {
    var nodes := forest.nodes;
    var n := CommonBound(nodes, nodes.Keys);
    bound := n + 1;
    rank := map id | id in nodes && Rooted(nodes, id, n) :: n - Depth(nodes, id, n);
    forall id, k | id in rank && id in nodes && 0 <= k < |ChildrenOf(forest, id)|
      ensures ChildrenOf(forest, id)[k] in nodes && ChildrenOf(forest, id)[k] in rank
              && rank[ChildrenOf(forest, id)[k]] < rank[id]
    {
      var child := ListedParent(forest, records, Some(id), k);
      assert Rooted(nodes, child, n + 1);
      assert ReachesRoot(nodes, child);
      DepthIsStable(nodes, child, n, n + 1);
    }
    forall k | 0 <= k < |forest.roots| ensures forest.roots[k] in nodes && forest.roots[k] in rank {
      var root := ListedParent(forest, records, None, k);
      assert Rooted(nodes, root, n);
    }
  }

  lemma LinesOfChild(forest: Forest, records: seq<Record>, rank: map<string, nat>, bound: nat, i: int)
    requires Builds(forest, records) && DistinctIds(records) && Renderable(forest, rank, bound) && 0 <= i < |records|
    ensures var lines, parent := RenderList(forest, rank, forest.roots, "", bound), ParentIn(forest.nodes, records[i]);
            Shown(lines, records[i].spanId) == if parent.None? then 1 else Shown(lines, parent.value)
  {
    var child, parent := records[i].spanId, ParentIn(forest.nodes, records[i]);
    forall p | p in forest.nodes
      ensures multiset(ChildrenOf(forest, p))[child] == if parent == Some(p) then 1 else 0
    {
      EveryRecordPlacedOnce(forest, records, i, Some(p));
    }
    EveryRecordPlacedOnce(forest, records, i, None);
    ListShows(forest, rank, forest.roots, "", bound, child, parent);
  }

  /** Walking up to a root: a span whose chain of parents ends is shown exactly once. */
  lemma {:induction false} ShownOnce(
    forest: Forest, records: seq<Record>, rank: map<string, nat>, bound: nat, id: string, n: nat)
    requires Builds(forest, records) && DistinctIds(records) && Renderable(forest, rank, bound)
    requires Rooted(forest.nodes, id, n)
    ensures Shown(RenderList(forest, rank, forest.roots, "", bound), id) == 1
    decreases n
  {
    var i := RecordOf(forest, records, id);
    NodesExact(records);
    LinesOfChild(forest, records, rank, bound, i);
    var parent := ParentIn(forest.nodes, records[i]);
    if parent.Some? { ShownOnce(forest, records, rank, bound, parent.value, n - 1); }
  }

  lemma ReachesRootThroughParent(nodes: map<string, Record>, id: string)
    requires id in nodes
    ensures var parent := ParentIn(nodes, nodes[id]);
            ReachesRoot(nodes, id) <==> parent.None? || ReachesRoot(nodes, parent.value)
  {
    var parent := ParentIn(nodes, nodes[id]);
    if parent.None? {
      assert Rooted(nodes, id, 0);
    } else {
      if n: nat :| Rooted(nodes, parent.value, n) { assert Rooted(nodes, id, n + 1); }
      if n: nat :| Rooted(nodes, id, n) { assert Rooted(nodes, parent.value, n - 1); }
    }
  }

  /** A span whose chain of parents does not end is not shown at all. */
  lemma {:induction false} NeverShown(
    forest: Forest, records: seq<Record>, rank: map<string, nat>, bound: nat, id: string)
    requires Builds(forest, records) && DistinctIds(records) && Renderable(forest, rank, bound)
    requires !ReachesRoot(forest.nodes, id)
    ensures Shown(RenderList(forest, rank, forest.roots, "", bound), id) == 0
    decreases if id in rank then bound - rank[id] else 0
  {
    if id !in forest.nodes || id !in rank {
      ListShowsNodes(forest, rank, forest.roots, "", bound, id);
    } else {
      var i := RecordOf(forest, records, id);
      NodesExact(records);
      LinesOfChild(forest, records, rank, bound, i);
      var parent := ParentIn(forest.nodes, records[i]);
      ReachesRootThroughParent(forest.nodes, id);
      if parent.value in rank { ChildRanksLower(forest, records, rank, i); }
      NeverShown(forest, records, rank, bound, parent.value);
    }
  }

  lemma ChildRanksLower(forest: Forest, records: seq<Record>, rank: map<string, nat>, i: int)
    requires Builds(forest, records) && DistinctIds(records) && Ranked(forest, rank) && 0 <= i < |records|
    ensures var child, parent := records[i].spanId, ParentIn(forest.nodes, records[i]);
            parent.Some? && parent.value in rank ==> child in rank && rank[child] < rank[parent.value]
  {
    var child, parent := records[i].spanId, ParentIn(forest.nodes, records[i]);
    if parent.Some? {
      EveryRecordPlacedOnce(forest, records, i, parent);
      assert child in multiset(ChildrenOf(forest, parent.value));
      var k :| 0 <= k < |ChildrenOf(forest, parent.value)| && ChildrenOf(forest, parent.value)[k] == child;
    }
  }

  lemma RecordOf(forest: Forest, records: seq<Record>, id: string) returns (j: int)
    requires Builds(forest, records) && id in forest.nodes
    ensures 0 <= j < |records| && records[j].spanId == id
  {
    NodesCover(records);
    IdsAt(records);
    j :| 0 <= j < |records| && Ids(records)[j] == id;
  }

  // ----- acyclic parents -----

  /** No span is its own ancestor: ranks fall from each retained parent to its children. */
  ghost predicate AcyclicParents(records: seq<Record>, rank: map<string, nat>) {
    && (forall i :: 0 <= i < |records| ==> records[i].spanId in rank)
    && (forall i :: 0 <= i < |records| ==>
          var parent := ParentIn(Nodes(records), records[i]);
          parent.Some? && parent.value in rank ==> rank[records[i].spanId] < rank[parent.value])
  }

  lemma {:induction false} UnderMembers(
    nodes: map<string, Record>, records: seq<Record>, parent: Option<string>, k: int)
    requires 0 <= k < |Under(nodes, records, parent)|
    ensures exists i :: 0 <= i < |records| && records[i].spanId == Under(nodes, records, parent)[k]
                        && ParentIn(nodes, records[i]) == parent
    decreases |records|
  {
    var init, r := records[..|records| - 1], records[|records| - 1];
    if k < |Under(nodes, init, parent)| {
      UnderMembers(nodes, init, parent, k);
      var i :| 0 <= i < |init| && init[i].spanId == Under(nodes, init, parent)[k] && ParentIn(nodes, init[i]) == parent;
      assert records[i] == init[i];
    }
  }

  /** Up a falling rank every chain of parents ends. */
  lemma {:induction false} AcyclicReachesRoot(records: seq<Record>, rank: map<string, nat>, bound: nat, i: int)
    returns (n: nat)
    requires DistinctIds(records) && AcyclicParents(records, rank) && 0 <= i < |records|
    requires forall id :: id in rank ==> rank[id] < bound
    ensures Rooted(Nodes(records), records[i].spanId, n)
    decreases bound - rank[records[i].spanId]
  {
    var nodes := Nodes(records);
    NodesExact(records);
    NodesCover(records);
    IdsAt(records);
    var parent := ParentIn(nodes, records[i]);
    n := 0;
    if parent.Some? {
      var j :| 0 <= j < |records| && Ids(records)[j] == parent.value;
      n := AcyclicReachesRoot(records, rank, bound, j);
      n := n + 1;
    }
  }

  lemma {:induction false} RankBound(rank: map<string, nat>) returns (bound: nat)
    ensures forall id :: id in rank ==> rank[id] < bound
    decreases |rank|
  {
    bound := 0;
    if rank != map[] {
      var id :| id in rank;
      bound := RankBound(rank - {id});
      bound := Max(bound, rank[id] + 1);
      assert forall x :: x in rank && x != id ==> x in rank - {id} && (rank - {id})[x] == rank[x];
    }
  }

  // ----- one line per record -----

  function LineIds(lines: seq<Line>): seq<string> {
    if lines == [] then [] else [lines[0].spanId] + LineIds(lines[1..])
  }

  lemma {:induction false} ShownIsCount(lines: seq<Line>, id: string)
    ensures Shown(lines, id) == multiset(LineIds(lines))[id] && |LineIds(lines)| == |lines|
    decreases |lines|
  {
    if lines != [] { ShownIsCount(lines[1..], id); }
  }

  /** Only nodes the rank covers are shown. */
  lemma {:induction false} NodeShowsNodes(
    forest: Forest, rank: map<string, nat>, id: string, prefix: string, isLast: bool, x: string)
    requires Ranked(forest, rank) && id in forest.nodes && id in rank && !(x in forest.nodes && x in rank)
    ensures Shown(RenderNode(forest, rank, id, prefix, isLast), x) == 0
    decreases rank[id], 1, 0
  {
    var indent := prefix + if isLast then "   " else "|  ";
    ListShowsNodes(forest, rank, ChildrenOf(forest, id), indent, rank[id], x);
    ShownConcat([Line(id, LineText(forest.nodes[id], prefix, isLast))],
                RenderList(forest, rank, ChildrenOf(forest, id), indent, rank[id]), x);
  }

  lemma {:induction false} ListShowsNodes(
    forest: Forest, rank: map<string, nat>, ids: seq<string>, prefix: string, bound: nat, x: string)
    requires Ranked(forest, rank) && Covered(forest, rank, ids, bound) && !(x in forest.nodes && x in rank)
    ensures Shown(RenderList(forest, rank, ids, prefix, bound), x) == 0
    decreases bound, 0, |ids|
  {
    if ids != [] {
      NodeShowsNodes(forest, rank, ids[0], prefix, |ids| == 1, x);
      ListShowsNodes(forest, rank, ids[1..], prefix, bound, x);
      ShownConcat(
        RenderNode(forest, rank, ids[0], prefix, |ids| == 1), RenderList(forest, rank, ids[1..], prefix, bound), x);
    }
  }

  lemma {:induction false} DistinctCounts(s: seq<string>, x: string)
    requires Distinct(s)
    ensures multiset(s)[x] == if x in s then 1 else 0
    decreases |s|
  {
    if s != [] {
      DistinctCounts(s[1..], x);
      assert s == [s[0]] + s[1..];
    }
  }

  /** The spans shown are exactly those whose chain of retained parents ends, each once. */
  lemma ShownIffReachesRoot(forest: Forest, records: seq<Record>, rank: map<string, nat>, bound: nat, id: string)
    requires Builds(forest, records) && DistinctIds(records) && Renderable(forest, rank, bound)
    ensures var lines := RenderList(forest, rank, forest.roots, "", bound);
            multiset(LineIds(lines))[id] == if ReachesRoot(forest.nodes, id) then 1 else 0
  {
    ShownIsCount(RenderList(forest, rank, forest.roots, "", bound), id);
    if n: nat :| Rooted(forest.nodes, id, n) {
      ShownOnce(forest, records, rank, bound, id, n);
    } else {
      NeverShown(forest, records, rank, bound, id);
    }
  }

  lemma RecordedIds(records: seq<Record>, id: string)
    requires DistinctIds(records)
    ensures multiset(Ids(records))[id] == if id in Nodes(records) then 1 else 0
  {
    DistinctCounts(Ids(records), id);
    NodesCover(records);
    IdsAt(records);
    if id in Ids(records) {
      var i :| 0 <= i < |records| && Ids(records)[i] == id;
    }
  }

  lemma SameIds(lines: seq<Line>, records: seq<Record>)
    requires forall x :: multiset(LineIds(lines))[x] == multiset(Ids(records))[x]
    ensures multiset(LineIds(lines)) == multiset(Ids(records)) && |lines| == |records|
  {
    var shown, recorded := LineIds(lines), Ids(records);
    assert multiset(shown) == multiset(recorded);
    assert |shown| == |multiset(shown)| == |multiset(recorded)| == |recorded|;
    ShownIsCount(lines, "");
    IdsAt(records);
  }

  /** If every chain ends, the lines show the recorded spans, each once. */
  lemma AllRootedShown(forest: Forest, records: seq<Record>, rank: map<string, nat>, bound: nat)
    requires Builds(forest, records) && DistinctIds(records) && Renderable(forest, rank, bound)
    requires forall id :: id in forest.nodes ==> ReachesRoot(forest.nodes, id)
    ensures var lines := RenderList(forest, rank, forest.roots, "", bound);
            multiset(LineIds(lines)) == multiset(Ids(records)) && |lines| == |records|
  {
    var lines := RenderList(forest, rank, forest.roots, "", bound);
    forall x ensures multiset(LineIds(lines))[x] == multiset(Ids(records))[x] {
      ShownIffReachesRoot(forest, records, rank, bound, x);
      RecordedIds(records, x);
      assert ReachesRoot(forest.nodes, x) ==> x in forest.nodes;
    }
    SameIds(lines, records);
  }

  /**
   * With distinct ids the rendered tree has exactly one line for each record, and none besides,
   * exactly if the retained parents are acyclic. Spans in a cycle, or below one, are not shown.
   */
  lemma OneLinePerRecordIff(forest: Forest, records: seq<Record>, rank: map<string, nat>, bound: nat)
    requires Builds(forest, records) && DistinctIds(records) && Renderable(forest, rank, bound)
    ensures multiset(LineIds(RenderList(forest, rank, forest.roots, "", bound))) == multiset(Ids(records)) <==>
            exists r: map<string, nat> :: AcyclicParents(records, r)
  {
    var lines := RenderList(forest, rank, forest.roots, "", bound);
    if r: map<string, nat> :| AcyclicParents(records, r) {
      OneLinePerRecord(forest, records, rank, bound, r);
    }
    if multiset(LineIds(lines)) == multiset(Ids(records)) {
      IdsAt(records);
      NodesExact(records);
      forall i | 0 <= i < |records| ensures records[i].spanId in rank {
        assert records[i].spanId == Ids(records)[i] && Ids(records)[i] in multiset(Ids(records));
        ShownIsCount(lines, records[i].spanId);
        if records[i].spanId !in rank { ListShowsNodes(forest, rank, forest.roots, "", bound, records[i].spanId); }
      }
      forall i | 0 <= i < |records|
        ensures var parent := ParentIn(Nodes(records), records[i]);
                parent.Some? && parent.value in rank ==> rank[records[i].spanId] < rank[parent.value]
      {
        ChildRanksLower(forest, records, rank, i);
      }
      assert AcyclicParents(records, rank);
    }
  }

  lemma OneLinePerRecord(
    forest: Forest, records: seq<Record>, rank: map<string, nat>, bound: nat, parentRank: map<string, nat>)
    requires Builds(forest, records) && DistinctIds(records) && Renderable(forest, rank, bound)
    requires AcyclicParents(records, parentRank)
    ensures var lines := RenderList(forest, rank, forest.roots, "", bound);
            multiset(LineIds(lines)) == multiset(Ids(records)) && |lines| == |records|
  {
    var top := RankBound(parentRank);
    forall id | id in forest.nodes ensures ReachesRoot(forest.nodes, id) {
      var i := RecordOf(forest, records, id);
      var n := AcyclicReachesRoot(records, parentRank, top, i);
    }
    AllRootedShown(forest, records, rank, bound);
  }

  /** Two spans that name each other as parent: both are retained, and nothing is rendered. */
  lemma CyclicSpansVanish(forest: Forest, rank: map<string, nat>, bound: nat)
    requires Builds(forest, [Record("a", "t", Some("b"), "x", "1ms"), Record("b", "t", Some("a"), "y", "1ms")])
    requires Renderable(forest, rank, bound)
    ensures |forest.nodes| == 2 && RenderList(forest, rank, forest.roots, "", bound) == []
  {
    var a, b := Record("a", "t", Some("b"), "x", "1ms"), Record("b", "t", Some("a"), "y", "1ms");
    assert [a, b][..1] == [a] && [a][..0] == [];
    assert Nodes([a]) == map["a" := a];
    assert forest.nodes == map["a" := a]["b" := b];
    assert forest.nodes.Keys == {"a", "b"};
    assert Under(forest.nodes, [a], None) == [];
  }

  // ----- the walk -----

  /** The array renderNode pushes its lines into. */
  class LineBuffer {
    var lines: seq<Line>

    constructor ()
      ensures lines == []
    {
      lines := [];
    }

    method PushNode(forest: Forest, ghost rank: map<string, nat>, id: string, prefix: string, isLast: bool)
      requires Ranked(forest, rank) && id in forest.nodes && id in rank && forest.nodes.Keys == forest.children.Keys
      modifies this
      ensures lines == old(lines) + RenderNode(forest, rank, id, prefix, isLast)
      decreases rank[id], 1
    {
      lines := lines + [Line(id, LineText(forest.nodes[id], prefix, isLast))];
      assert ChildrenOf(forest, id) == forest.children[id];
      PushList(forest, rank, forest.children[id], prefix + (if isLast then "   " else "|  "), rank[id]);
    }

    method PushList(forest: Forest, ghost rank: map<string, nat>, ids: seq<string>, prefix: string, ghost bound: nat)
      requires Ranked(forest, rank) && Covered(forest, rank, ids, bound) && forest.nodes.Keys == forest.children.Keys
      modifies this
      ensures lines == old(lines) + RenderList(forest, rank, ids, prefix, bound)
      decreases bound, 0
    {
      for i := 0 to |ids|
        invariant old(lines) + RenderList(forest, rank, ids, prefix, bound)
               == lines + RenderList(forest, rank, ids[i..], prefix, bound)
      {
        assert ids[i..][0] == ids[i] && ids[i..][1..] == ids[i + 1..];
        PushNode(forest, rank, ids[i], prefix, i == |ids| - 1);
      }
    }
  }
}
