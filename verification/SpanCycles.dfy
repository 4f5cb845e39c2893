/**
 * When renderSpanTree of src/format/span.format.ts ends, for any records at all: span ids
 * may repeat, since src/core/span.core.ts counts them modulo 65536.
 */
module SpanCycles {
  import opened Sequences
  import opened OrderedMap
  import opened Spans

  /** A chain of nodes, each listed among the children of the one before. */
  predicate Chain(forest: Forest, path: seq<string>) {
    forall i :: 0 <= i < |path| - 1 ==> path[i + 1] in ChildrenOf(forest, path[i])
  }

  ghost predicate FromRoot(forest: Forest, path: seq<string>) {
    path != [] && path[0] in forest.roots && Chain(forest, path)
  }

  /** No chain from a root comes back to a node it has passed. */
  ghost predicate NoCycleBelowRoots(forest: Forest) {
    forall path :: FromRoot(forest, path) ==> Distinct(path)
  }

  ghost predicate CanRender(forest: Forest) {
    exists rank: map<string, nat>, bound: nat :: Renderable(forest, rank, bound)
  }

  /** Whatever is listed is a node. */
  ghost predicate Closed(forest: Forest) {
    && (forall id :: id in forest.roots ==> id in forest.nodes)
    && (forall id, child :: id in forest.nodes && child in ChildrenOf(forest, id) ==> child in forest.nodes)
  }

  lemma BuiltIsClosed(forest: Forest, records: seq<Record>)
    requires Builds(forest, records)
    ensures Closed(forest)
  {
    NodesCover(records);
    forall id | id in forest.roots ensures id in forest.nodes {
      var k :| 0 <= k < |forest.roots| && forest.roots[k] == id;
      UnderMembers(forest.nodes, records, None, k);
    }
    forall id, child | id in forest.nodes && child in ChildrenOf(forest, id) ensures child in forest.nodes {
      var k :| 0 <= k < |ChildrenOf(forest, id)| && ChildrenOf(forest, id)[k] == child;
      UnderMembers(forest.nodes, records, Some(id), k);
    }
  }

  // ----- how deep the recursion goes -----

  /** The recursion of renderNode from `id` goes at most `n` levels down. */
  predicate Ends(forest: Forest, id: string, n: nat)
    decreases n
  {
    forall i :: 0 <= i < |ChildrenOf(forest, id)| ==> n > 0 && Ends(forest, ChildrenOf(forest, id)[i], n - 1)
  }

  lemma {:induction false} EndsStays(forest: Forest, id: string, n: nat, m: nat)
    requires Ends(forest, id, n) && n <= m
    ensures Ends(forest, id, m)
    decreases n
  {
    forall i | 0 <= i < |ChildrenOf(forest, id)| ensures m > 0 && Ends(forest, ChildrenOf(forest, id)[i], m - 1) {
      EndsStays(forest, ChildrenOf(forest, id)[i], n - 1, m - 1);
    }
  }

  /** The exact depth below `id`, found from a bound on it. */
  function Height(forest: Forest, id: string, n: nat): (h: nat)
    requires Ends(forest, id, n)
    ensures h <= n && Ends(forest, id, h)
    decreases n
  {
    if n > 0 && Ends(forest, id, n - 1) then Height(forest, id, n - 1) else n
  }

  lemma {:induction false} HeightIsLeast(forest: Forest, id: string, n: nat, m: nat)
    requires Ends(forest, id, n) && Ends(forest, id, m)
    ensures Height(forest, id, n) <= m
    decreases n
  {
    if n > 0 && Ends(forest, id, n - 1) {
      HeightIsLeast(forest, id, n - 1, m);
    } else if m < n {
      EndsStays(forest, id, m, n - 1);
    }
  }

  lemma ChildIsLower(forest: Forest, id: string, i: int, n: nat)
    requires Ends(forest, id, n) && 0 <= i < |ChildrenOf(forest, id)|
    ensures var child := ChildrenOf(forest, id)[i];
            Ends(forest, child, n) && Height(forest, child, n) < Height(forest, id, n)
  {
    var child, h := ChildrenOf(forest, id)[i], Height(forest, id, n);
    assert h > 0 && Ends(forest, child, h - 1);
    EndsStays(forest, child, h - 1, n);
    HeightIsLeast(forest, child, n, h - 1);
  }

  /** A recursion that goes deeper than `n` follows a chain of more than `n` steps. */
  lemma {:induction false} LongChain(forest: Forest, id: string, n: nat) returns (path: seq<string>)
    requires !Ends(forest, id, n)
    ensures |path| == n + 2 && path[0] == id && Chain(forest, path)
    decreases n
  {
    var i :| 0 <= i < |ChildrenOf(forest, id)| && !(n > 0 && Ends(forest, ChildrenOf(forest, id)[i], n - 1));
    var child := ChildrenOf(forest, id)[i];
    if n == 0 {
      path := [id, child];
    } else {
      var rest := LongChain(forest, child, n - 1);
      path := [id] + rest;
    }
  }

  lemma {:induction false} ChainInNodes(forest: Forest, path: seq<string>)
    requires Closed(forest) && Chain(forest, path) && (path != [] ==> path[0] in forest.nodes)
    ensures forall i :: 0 <= i < |path| ==> path[i] in forest.nodes
    decreases |path|
  {
    if |path| > 1 {
      assert path[1] in ChildrenOf(forest, path[0]);
      forall i | 0 <= i < |path[1..]| - 1 ensures path[1..][i + 1] in ChildrenOf(forest, path[1..][i]) {
        assert path[i + 2] in ChildrenOf(forest, path[i + 1]);
      }
      ChainInNodes(forest, path[1..]);
      forall i | 0 < i < |path| ensures path[i] in forest.nodes {
        assert path[i] == path[1..][i - 1];
      }
    }
  }

  /** Distinct members of a set are no more than the set has. */
  lemma {:induction false} DistinctFits(s: seq<string>, ids: set<string>)
    requires Distinct(s) && forall i :: 0 <= i < |s| ==> s[i] in ids
    ensures |s| <= |ids|
    decreases |s|
  {
    if s != [] {
      forall i | 0 <= i < |s[1..]| ensures s[1..][i] in ids - {s[0]} {
        assert s[1..][i] == s[i + 1];
        DistinctAt(s, 0, i + 1);
      }
      DistinctFits(s[1..], ids - {s[0]});
    }
  }

  // ----- when it ends -----

  lemma RootEnds(forest: Forest, root: string)
    requires Closed(forest) && NoCycleBelowRoots(forest) && root in forest.roots
    ensures Ends(forest, root, |forest.nodes|)
  {
    if !Ends(forest, root, |forest.nodes|) {
      var path := LongChain(forest, root, |forest.nodes|);
      ChainInNodes(forest, path);
      assert FromRoot(forest, path);
      DistinctFits(path, forest.nodes.Keys);
      assert false;
    }
  }

  lemma RankByHeight(forest: Forest) returns (rank: map<string, nat>, bound: nat)
    requires Closed(forest) && NoCycleBelowRoots(forest)
    ensures Renderable(forest, rank, bound)
  {
    var n := |forest.nodes|;
    bound := n + 1;
    rank := map id | id in forest.nodes && Ends(forest, id, n) :: Height(forest, id, n);
    forall id, i | id in rank && id in forest.nodes && 0 <= i < |ChildrenOf(forest, id)|
      ensures ChildrenOf(forest, id)[i] in forest.nodes && ChildrenOf(forest, id)[i] in rank
              && rank[ChildrenOf(forest, id)[i]] < rank[id]
    {
      ChildIsLower(forest, id, i, n);
    }
    forall i | 0 <= i < |forest.roots| ensures forest.roots[i] in forest.nodes && forest.roots[i] in rank {
      RootEnds(forest, forest.roots[i]);
    }
  }

  /** Ranks fall along a chain. */
  lemma {:induction false} RankFalls(forest: Forest, rank: map<string, nat>, path: seq<string>)
    requires Ranked(forest, rank) && Chain(forest, path) && path != [] && path[0] in rank && path[0] in forest.nodes
    ensures forall i :: 0 <= i < |path| ==> path[i] in rank && (i > 0 ==> rank[path[i]] < rank[path[0]])
    ensures Distinct(path)
    decreases |path|
  {
    if |path| > 1 {
      assert path[1] in ChildrenOf(forest, path[0]);
      var k :| 0 <= k < |ChildrenOf(forest, path[0])| && ChildrenOf(forest, path[0])[k] == path[1];
      forall i | 0 <= i < |path[1..]| - 1 ensures path[1..][i + 1] in ChildrenOf(forest, path[1..][i]) {
        assert path[i + 2] in ChildrenOf(forest, path[i + 1]);
      }
      RankFalls(forest, rank, path[1..]);
      forall i | 0 < i < |path| ensures path[i] in rank && rank[path[i]] < rank[path[0]] {
        assert path[i] == path[1..][i - 1];
      }
    }
  }

  /**
   * For any records, repeated ids and cycles included: rendering from the roots ends exactly
   * if no chain of listed children from a root comes back to a node it has passed.
   */
  lemma RenderingEndsIff(forest: Forest, records: seq<Record>)
    requires Builds(forest, records)
    ensures CanRender(forest) <==> NoCycleBelowRoots(forest)
  {
    BuiltIsClosed(forest, records);
    if NoCycleBelowRoots(forest) {
      var rank, bound := RankByHeight(forest);
    }
    if rank: map<string, nat>, bound: nat :| Renderable(forest, rank, bound) {
      forall path | FromRoot(forest, path) ensures Distinct(path) {
        var i :| 0 <= i < |forest.roots| && forest.roots[i] == path[0];
        RankFalls(forest, rank, path);
      }
    }
  }

  /**
   * A span that names itself as parent, then one with the same id and no parent: the node hangs below itself and
   * is a root.
   */
  lemma RepeatedIdNeverEnds(forest: Forest)
    requires Builds(forest, [Record("a", "t", Some("a"), "x", "1ms"), Record("a", "t", None, "y", "1ms")])
    ensures forest.roots == ["a"] && ChildrenOf(forest, "a") == ["a"] && !CanRender(forest)
  {
    var first, second := Record("a", "t", Some("a"), "x", "1ms"), Record("a", "t", None, "y", "1ms");
    assert [first, second][..1] == [first] && [first][..0] == [];
    assert Nodes([first]) == map["a" := first];
    assert forest.nodes == map["a" := second];
    assert Under(forest.nodes, [first], None) == [] && Under(forest.nodes, [first], Some("a")) == ["a"];
    RenderingEndsIff(forest, [first, second]);
    var path := ["a", "a"];
    assert path[1..] == ["a"];
    assert FromRoot(forest, path) && !Distinct(path);
  }
}
