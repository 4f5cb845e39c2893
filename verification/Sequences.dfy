/** Vocabulary shared by the models: optional values, subsequences and counting. */
module Sequences {

  datatype Option<+T> = None | Some(value: T)

  function Min(a: int, b: int): int { if a <= b then a else b }

  function Max(a: int, b: int): int { if a >= b then a else b }

  lemma SliceGrows<T>(s: seq<T>, i: int, j: int)
    requires 0 <= i <= j < |s|
    ensures s[i..j] + [s[j]] == s[i..j + 1]
  {
  }

  lemma DropTwice<T>(s: seq<T>, i: int, j: int)
    requires 0 <= i && 0 <= j && i + j <= |s|
    ensures s[i..][j..] == s[i + j..]
  {
  }

  lemma EmptyConcat<T>(s: seq<T>)
    ensures [] + s == s
  {
  }

  lemma DropIsSlice<T>(s: seq<T>, i: int)
    requires 0 <= i <= |s|
    ensures s[i..|s|] == s[i..]
  {
  }

  lemma TailOfConcat<T>(a: seq<T>, b: seq<T>)
    requires a != []
    ensures (a + b)[0] == a[0] && (a + b)[1..] == a[1..] + b
  {
  }

  lemma HeadAndTail<T>(s: seq<T>)
    requires s != []
    ensures [s[0]] + s[1..] == s
  {
  }

  lemma InitAndLast<T>(s: seq<T>)
    requires s != []
    ensures s[..|s| - 1] + [s[|s| - 1]] == s
  {
  }

  lemma ConcatAssociates<T>(a: seq<T>, b: seq<T>, c: seq<T>)
    ensures a + (b + c) == a + b + c
  {
  }

  /** All elements of a sequence of sequences, in order. */
  function Flat<T>(s: seq<seq<T>>): seq<T> {
    if s == [] then [] else s[0] + Flat(s[1..])
  }

  lemma FlatOne<T>(batch: seq<T>)
    ensures Flat([batch]) == batch
  {
    assert [batch][1..] == [];
  }

  /** `a` arises from `b` by deleting elements: order is kept and nothing is repeated. */
  ghost predicate Subseq<T(!new)>(a: seq<T>, b: seq<T>)
    decreases b
  {
    a == [] ||
    (b != [] &&
     ((a[|a| - 1] == b[|b| - 1] && Subseq(a[..|a| - 1], b[..|b| - 1])) || Subseq(a, b[..|b| - 1])))
  }

  lemma SubseqExtendBoth<T(!new)>(a: seq<T>, b: seq<T>, x: T)
    requires Subseq(a, b)
    ensures Subseq(a + [x], b + [x])
  {
    assert (a + [x])[..|a|] == a && (b + [x])[..|b|] == b;
  }

  lemma SubseqExtendRight<T(!new)>(a: seq<T>, b: seq<T>, x: T)
    requires Subseq(a, b)
    ensures Subseq(a, b + [x])
  {
    assert (b + [x])[..|b|] == b;
  }

  /** Deleting a middle segment of a subsequence leaves a subsequence. */
  lemma {:induction false} SubseqCut<T(!new)>(p: seq<T>, m: seq<T>, s: seq<T>, b: seq<T>)
    requires Subseq(p + m + s, b)
    ensures Subseq(p + s, b)
    decreases |b|
  {
    var a := p + m + s;
    if p + s == [] || m == [] {
      assert p + s == [] || p + s == a;
    } else {
      var b' := b[..|b| - 1];
      if Subseq(a, b') {
        SubseqCut(p, m, s, b');
      } else if s != [] {
        var s' := s[..|s| - 1];
        assert a[..|a| - 1] == p + m + s';
        SubseqCut(p, m, s', b');
        assert (p + s)[..|p + s| - 1] == p + s';
      } else {
        var m' := m[..|m| - 1];
        assert a[..|a| - 1] == p + m' + s;
        SubseqCut(p, m', s, b');
      }
    }
  }

  /** How often a subsequence shows an element is bounded by its source: nothing is duplicated. */
  lemma {:induction false} SubseqMultiplicity<T(!new)>(a: seq<T>, b: seq<T>)
    requires Subseq(a, b)
    ensures multiset(a) <= multiset(b)
    decreases |b|
  {
    if a != [] {
      var a', b' := a[..|a| - 1], b[..|b| - 1];
      assert a == a' + [a[|a| - 1]] && b == b' + [b[|b| - 1]];
      if Subseq(a, b') {
        SubseqMultiplicity(a, b');
      } else {
        SubseqMultiplicity(a', b');
      }
    }
  }

  /** One more element in front, on the right or on both sides. */
  lemma {:induction false} SubseqPrepend<T(!new)>(a: seq<T>, b: seq<T>, x: T)
    requires Subseq(a, b)
    ensures Subseq(a, [x] + b) && Subseq([x] + a, [x] + b)
    decreases |b|
  {
    if b == [] {
      assert [x] + b == [x] && [x] + a == [x] && [x][..0] == [];
    } else {
      var b' := b[..|b| - 1];
      assert ([x] + b)[..|b|] == [x] + b';
      if a != [] { assert ([x] + a)[..|a|] == [x] + a[..|a| - 1]; }
      if a == [] || Subseq(a, b') {
        SubseqPrepend(a, b', x);
      } else {
        SubseqPrepend(a[..|a| - 1], b', x);
      }
    }
  }

  lemma {:induction false} SubseqFits<T(!new)>(a: seq<T>, b: seq<T>)
    requires Subseq(a, b)
    ensures |a| <= |b|
    decreases |b|
  {
    if a != [] {
      if Subseq(a, b[..|b| - 1]) { SubseqFits(a, b[..|b| - 1]); } else { SubseqFits(a[..|a| - 1], b[..|b| - 1]); }
    }
  }

  /** A subsequence as long as its source is the source. */
  lemma {:induction false} SubseqOfSameLength<T(!new)>(a: seq<T>, b: seq<T>)
    requires Subseq(a, b) && |a| == |b|
    ensures a == b
    decreases |b|
  {
    if a != [] {
      var a', b' := a[..|a| - 1], b[..|b| - 1];
      if Subseq(a, b') { SubseqFits(a, b'); }
      SubseqOfSameLength(a', b');
      assert a == a' + [a[|a| - 1]] && b == b' + [b[|b| - 1]];
    }
  }
}
