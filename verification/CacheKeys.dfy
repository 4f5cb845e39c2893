/** The cache keys of src/resolvers/index.resolver.ts, and which of them can be the same. */
module CacheKeys {
  import opened Arithmetic
  import opened Sequences

  /** Context values a resolver sees, with the text `typeof` and `String` give. */
  datatype Value = Text(s: string) | Number(n: int)

  function ValueText(v: Value): string {
    match v
    case Text(s) => "string:" + s
    case Number(n) => "number:" + if n < 0 then "-" + Decimal(-n) else Decimal(n)
  }

  /** `${key}:${typeof value}:${String(value)}` */
  function CacheKey(key: string, v: Value): string { key + (":" + ValueText(v)) }

  lemma ValueTextInjective(v: Value, w: Value)
    requires ValueText(v) == ValueText(w)
    ensures v == w
  {
    var a, b := ValueText(v), ValueText(w);
    assert a[0] == (if v.Text? then 's' else 'n') && b[0] == (if w.Text? then 's' else 'n');
    assert a[7..] == b[7..];
    if v.Text? {
      assert a[7..] == v.s && b[7..] == w.s;
    } else {
      var m, n := if v.n < 0 then -v.n else v.n, if w.n < 0 then -w.n else w.n;
      DecimalShape(m);
      DecimalShape(n);
      assert v.n < 0 ==> a[7..][1..] == Decimal(m);
      assert w.n < 0 ==> b[7..][1..] == Decimal(n);
      assert v.n >= 0 ==> a[7..] == Decimal(m);
      assert w.n >= 0 ==> b[7..] == Decimal(n);
      DecimalInjective(m, n);
    }
  }

  /** `b` reads like `a` followed by the type tag of a string value. */
  predicate Imitates(a: string, b: string) {
    b == a + ":string" || a + ":string:" <= b
  }

  lemma TextKey(key: string, s: string)
    ensures CacheKey(key, Text(s)) == key + ":string:" + s
  {
    assert ":" + ("string:" + s) == ":string:" + s;
    ConcatAssociates(key, ":string:", s);
  }

  /** A key that reads like another one shares a cache key with it, for suitable values. */
  lemma ImitatorCollides(a: string, b: string) returns (v: Value, w: Value)
    requires Imitates(a, b)
    ensures CacheKey(a, v) == CacheKey(b, w)
  {
    w := Text("");
    TextKey(b, "");
    assert b + ":string:" + "" == b + ":string:";
    if b == a + ":string" {
      v := Text("string:");
      TextKey(a, "string:");
      assert ":string:" + "string:" == ":string" + ":string:";
      ConcatAssociates(a, ":string:", "string:");
      ConcatAssociates(a, ":string", ":string:");
    } else {
      var rest := b[|a + ":string:"|..];
      v := Text(rest + ":string:");
      TextKey(a, rest + ":string:");
      ConcatAssociates(a + ":string:", rest, ":string:");
      assert b == a + ":string:" + rest;
    }
  }

  /** The text of a value has its first colon behind the type, and that of a number no other. */
  lemma ColonsOfValueText(v: Value)
    ensures var text := ValueText(v);
            && |text| >= 7 && text[..7] == (if v.Text? then "string:" else "number:")
            && (v.Number? ==> forall i :: 7 <= i < |text| ==> text[i] != ':')
  {
    var text := ValueText(v);
    match v
    case Text(s) => assert text[..7] == "string:";
    case Number(n) =>
      assert text[..7] == "number:";
      DecimalHasNoColon(if n < 0 then -n else n);
      assert text[7..] == if n < 0 then "-" + Decimal(-n) else Decimal(n);
      forall i | 7 <= i < |text| ensures text[i] != ':' {
        assert text[i] == text[7..][i - 7];
      }
  }

  /** What stands before a complete value text inside another one is the type tag of a string, or starts with it. */
  lemma ValueInsideValue(v: Value, gap: string, w: Value)
    requires ValueText(v) == gap + (":" + ValueText(w))
    ensures gap == "string" || "string:" <= gap
  {
    var text, n := ValueText(v), |gap|;
    ColonsOfValueText(v);
    ColonsOfValueText(w);
    assert ValueText(w)[6] == (ValueText(w)[..7])[6] == ':';
    assert text[n] == ':' && text[n + 7] == ValueText(w)[6];
    assert forall i :: 0 <= i < 6 ==> text[i] == (text[..7])[i] != ':';
    assert gap == text[..n];
    if n == 6 { assert gap == text[..7][..6]; } else { assert gap[..7] == text[..7]; }
  }

  /** The longer of two keys with a common cache key is the shorter one, a colon and what is left. */
  lemma LongerKey(a: string, r: string, b: string, r': string) returns (gap: string)
    requires |a| <= |b| && a + (":" + r) == b + (":" + r') && a != b
    ensures b == a + (":" + gap) && r == gap + (":" + r')
  {
    var whole := a + (":" + r);
    assert whole[..|a|] == a && whole[|a|] == ':' && whole[|a| + 1..] == r;
    assert whole[..|b|] == b && whole[|b|] == ':' && whole[|b| + 1..] == r';
    gap := b[|a| + 1..];
    assert b == whole[..|a|] + [whole[|a|]] + gap;
    assert r == whole[|a| + 1..|b|] + [whole[|b|]] + whole[|b| + 1..];
  }

  /** Of two different keys with a common cache key the longer one imitates the shorter. */
  lemma CollisionIsImitation(a: string, v: Value, b: string, w: Value)
    requires |a| <= |b| && CacheKey(a, v) == CacheKey(b, w) && a != b
    ensures Imitates(a, b)
  {
    var gap := LongerKey(a, ValueText(v), b, ValueText(w));
    ValueInsideValue(v, gap, w);
    if gap == "string" {
      assert b == a + ":string";
    } else {
      assert b == a + ":string:" + gap[7..];
    }
  }

  /** Two different keys can share a cache key exactly if one of them imitates the other. */
  lemma KeysCollideIff(a: string, b: string)
    requires a != b
    ensures (exists v, w :: CacheKey(a, v) == CacheKey(b, w)) <==> Imitates(a, b) || Imitates(b, a)
  {
    if v, w :| CacheKey(a, v) == CacheKey(b, w) {
      if |a| <= |b| { CollisionIsImitation(a, v, b, w); } else { CollisionIsImitation(b, w, a, v); }
    }
    if Imitates(a, b) { var v, w := ImitatorCollides(a, b); }
    if Imitates(b, a) { var w, v := ImitatorCollides(b, a); }
  }

  lemma CacheKeyInjective(a: string, v: Value, b: string, w: Value)
    requires !Imitates(a, b) && !Imitates(b, a) && CacheKey(a, v) == CacheKey(b, w)
    ensures a == b && v == w
  {
    if a != b {
      KeysCollideIff(a, b);
    } else {
      assert CacheKey(a, v)[|a| + 1..] == ValueText(v) && CacheKey(b, w)[|b| + 1..] == ValueText(w);
      ValueTextInjective(v, w);
    }
  }

  /**
   * Colons alone do no harm: keys whose lengths differ by less than the type tag's, as "user:id" and "org:id",
   * never collide.
   */
  lemma CloseLengthsNeverCollide(a: string, v: Value, b: string, w: Value)
    requires a != b && |a| < |b| + |":string"| && |b| < |a| + |":string"|
    ensures CacheKey(a, v) != CacheKey(b, w)
  {
    KeysCollideIff(a, b);
  }

  /** A colon that imitates the type tag does. */
  lemma ColonKeysCollide()
    ensures CacheKey("a:string", Text("b")) == CacheKey("a", Text("string:b"))
  {
    assert "a:string" + ":string:b" == "a" + ":string:string:b";
  }

  /** No key imitates another one; this can be decided when the resolver set is built. */
  ghost predicate Unambiguous(keys: set<string>) {
    forall a, b :: a in keys && b in keys ==> !Imitates(a, b)
  }

  /** A cache key determines key and value over a set of configured keys exactly if no key imitates another. */
  lemma CacheKeysInjectiveIff(keys: set<string>)
    ensures Unambiguous(keys) <==>
            forall a, v, b, w :: a in keys && b in keys && CacheKey(a, v) == CacheKey(b, w) ==> a == b && v == w
  {
    if Unambiguous(keys) {
      forall a, v, b, w | a in keys && b in keys && CacheKey(a, v) == CacheKey(b, w) ensures a == b && v == w {
        CacheKeyInjective(a, v, b, w);
      }
    } else {
      var a, b :| a in keys && b in keys && Imitates(a, b);
      var v, w := ImitatorCollides(a, b);
      assert a != b;
    }
  }
}
