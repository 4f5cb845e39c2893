/**
 * The recursive rewrite of src/redact/index.redact.ts over possibly cyclic object graphs.
 * Regular expressions are uninterpreted predicates and string functions.
 */
module Redaction {
  import opened Arithmetic
  import opened Sequences

  /** A context value. Objects live in a heap, so they may be shared or cyclic. */
  datatype Value =
    | Scalar(n: int)           // numbers, booleans, null, undefined
    | Str(s: string)
    | Err(id: int)             // an Error instance
    | Serialized(id: int)      // an error expanded by serializeError: final data
    | Arr(items: seq<Value>)
    | Ref(id: int)

  datatype Field = Field(key: string, value: Value)

  type Heap = map<int, seq<Field>>

  /** A result: a value returned as it is (an object by reference), or a copied object. */
  datatype Out = Leaf(value: Value) | Fresh(fields: seq<OutField>)

  datatype OutField = OutField(key: string, value: Out)

  datatype SecretKey = Default | Custom(test: string -> bool)

  datatype Pii = Pii(card: bool, email: bool)

  datatype Compiled = Compiled(exact: set<string>, prefixes: seq<string>)

  /** The regular expressions of src/config/redaction.config.ts. */
  datatype Patterns = Patterns(
    fragments: string -> bool,     // SENSITIVE_KEY_FRAGMENTS
    message: string -> bool,       // MESSAGE_REDACTION_PATTERN
    maskBearer: string -> string,
    maskKeyValue: string -> string,
    maskEmail: string -> string,
    maskCard: string -> string)

  datatype Config = Config(
    patterns: Patterns, secretKey: Option<SecretKey>, censor: string, pii: Option<Pii>, maxDepth: int,
    compiled: Option<Compiled>)
  {
    /** Some redaction mode is on. */
    predicate On() { secretKey.Some? || compiled.Some? || pii.Some? }
  }

  // ----- paths -----

  const WILDCARD := ".*"

  predicate IsWildcard(pattern: string) {
    |pattern| >= 2 && pattern[|pattern| - 2..] == WILDCARD
  }

  /** What the path list means, pattern by pattern. */
  predicate RawMatches(pattern: string, path: string) {
    if IsWildcard(pattern) then
      var parent := pattern[..|pattern| - 2];
      path == parent || parent + "." <= path
    else path == pattern
  }

  function AddPattern(c: Compiled, pattern: string): Compiled {
    if IsWildcard(pattern) then
      var parent := pattern[..|pattern| - 2];
      Compiled(c.exact + {parent}, c.prefixes + [parent + "."])
    else c.(exact := c.exact + {pattern})
  }

  function CompileFrom(c: Compiled, paths: seq<string>): Compiled
    decreases |paths|
  {
    if paths == [] then c else CompileFrom(AddPattern(c, paths[0]), paths[1..])
  }

  function CompilePaths(paths: seq<string>): Option<Compiled> {
    if paths == [] then None else Some(CompileFrom(Compiled({}, []), paths))
  }

  ghost predicate PathMatches(path: string, c: Compiled) {
    path in c.exact || exists i :: 0 <= i < |c.prefixes| && c.prefixes[i] <= path
  }

  lemma AddPatternMatches(c: Compiled, pattern: string, path: string)
    ensures PathMatches(path, AddPattern(c, pattern)) <==> PathMatches(path, c) || RawMatches(pattern, path)
  {
    var c' := AddPattern(c, pattern);
    if IsWildcard(pattern) {
      var parent := pattern[..|pattern| - 2];
      assert c'.prefixes[|c.prefixes|] == parent + ".";
      assert forall i :: 0 <= i < |c.prefixes| ==> c'.prefixes[i] == c.prefixes[i];
    }
  }

  lemma {:induction false} CompileFromMatches(c: Compiled, paths: seq<string>, path: string)
    ensures PathMatches(path, CompileFrom(c, paths)) <==>
            PathMatches(path, c) || exists i :: 0 <= i < |paths| && RawMatches(paths[i], path)
    decreases |paths|
  {
    if paths != [] {
      AddPatternMatches(c, paths[0], path);
      CompileFromMatches(AddPattern(c, paths[0]), paths[1..], path);
      assert forall i :: 0 <= i < |paths[1..]| ==> paths[1..][i] == paths[i + 1];
    }
  }

  /** Compiled paths match exactly when some configured pattern does. */
  lemma CompiledMatchesIff(paths: seq<string>, path: string)
    ensures paths == [] <==> CompilePaths(paths).None?
    ensures CompilePaths(paths).Some? ==>
              (PathMatches(path, CompilePaths(paths).value) <==>
               exists i :: 0 <= i < |paths| && RawMatches(paths[i], path))
  {
    CompileFromMatches(Compiled({}, []), paths, path);
  }

  // ----- the rewrite -----

  function MatchesSecretKey(c: Config, key: string): bool {
    match c.secretKey
    case None => false
    case Some(Default) => c.patterns.fragments(key)
    case Some(Custom(test)) => test(key)
  }

  ghost predicate Hidden(c: Config, key: string, path: string) {
    (c.compiled.Some? && PathMatches(path, c.compiled.value)) || MatchesSecretKey(c, key)
  }

  predicate IsObject(v: Value) {
    v.Err? || v.Serialized? || v.Arr? || v.Ref?
  }

  /** Values that a copy may change even under a harmless key. */
  predicate Scanned(c: Config, v: Value) {
    IsObject(v) || (v.Str? && (c.pii.Some? || (c.secretKey.Some? && c.patterns.message(v.s))))
  }

  ghost predicate NeedsScan(c: Config, f: Field, path: string) {
    Hidden(c, f.key, path) || Scanned(c, f.value)
  }

  function ChildPath(path: string, key: string): string {
    if path == "" then key else path + "." + key
  }

  function Fields(h: Heap, id: int): seq<Field> {
    if id in h then h[id] else []
  }

  function RedactString(c: Config, s: string): string {
    var masks := c.secretKey.Some? && c.patterns.message(s);
    var r := if masks then c.patterns.maskKeyValue(c.patterns.maskBearer(s)) else s;
    if c.pii.None? then r
    else
      var r' := if c.pii.value.email then c.patterns.maskEmail(r) else r;
      if c.pii.value.card then c.patterns.maskCard(r') else r'
  }

  function Items(n: nat): string { "[" + Decimal(n) + " items]" }

  ghost predicate NeedsCopy(c: Config, fields: seq<Field>, path: string) {
    exists i :: 0 <= i < |fields| && NeedsScan(c, fields[i], ChildPath(path, fields[i].key))
  }

  /** Recursion is bounded by the depth alone, so cyclic graphs are no obstacle. */
  ghost function Redact(c: Config, h: Heap, v: Value, depth: nat, path: string): Out
    decreases if depth > c.maxDepth then 0 else c.maxDepth + 1 - depth, 1, 0
  {
    if depth > c.maxDepth then Leaf(Str(c.censor))
    else
      match v
      case Err(id) => Leaf(Serialized(id))
      case Serialized(_) => Leaf(v)
      case Str(s) => Leaf(Str(RedactString(c, s)))
      case Arr(items) => Leaf(Str(Items(|items|)))
      case Scalar(_) => Leaf(v)
      case Ref(id) =>
        if !c.On() || !NeedsCopy(c, Fields(h, id), path) then Leaf(v)
        else Fresh(RedactFields(c, h, Fields(h, id), depth, path))
  }

  ghost function RedactFields(c: Config, h: Heap, fields: seq<Field>, depth: nat, path: string): seq<OutField>
    requires depth <= c.maxDepth
    decreases c.maxDepth + 1 - depth, 0, |fields|
  {
    if fields == [] then []
    else
      var f := fields[0];
      var childPath := ChildPath(path, f.key);
      var child := if Hidden(c, f.key, childPath) then Leaf(Str(c.censor))
                   else Redact(c, h, f.value, depth + 1, childPath);
      [OutField(f.key, child)] + RedactFields(c, h, fields[1..], depth, path)
  }

  // ----- what a reader of the result sees -----

  function Shown(fields: seq<Field>): seq<OutField> {
    if fields == [] then [] else [OutField(fields[0].key, Leaf(fields[0].value))] + Shown(fields[1..])
  }

  /** Follow the references in a result, one level: an object returned as it is shows its own fields. */
  function Observe(h: Heap, o: Out): Out {
    match o
    case Leaf(Ref(id)) => Fresh(Shown(Fields(h, id)))
    case Leaf(_) => o
    case Fresh(fields) => Fresh(ObserveFields(h, fields))
  }

  function ObserveFields(h: Heap, fields: seq<OutField>): seq<OutField> {
    if fields == [] then []
    else [OutField(fields[0].key, Observe(h, fields[0].value))] + ObserveFields(h, fields[1..])
  }

  // ----- non-interference -----

  predicate SameKeys(f1: seq<Field>, f2: seq<Field>) {
    |f1| == |f2| && forall i :: 0 <= i < |f1| ==> f1[i].key == f2[i].key
  }

  /**
   * Two values a reader of redacted output must not tell apart: the same shape, equal
   * except under hidden keys and paths, inside arrays of equal length, in the parts of
   * free text that the patterns mask, and in objects at the depth bound that are copied.
   * An object at the bound is copied if one of its fields, hidden ones included, needs
   * the scan; one that is not is returned as it is, so there the fields must be equal.
   */
  ghost predicate LowEqual(c: Config, h1: Heap, v1: Value, h2: Heap, v2: Value, depth: nat, path: string)
    decreases if depth > c.maxDepth then 0 else c.maxDepth + 1 - depth, 1, 0
  {
    if depth > c.maxDepth then true
    else if v1.Str? && v2.Str? then
      v1 == v2 || (Scanned(c, v1) && Scanned(c, v2) && RedactString(c, v1.s) == RedactString(c, v2.s))
    else if v1.Arr? && v2.Arr? then |v1.items| == |v2.items|
    else if v1.Ref? && v2.Ref? then
      var f1, f2 := Fields(h1, v1.id), Fields(h2, v2.id);
      if depth == c.maxDepth then
        f1 == f2 || (SameKeys(f1, f2) && NeedsCopy(c, f1, path) && NeedsCopy(c, f2, path))
      else LowEqualFields(c, h1, f1, h2, f2, depth, path)
    else v1 == v2
  }

  ghost predicate LowEqualFields(
    c: Config, h1: Heap, f1: seq<Field>, h2: Heap, f2: seq<Field>, depth: nat, path: string)
    requires depth < c.maxDepth
    decreases c.maxDepth + 1 - depth, 0, |f1|
  {
    if f1 == [] || f2 == [] then f1 == f2
    else
      var key := f1[0].key;
      var childPath := ChildPath(path, key);
      && f2[0].key == key
      && (Hidden(c, key, childPath) || LowEqual(c, h1, f1[0].value, h2, f2[0].value, depth + 1, childPath))
      && LowEqualFields(c, h1, f1[1..], h2, f2[1..], depth, path)
  }

  /** The head of an object needs a scan in both graphs or in neither. */
  lemma HeadScanAgrees(c: Config, h1: Heap, f1: Field, h2: Heap, f2: Field, depth: nat, path: string)
    requires f1.key == f2.key && depth <= c.maxDepth
    requires Hidden(c, f1.key, path) || LowEqual(c, h1, f1.value, h2, f2.value, depth, path)
    ensures NeedsScan(c, f1, path) <==> NeedsScan(c, f2, path)
    ensures !NeedsScan(c, f1, path) ==> f1 == f2
  {
  }

  lemma NeedsCopyCons(c: Config, fields: seq<Field>, path: string)
    requires fields != []
    ensures NeedsCopy(c, fields, path) <==>
            NeedsScan(c, fields[0], ChildPath(path, fields[0].key)) || NeedsCopy(c, fields[1..], path)
  {
    assert forall i :: 0 <= i < |fields[1..]| ==> fields[1..][i] == fields[i + 1];
    if NeedsCopy(c, fields[1..], path) {
      var i :| 0 <= i < |fields[1..]| && NeedsScan(c, fields[1..][i], ChildPath(path, fields[1..][i].key));
      assert fields[i + 1] == fields[1..][i];
    }
  }

  /** The two scans of the fast path decide alike, and without a copy both show the same fields. */
  lemma {:induction false} ScansAgree(
    c: Config, h1: Heap, f1: seq<Field>, h2: Heap, f2: seq<Field>, depth: nat, path: string)
    requires depth < c.maxDepth && LowEqualFields(c, h1, f1, h2, f2, depth, path)
    ensures NeedsCopy(c, f1, path) <==> NeedsCopy(c, f2, path)
    ensures !NeedsCopy(c, f1, path) ==> f1 == f2
    decreases |f1|
  {
    if f1 != [] && f2 != [] {
      NeedsCopyCons(c, f1, path);
      NeedsCopyCons(c, f2, path);
      HeadScanAgrees(c, h1, f1[0], h2, f2[0], depth + 1, ChildPath(path, f1[0].key));
      ScansAgree(c, h1, f1[1..], h2, f2[1..], depth, path);
      if !NeedsCopy(c, f1, path) {
        assert f1 == [f1[0]] + f1[1..] && f2 == [f2[0]] + f2[1..];
      }
    }
  }

  function Censored(c: Config, fields: seq<Field>): seq<OutField> {
    if fields == [] then [] else [OutField(fields[0].key, Leaf(Str(c.censor)))] + Censored(c, fields[1..])
  }

  /** A copy at the depth bound holds the censor under every key, whatever the fields held. */
  lemma {:induction false} CopyAtTheBound(c: Config, h: Heap, fields: seq<Field>, depth: nat, path: string)
    requires depth == c.maxDepth
    ensures RedactFields(c, h, fields, depth, path) == Censored(c, fields)
    ensures ObserveFields(h, Censored(c, fields)) == Censored(c, fields)
    decreases |fields|
  {
    if fields != [] {
      CopyAtTheBound(c, h, fields[1..], depth, path);
      assert Censored(c, fields)[1..] == Censored(c, fields[1..]);
    }
  }

  lemma {:induction false} CensoredByKeys(c: Config, f1: seq<Field>, f2: seq<Field>)
    requires SameKeys(f1, f2)
    ensures Censored(c, f1) == Censored(c, f2)
    decreases |f1|
  {
    if f1 != [] {
      assert f1[0].key == f2[0].key;
      forall i | 0 <= i < |f1[1..]| ensures f1[1..][i].key == f2[1..][i].key {
        assert f1[i + 1].key == f2[i + 1].key;
      }
      CensoredByKeys(c, f1[1..], f2[1..]);
    }
  }

  /** Non-interference: with a mode on, values that differ only where secrets live are redacted alike. */
  lemma {:induction false} NonInterference(
    c: Config, h1: Heap, v1: Value, h2: Heap, v2: Value, depth: nat, path: string)
    requires c.On() && LowEqual(c, h1, v1, h2, v2, depth, path)
    ensures Observe(h1, Redact(c, h1, v1, depth, path)) == Observe(h2, Redact(c, h2, v2, depth, path))
    decreases if depth > c.maxDepth then 0 else c.maxDepth + 1 - depth, 1, 0
  {
    if depth <= c.maxDepth && v1.Ref? && v2.Ref? {
      var f1, f2 := Fields(h1, v1.id), Fields(h2, v2.id);
      if depth == c.maxDepth {
        CopyAtTheBound(c, h1, f1, depth, path);
        CopyAtTheBound(c, h2, f2, depth, path);
        CensoredByKeys(c, f1, f2);
      } else {
        ScansAgree(c, h1, f1, h2, f2, depth, path);
        FieldsNonInterference(c, h1, f1, h2, f2, depth, path);
      }
    }
  }

  lemma {:induction false} FieldsNonInterference(
    c: Config, h1: Heap, f1: seq<Field>, h2: Heap, f2: seq<Field>, depth: nat, path: string)
    requires c.On() && depth < c.maxDepth && LowEqualFields(c, h1, f1, h2, f2, depth, path)
    ensures ObserveFields(h1, RedactFields(c, h1, f1, depth, path))
         == ObserveFields(h2, RedactFields(c, h2, f2, depth, path))
    decreases c.maxDepth + 1 - depth, 0, |f1|
  {
    if f1 != [] && f2 != [] {
      var childPath := ChildPath(path, f1[0].key);
      if !Hidden(c, f1[0].key, childPath) {
        NonInterference(c, h1, f1[0].value, h2, f2[0].value, depth + 1, childPath);
      }
      FieldsNonInterference(c, h1, f1[1..], h2, f2[1..], depth, path);
    }
  }

  // ----- what the output never contains -----

  /** Hidden fields show the censor, objects end at the depth bound, and no array, error or reference is left. */
  ghost predicate Clean(c: Config, o: Out, depth: nat, path: string)
    decreases o, 1
  {
    match o
    case Leaf(v) => !v.Ref? && !v.Arr? && !v.Err?
    case Fresh(fields) => depth <= c.maxDepth && CleanFields(c, fields, depth, path)
  }

  ghost predicate CleanFields(c: Config, fields: seq<OutField>, depth: nat, path: string)
    decreases fields, 0
  {
    if fields == [] then true
    else
      var f := fields[0];
      var childPath := ChildPath(path, f.key);
      && (if Hidden(c, f.key, childPath) then f.value == Leaf(Str(c.censor))
          else Clean(c, f.value, depth + 1, childPath))
      && CleanFields(c, fields[1..], depth, path)
  }

  lemma {:induction false} ShownIsClean(c: Config, fields: seq<Field>, depth: nat, path: string)
    requires !NeedsCopy(c, fields, path)
    ensures CleanFields(c, Shown(fields), depth, path)
    decreases |fields|
  {
    if fields != [] {
      NeedsCopyCons(c, fields, path);
      ShownIsClean(c, fields[1..], depth, path);
      assert Shown(fields)[1..] == Shown(fields[1..]);
    }
  }

  /** With a mode on, whatever the graph, the visible result is clean. */
  lemma {:induction false} OutputIsClean(c: Config, h: Heap, v: Value, depth: nat, path: string)
    requires c.On()
    ensures Clean(c, Observe(h, Redact(c, h, v, depth, path)), depth, path)
    decreases if depth > c.maxDepth then 0 else c.maxDepth + 1 - depth, 1, 0
  {
    if depth <= c.maxDepth && v.Ref? {
      var fields := Fields(h, v.id);
      if NeedsCopy(c, fields, path) {
        FieldsAreClean(c, h, fields, depth, path);
      } else {
        ShownIsClean(c, fields, depth, path);
      }
    }
  }

  lemma {:induction false} FieldsAreClean(c: Config, h: Heap, fields: seq<Field>, depth: nat, path: string)
    requires c.On() && depth <= c.maxDepth
    ensures CleanFields(c, ObserveFields(h, RedactFields(c, h, fields, depth, path)), depth, path)
    decreases c.maxDepth + 1 - depth, 0, |fields|
  {
    if fields != [] {
      var childPath := ChildPath(path, fields[0].key);
      OutputIsClean(c, h, fields[0].value, depth + 1, childPath);
      FieldsAreClean(c, h, fields[1..], depth, path);
      var all, rest := RedactFields(c, h, fields, depth, path), RedactFields(c, h, fields[1..], depth, path);
      assert all[1..] == rest && ObserveFields(h, all)[1..] == ObserveFields(h, rest);
    }
  }

  // ----- the fast path -----

  /** Whether copying the fields would have changed nothing. */
  ghost predicate CopyIsIdle(c: Config, h: Heap, fields: seq<Field>, depth: nat, path: string)
    requires depth <= c.maxDepth
  {
    RedactFields(c, h, fields, depth, path) == Shown(fields)
  }

  /**
   * Returning the object itself instead of a copy is exact below the depth bound. At the bound
   * a copy would censor every field, so it is exact only if every field is the censor already.
   */
  lemma {:induction false} FastPathExactIff(c: Config, h: Heap, fields: seq<Field>, depth: nat, path: string)
    requires depth <= c.maxDepth && !NeedsCopy(c, fields, path)
    ensures CopyIsIdle(c, h, fields, depth, path) <==>
            depth < c.maxDepth || forall i :: 0 <= i < |fields| ==> fields[i].value == Str(c.censor)
    decreases |fields|
  {
    if fields != [] {
      NeedsCopyCons(c, fields, path);
      FastPathExactIff(c, h, fields[1..], depth, path);
      var rest := fields[1..];
      assert forall i :: 0 <= i < |rest| ==> rest[i] == fields[i + 1];
      assert RedactFields(c, h, fields, depth, path)[1..] == RedactFields(c, h, rest, depth, path);
      assert Shown(fields)[1..] == Shown(rest);
      var child := Redact(c, h, fields[0].value, depth + 1, ChildPath(path, fields[0].key));
      assert RedactFields(c, h, fields, depth, path)[0] == OutField(fields[0].key, child);
      if forall i :: 0 <= i < |rest| ==> rest[i].value == Str(c.censor) {
        assert fields[0].value == Str(c.censor) ==>
                 forall i :: 0 <= i < |fields| ==> fields[i].value == Str(c.censor) by {
          forall i | 0 < i < |fields| ensures fields[i] == rest[i - 1] {}
        }
      }
    }
  }

  // ----- what is kept -----

  /**
   * An object at the depth bound with one plain scalar: it is returned as it is, where a copy would hold the
   * censor.
   */
  lemma ScalarAtTheBoundIsShown(patterns: Patterns, censor: string)
    ensures var c := Config(patterns, None, censor, None, 0, CompilePaths(["password"]));
            var fields := [Field("n", Scalar(7))];
            var h := map[0 := fields];
            && c.On() && Redact(c, h, Ref(0), 0, "") == Leaf(Ref(0))
            && Observe(h, Leaf(Ref(0))) == Fresh([OutField("n", Leaf(Scalar(7)))])
            && RedactFields(c, h, fields, 0, "") == [OutField("n", Leaf(Str(censor)))]
  {
    assert "password"[|"password"| - 2..] == "rd";
    CompiledMatchesIff(["password"], "n");
    var c := Config(patterns, None, censor, None, 0, CompilePaths(["password"]));
    var fields := [Field("n", Scalar(7))];
    assert !PathMatches("n", c.compiled.value) && fields[1..] == [];
    assert !NeedsCopy(c, fields, "");
  }

  lemma {:induction false} RedactFieldsAt(c: Config, h: Heap, fields: seq<Field>, depth: nat, path: string, i: nat)
    requires depth <= c.maxDepth && i < |fields|
    ensures |RedactFields(c, h, fields, depth, path)| == |fields|
    ensures var childPath := ChildPath(path, fields[i].key);
            RedactFields(c, h, fields, depth, path)[i] ==
            OutField(fields[i].key,
                     if Hidden(c, fields[i].key, childPath) then Leaf(Str(c.censor))
                     else Redact(c, h, fields[i].value, depth + 1, childPath))
    decreases |fields|
  {
    if i > 0 {
      RedactFieldsAt(c, h, fields[1..], depth, path, i - 1);
    } else if |fields| > 1 {
      RedactFieldsAt(c, h, fields[1..], depth, path, 0);
    }
  }

  lemma {:induction false} ShownAt(h: Heap, fields: seq<Field>, i: nat)
    requires i < |fields|
    ensures |Shown(fields)| == |fields| && Shown(fields)[i] == OutField(fields[i].key, Leaf(fields[i].value))
    decreases |fields|
  {
    if i > 0 {
      ShownAt(h, fields[1..], i - 1);
    } else if |fields| > 1 {
      ShownAt(h, fields[1..], 0);
    }
  }

  lemma {:induction false} ObserveAt(h: Heap, fields: seq<OutField>, i: nat)
    requires i < |fields|
    ensures |ObserveFields(h, fields)| == |fields|
    ensures ObserveFields(h, fields)[i] == OutField(fields[i].key, Observe(h, fields[i].value))
    decreases |fields|
  {
    if i > 0 {
      ObserveAt(h, fields[1..], i - 1);
    } else if |fields| > 1 {
      ObserveAt(h, fields[1..], 0);
    }
  }

  /**
   * Redaction hides no more than it must: an object above the depth bound keeps all its keys
   * in order, and every field that is not hidden and needs no scan keeps its value.
   */
  lemma HarmlessFieldsKept(c: Config, h: Heap, id: int, depth: nat, path: string, i: nat)
    requires depth < c.maxDepth && i < |Fields(h, id)|
    ensures var seen := Observe(h, Redact(c, h, Ref(id), depth, path));
            var f := Fields(h, id)[i];
            && seen.Fresh? && |seen.fields| == |Fields(h, id)| && seen.fields[i].key == f.key
            && (!NeedsScan(c, f, ChildPath(path, f.key)) ==> seen.fields[i].value == Leaf(f.value))
  {
    var fields := Fields(h, id);
    ShownAt(h, fields, i);
    RedactFieldsAt(c, h, fields, depth, path, i);
    ObserveAt(h, RedactFields(c, h, fields, depth, path), i);
  }
}
