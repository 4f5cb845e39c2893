/**
 * What a reader of redacted output finds at each position of the value: the censor under
 * every configured key and path, masked text, and otherwise what the value holds there.
 */
module RedactionLeaks {
  import opened Arithmetic
  import opened Sequences
  import opened Redaction

  // ----- positions -----

  /** The part of a visible result that field numbers lead to. */
  function At(o: Out, at: seq<nat>): Option<Out> {
    if at == [] then Some(o)
    else if o.Fresh? && at[0] < |o.fields| then At(o.fields[at[0]].value, at[1..])
    else None
  }

  /** The keys on the way there. */
  function KeysTo(o: Out, at: seq<nat>): seq<string> {
    if at == [] || !(o.Fresh? && at[0] < |o.fields|) then []
    else [o.fields[at[0]].key] + KeysTo(o.fields[at[0]].value, at[1..])
  }

  /** What the value itself holds there. */
  function ValueAt(h: Heap, v: Value, at: seq<nat>): Option<Value>
    decreases |at|
  {
    if at == [] then Some(v)
    else if v.Ref? && at[0] < |Fields(h, v.id)| then ValueAt(h, Fields(h, v.id)[at[0]].value, at[1..])
    else None
  }

  /** Keys with a dot between each two. */
  function Dotted(keys: seq<string>): string {
    if keys == [] then "" else if |keys| == 1 then keys[0] else keys[0] + "." + Dotted(keys[1..])
  }

  /** A path begins with the first key that is not empty. */
  function Trimmed(keys: seq<string>): seq<string> {
    if keys != [] && keys[0] == "" then Trimmed(keys[1..]) else keys
  }

  function PathText(keys: seq<string>): string { Dotted(Trimmed(keys)) }

  function Extend(path: string, keys: seq<string>): string
    decreases |keys|
  {
    if keys == [] then path else Extend(ChildPath(path, keys[0]), keys[1..])
  }

  lemma {:induction false} ExtendFurther(path: string, keys: seq<string>)
    requires path != ""
    ensures Extend(path, keys) == if keys == [] then path else path + "." + Dotted(keys)
    decreases |keys|
  {
    if keys != [] {
      var path' := ChildPath(path, keys[0]);
      ExtendFurther(path', keys[1..]);
      if |keys| > 1 {
        ConcatAssociates(path + ".", keys[0], "." + Dotted(keys[1..]));
        ConcatAssociates(keys[0], ".", Dotted(keys[1..]));
        ConcatAssociates(path', ".", Dotted(keys[1..]));
      }
    }
  }

  lemma {:induction false} ExtendIsPath(keys: seq<string>)
    ensures Extend("", keys) == PathText(keys)
    decreases |keys|
  {
    if keys != [] {
      if keys[0] == "" { ExtendIsPath(keys[1..]); } else { ExtendFurther(keys[0], keys[1..]); }
    }
  }

  // ----- what is to be concealed -----

  /** `secrets.*` masks the parent and everything below it, any other pattern its own path. */
  ghost predicate Masks(pattern: string, path: string) {
    if exists parent :: pattern == parent + ".*" then
      exists parent :: pattern == parent + ".*" && (path == parent || parent + "." <= path)
    else pattern == path
  }

  ghost predicate Secret(c: Config, key: string) {
    || (c.secretKey == Some(Default) && c.patterns.fragments(key))
    || (c.secretKey.Some? && c.secretKey.value.Custom? && c.secretKey.value.test(key))
  }

  /** The last key is a secret one, or some configured pattern masks the path. */
  ghost predicate Concealed(c: Config, paths: seq<string>, keys: seq<string>)
    requires keys != []
  {
    Secret(c, keys[|keys| - 1]) || exists i :: 0 <= i < |paths| && Masks(paths[i], PathText(keys))
  }

  lemma MasksIsRawMatch(pattern: string, path: string)
    ensures Masks(pattern, path) <==> RawMatches(pattern, path)
  {
    if IsWildcard(pattern) {
      assert pattern == pattern[..|pattern| - 2] + ".*";
    }
    forall parent | pattern == parent + ".*" ensures IsWildcard(pattern) && parent == pattern[..|pattern| - 2] {
      assert pattern[|pattern| - 2..] == ".*";
    }
  }

  lemma ConcealedIsHidden(c: Config, paths: seq<string>, keys: seq<string>)
    requires c.compiled == CompilePaths(paths) && keys != []
    ensures Concealed(c, paths, keys) <==> Hidden(c, keys[|keys| - 1], Extend("", keys))
  {
    ExtendIsPath(keys);
    CompiledMatchesIff(paths, PathText(keys));
    forall i | 0 <= i < |paths| ensures Masks(paths[i], PathText(keys)) <==> RawMatches(paths[i], PathText(keys)) {
      MasksIsRawMatch(paths[i], PathText(keys));
    }
  }

  // ----- one level down -----

  /** What is shown for field `f` of an object at `depth`. */
  ghost predicate ShownFor(c: Config, h: Heap, f: Field, depth: nat, path: string, shown: OutField)
    requires depth <= c.maxDepth
  {
    var below := ChildPath(path, f.key);
    && shown.key == f.key
    && if Hidden(c, f.key, below) then shown.value == Leaf(Str(c.censor))
       else if depth < c.maxDepth then shown.value == Observe(h, Redact(c, h, f.value, depth + 1, below))
       else shown.value == Leaf(Str(c.censor)) || (shown.value == Leaf(f.value) && !Scanned(c, f.value))
  }

  lemma CopiedChildShown(c: Config, h: Heap, id: int, depth: nat, path: string, i: nat)
    requires c.On() && depth <= c.maxDepth && i < |Fields(h, id)| && NeedsCopy(c, Fields(h, id), path)
    ensures var seen := Observe(h, Redact(c, h, Ref(id), depth, path));
            && seen.Fresh? && |seen.fields| == |Fields(h, id)|
            && ShownFor(c, h, Fields(h, id)[i], depth, path, seen.fields[i])
  {
    var fields := Fields(h, id);
    RedactFieldsAt(c, h, fields, depth, path, i);
    ObserveAt(h, RedactFields(c, h, fields, depth, path), i);
  }

  lemma PlainChildShown(c: Config, h: Heap, id: int, depth: nat, path: string, i: nat)
    requires c.On() && depth <= c.maxDepth && i < |Fields(h, id)| && !NeedsCopy(c, Fields(h, id), path)
    ensures var seen := Observe(h, Redact(c, h, Ref(id), depth, path));
            && seen.Fresh? && |seen.fields| == |Fields(h, id)|
            && ShownFor(c, h, Fields(h, id)[i], depth, path, seen.fields[i])
  {
    var fields := Fields(h, id);
    ShownAt(h, fields, i);
    assert !NeedsScan(c, fields[i], ChildPath(path, fields[i].key));
  }

  /** A field of a visible object: the censor, its own redaction, or at the depth bound a value that needs no scan. */
  lemma ChildShown(c: Config, h: Heap, id: int, depth: nat, path: string, i: nat)
    requires c.On() && depth <= c.maxDepth && i < |Fields(h, id)|
    ensures var seen := Observe(h, Redact(c, h, Ref(id), depth, path));
            && seen.Fresh? && |seen.fields| == |Fields(h, id)|
            && ShownFor(c, h, Fields(h, id)[i], depth, path, seen.fields[i])
  {
    if NeedsCopy(c, Fields(h, id), path) {
      CopiedChildShown(c, h, id, depth, path, i);
    } else {
      PlainChildShown(c, h, id, depth, path, i);
    }
  }

  lemma ObjectShape(c: Config, h: Heap, v: Value, depth: nat, path: string)
    requires c.On()
    ensures var seen := Observe(h, Redact(c, h, v, depth, path));
            && (seen.Fresh? <==> v.Ref? && depth <= c.maxDepth)
            && (seen.Fresh? ==> |seen.fields| == |Fields(h, v.id)|)
  {
    if v.Ref? && depth <= c.maxDepth {
      if Fields(h, v.id) == [] {
        assert !NeedsCopy(c, Fields(h, v.id), path);
      } else {
        ChildShown(c, h, v.id, depth, path, 0);
      }
    }
  }

  // ----- secrets -----

  /** The way to a position begins with the first key and goes on below it. */
  lemma KeysStep(seen: Out, at: seq<nat>, path: string)
    requires at != [] && seen.Fresh? && at[0] < |seen.fields|
    ensures var f := seen.fields[at[0]];
            var keys := KeysTo(seen, at);
            && keys == [f.key] + KeysTo(f.value, at[1..]) && At(seen, at) == At(f.value, at[1..])
            && Extend(path, keys) == Extend(ChildPath(path, f.key), KeysTo(f.value, at[1..]))
  {
    var f := seen.fields[at[0]];
    assert ([f.key] + KeysTo(f.value, at[1..]))[1..] == KeysTo(f.value, at[1..]);
  }

  lemma {:induction false} HiddenIsCensored(c: Config, h: Heap, v: Value, depth: nat, path: string, at: seq<nat>)
    requires c.On() && at != [] && At(Observe(h, Redact(c, h, v, depth, path)), at).Some?
    ensures var seen := Observe(h, Redact(c, h, v, depth, path));
            var keys := KeysTo(seen, at);
            && |keys| == |at|
            && (Hidden(c, keys[|keys| - 1], Extend(path, keys)) ==> At(seen, at) == Some(Leaf(Str(c.censor))))
    decreases |at|
  {
    var seen := Observe(h, Redact(c, h, v, depth, path));
    ObjectShape(c, h, v, depth, path);
    ChildShown(c, h, v.id, depth, path, at[0]);
    KeysStep(seen, at, path);
    if |at| > 1 {
      assert seen.fields[at[0]].value.Fresh?;
      var f := Fields(h, v.id)[at[0]];
      HiddenIsCensored(c, h, f.value, depth + 1, ChildPath(path, f.key), at[1..]);
    }
  }

  /** Whatever the value, wherever a secret key or a masked path leads in the visible output, the censor stands. */
  lemma SecretsAreCensored(c: Config, paths: seq<string>, h: Heap, v: Value, at: seq<nat>)
    requires c.On() && c.compiled == CompilePaths(paths) && at != []
    requires At(Observe(h, Redact(c, h, v, 0, "")), at).Some?
    ensures var seen := Observe(h, Redact(c, h, v, 0, ""));
            var keys := KeysTo(seen, at);
            |keys| == |at| && (Concealed(c, paths, keys) ==> At(seen, at) == Some(Leaf(Str(c.censor))))
  {
    HiddenIsCensored(c, h, v, 0, "", at);
    ConcealedIsHidden(c, paths, KeysTo(Observe(h, Redact(c, h, v, 0, "")), at));
  }

  /** The same of all positions of a visible result. */
  ghost predicate AllCensored(c: Config, paths: seq<string>, seen: Out) {
    forall at :: at != [] && At(seen, at).Some? ==>
      var keys := KeysTo(seen, at);
      |keys| == |at| && (Concealed(c, paths, keys) ==> At(seen, at) == Some(Leaf(Str(c.censor))))
  }

  // ----- free text -----

  /** What the masks look for in text. */
  datatype Traces = Traces(
    email: string -> bool, card: string -> bool, bearer: string -> bool, keyValue: string -> bool)

  ghost predicate Clears(mask: string -> string, trace: string -> bool) {
    forall s :: !trace(mask(s))
  }

  ghost predicate Keeps(mask: string -> string, trace: string -> bool) {
    forall s :: !trace(s) ==> !trace(mask(s))
  }

  /** Each mask removes its trace, the masks applied after it bring none back, and the quick test misses no secret. */
  ghost predicate MasksWork(p: Patterns, t: Traces) {
    && Clears(p.maskBearer, t.bearer) && Clears(p.maskKeyValue, t.keyValue)
    && Clears(p.maskEmail, t.email) && Clears(p.maskCard, t.card)
    && Keeps(p.maskKeyValue, t.bearer) && Keeps(p.maskEmail, t.bearer) && Keeps(p.maskCard, t.bearer)
    && Keeps(p.maskEmail, t.keyValue) && Keeps(p.maskCard, t.keyValue) && Keeps(p.maskCard, t.email)
    && forall s :: t.bearer(s) || t.keyValue(s) ==> p.message(s)
  }

  /** No trace that an enabled mode is to remove. */
  predicate Free(c: Config, t: Traces, s: string) {
    && (c.secretKey.Some? ==> !t.bearer(s) && !t.keyValue(s))
    && (c.pii.Some? && c.pii.value.email ==> !t.email(s))
    && (c.pii.Some? && c.pii.value.card ==> !t.card(s))
  }

  /** Every enabled mask leaves the text as it is. */
  predicate Harmless(c: Config, s: string) {
    && (c.secretKey.Some? && c.patterns.message(s) ==> c.patterns.maskBearer(s) == s && c.patterns.maskKeyValue(s) == s)
    && (c.pii.Some? && c.pii.value.email ==> c.patterns.maskEmail(s) == s)
    && (c.pii.Some? && c.pii.value.card ==> c.patterns.maskCard(s) == s)
  }

  lemma MaskedTextIsFree(c: Config, t: Traces, s: string)
    requires MasksWork(c.patterns, t)
    ensures Free(c, t, RedactString(c, s))
    ensures Harmless(c, s) ==> RedactString(c, s) == s
  {
    var p := c.patterns;
    if c.secretKey.Some? && p.message(s) {
      var b := p.maskBearer(s);
      assert !t.bearer(b) && !t.bearer(p.maskKeyValue(b)) && !t.keyValue(p.maskKeyValue(b));
    }
  }

  function ArrayText(items: seq<Value>): string { "[" + Decimal(|items|) + " items]" }

  /** Where visible text comes from: it is the censor, the length of an array, or text without the traces. */
  ghost predicate Traceless(c: Config, t: Traces, source: Option<Value>, shown: string) {
    || shown == c.censor
    || (source.Some? && source.value.Arr? && shown == ArrayText(source.value.items))
    || (source.Some? && source.value.Str? && Free(c, t, shown))
  }

  lemma {:induction false} TextIsTraceless(
    c: Config, t: Traces, h: Heap, v: Value, depth: nat, path: string, at: seq<nat>, shown: string)
    requires c.On() && MasksWork(c.patterns, t)
    requires At(Observe(h, Redact(c, h, v, depth, path)), at) == Some(Leaf(Str(shown)))
    ensures Traceless(c, t, ValueAt(h, v, at), shown)
    decreases |at|
  {
    if at == [] {
      if depth <= c.maxDepth && v.Str? { MaskedTextIsFree(c, t, v.s); }
      ObjectShape(c, h, v, depth, path);
    } else {
      ObjectShape(c, h, v, depth, path);
      ChildShown(c, h, v.id, depth, path, at[0]);
      var f := Fields(h, v.id)[at[0]];
      var below := ChildPath(path, f.key);
      if !Hidden(c, f.key, below) && depth < c.maxDepth {
        TextIsTraceless(c, t, h, f.value, depth + 1, below, at[1..], shown);
      }
    }
  }

  /** With masks that work, no text that an enabled mode is to remove is visible anywhere, whatever the value. */
  lemma NothingLeaks(c: Config, t: Traces, h: Heap, v: Value, at: seq<nat>, shown: string)
    requires c.On() && MasksWork(c.patterns, t)
    requires At(Observe(h, Redact(c, h, v, 0, "")), at) == Some(Leaf(Str(shown)))
    ensures Traceless(c, t, ValueAt(h, v, at), shown)
  {
    TextIsTraceless(c, t, h, v, 0, "", at, shown);
  }

  /** The same of all visible text. */
  ghost predicate LeakFree(c: Config, t: Traces, h: Heap, v: Value, seen: Out) {
    forall at, shown :: At(seen, at) == Some(Leaf(Str(shown))) ==> Traceless(c, t, ValueAt(h, v, at), shown)
  }

  // ----- what is shown -----

  /** The keys to a position of the value itself. */
  function SourceKeys(h: Heap, v: Value, at: seq<nat>): seq<string>
    decreases |at|
  {
    if at == [] || !(v.Ref? && at[0] < |Fields(h, v.id)|) then []
    else [Fields(h, v.id)[at[0]].key] + SourceKeys(h, Fields(h, v.id)[at[0]].value, at[1..])
  }

  /** No key on the way is hidden. */
  ghost predicate OpenTo(c: Config, h: Heap, v: Value, path: string, at: seq<nat>)
    decreases |at|
  {
    at != [] && v.Ref? && at[0] < |Fields(h, v.id)| ==>
      var f := Fields(h, v.id)[at[0]];
      var below := ChildPath(path, f.key);
      !Hidden(c, f.key, below) && OpenTo(c, h, f.value, below, at[1..])
  }

  /** How a value above the depth bound looks when nothing on the way to it is hidden. */
  ghost predicate LooksLike(c: Config, h: Heap, source: Value, shown: Out) {
    match source
    case Scalar(_) => shown == Leaf(source)
    case Serialized(_) => shown == Leaf(source)
    case Err(id) => shown == Leaf(Serialized(id))
    case Arr(items) => shown == Leaf(Str(ArrayText(items)))
    case Str(s) => shown.Leaf? && shown.value.Str? && (Harmless(c, s) ==> shown.value.s == s)
    case Ref(id) =>
      shown.Fresh? && |shown.fields| == |Fields(h, id)|
      && forall i :: 0 <= i < |shown.fields| ==> shown.fields[i].key == Fields(h, id)[i].key
  }

  lemma TopLooksLike(c: Config, h: Heap, v: Value, depth: nat, path: string)
    requires c.On() && depth <= c.maxDepth
    ensures LooksLike(c, h, v, Observe(h, Redact(c, h, v, depth, path)))
  {
    ObjectShape(c, h, v, depth, path);
    if v.Ref? {
      forall i | 0 <= i < |Fields(h, v.id)|
        ensures Observe(h, Redact(c, h, v, depth, path)).fields[i].key == Fields(h, v.id)[i].key
      {
        ChildShown(c, h, v.id, depth, path, i);
      }
    } else if v.Str? {
      StringShown(c, v.s);
    }
  }

  lemma StringShown(c: Config, s: string)
    ensures Harmless(c, s) ==> RedactString(c, s) == s
  {
  }

  lemma {:induction false} OpenLooksLike(c: Config, h: Heap, v: Value, depth: nat, path: string, at: seq<nat>)
    requires c.On() && ValueAt(h, v, at).Some? && depth + |at| <= c.maxDepth && OpenTo(c, h, v, path, at)
    ensures var seen := Observe(h, Redact(c, h, v, depth, path));
            && KeysTo(seen, at) == SourceKeys(h, v, at)
            && At(seen, at).Some? && LooksLike(c, h, ValueAt(h, v, at).value, At(seen, at).value)
    decreases |at|
  {
    if at == [] {
      TopLooksLike(c, h, v, depth, path);
    } else {
      ChildShown(c, h, v.id, depth, path, at[0]);
      var f := Fields(h, v.id)[at[0]];
      OpenLooksLike(c, h, f.value, depth + 1, ChildPath(path, f.key), at[1..]);
    }
  }

  lemma {:induction false} UnconcealedIsOpen(c: Config, h: Heap, v: Value, path: string, at: seq<nat>)
    requires ValueAt(h, v, at).Some?
    requires var keys := SourceKeys(h, v, at);
             |keys| == |at| && forall k :: 0 < k <= |keys| ==> !Hidden(c, keys[k - 1], Extend(path, keys[..k]))
    ensures OpenTo(c, h, v, path, at)
    decreases |at|
  {
    if at != [] {
      var f := Fields(h, v.id)[at[0]];
      var below, keys := ChildPath(path, f.key), SourceKeys(h, v, at);
      var rest := SourceKeys(h, f.value, at[1..]);
      assert keys == [f.key] + rest && keys[1..] == rest;
      assert keys[..1] == [f.key] && Extend(path, keys[..1]) == Extend(below, keys[..1][1..]) == below;
      forall k | 0 < k <= |rest| ensures !Hidden(c, rest[k - 1], Extend(below, rest[..k])) {
        assert keys[..k + 1][1..] == rest[..k] && !Hidden(c, keys[k], Extend(path, keys[..k + 1]));
      }
      UnconcealedIsOpen(c, h, f.value, below, at[1..]);
    }
  }

  lemma {:induction false} SourceKeysLength(h: Heap, v: Value, at: seq<nat>)
    requires ValueAt(h, v, at).Some?
    ensures |SourceKeys(h, v, at)| == |at|
    decreases |at|
  {
    if at != [] { SourceKeysLength(h, Fields(h, v.id)[at[0]].value, at[1..]); }
  }

  /**
   * Nothing more than that is changed: down to the depth bound, where no key or path on the way is concealed, the
   * output has the value's shape and keys, its scalars, and its text wherever the enabled masks leave that alone.
   */
  lemma TheRestIsShown(c: Config, paths: seq<string>, h: Heap, v: Value, at: seq<nat>)
    requires c.On() && c.compiled == CompilePaths(paths) && ValueAt(h, v, at).Some? && |at| <= c.maxDepth
    requires forall k :: 0 < k <= |SourceKeys(h, v, at)| ==> !Concealed(c, paths, SourceKeys(h, v, at)[..k])
    ensures var seen := Observe(h, Redact(c, h, v, 0, ""));
            && KeysTo(seen, at) == SourceKeys(h, v, at)
            && At(seen, at).Some? && LooksLike(c, h, ValueAt(h, v, at).value, At(seen, at).value)
  {
    var keys := SourceKeys(h, v, at);
    SourceKeysLength(h, v, at);
    forall k | 0 < k <= |keys| ensures !Hidden(c, keys[k - 1], Extend("", keys[..k])) {
      ConcealedIsHidden(c, paths, keys[..k]);
    }
    UnconcealedIsOpen(c, h, v, "", at);
    OpenLooksLike(c, h, v, 0, "", at);
  }

  /**
   * An object is handed back as it is exactly if copying could change nothing above the depth bound: none of its
   * keys and paths is hidden, its values are scalars and text, and no mode would look at the text.
   */
  lemma ReturnedAsItIsIff(c: Config, h: Heap, id: int, depth: nat, path: string)
    requires c.On() && depth <= c.maxDepth
    ensures Redact(c, h, Ref(id), depth, path) == Leaf(Ref(id)) <==>
            forall i :: 0 <= i < |Fields(h, id)| ==>
              var f := Fields(h, id)[i];
              && !Hidden(c, f.key, ChildPath(path, f.key))
              && (f.value.Scalar? || f.value.Str?)
              && (f.value.Str? ==> c.pii.None? && !(c.secretKey.Some? && c.patterns.message(f.value.s)))
  {
    var fields := Fields(h, id);
    if NeedsCopy(c, fields, path) {
      var i :| 0 <= i < |fields| && NeedsScan(c, fields[i], ChildPath(path, fields[i].key));
    } else {
      forall i | 0 <= i < |fields| ensures !NeedsScan(c, fields[i], ChildPath(path, fields[i].key)) {
      }
    }
  }

  /** With every mode off nothing is touched: text and objects are handed back as they are. */
  lemma OffChangesNothing(c: Config, h: Heap, v: Value, depth: nat, path: string)
    requires !c.On() && depth <= c.maxDepth && (v.Str? || v.Ref? || v.Scalar?)
    ensures Redact(c, h, v, depth, path) == Leaf(v)
  {
  }

  lemma OutputIsCensored(c: Config, paths: seq<string>, h: Heap, v: Value)
    requires c.On()
    ensures c.compiled == CompilePaths(paths) ==> AllCensored(c, paths, Observe(h, Redact(c, h, v, 0, "")))
  {
    if c.compiled == CompilePaths(paths) {
      forall at | at != [] && At(Observe(h, Redact(c, h, v, 0, "")), at).Some?
        ensures var seen := Observe(h, Redact(c, h, v, 0, ""));
                var keys := KeysTo(seen, at);
                |keys| == |at| && (Concealed(c, paths, keys) ==> At(seen, at) == Some(Leaf(Str(c.censor))))
      {
        SecretsAreCensored(c, paths, h, v, at);
      }
    }
  }

  lemma OutputIsLeakFree(c: Config, t: Traces, h: Heap, v: Value)
    requires c.On()
    ensures MasksWork(c.patterns, t) ==> LeakFree(c, t, h, v, Observe(h, Redact(c, h, v, 0, "")))
  {
    if MasksWork(c.patterns, t) {
      forall at, shown | At(Observe(h, Redact(c, h, v, 0, "")), at) == Some(Leaf(Str(shown)))
        ensures Traceless(c, t, ValueAt(h, v, at), shown)
      {
        NothingLeaks(c, t, h, v, at, shown);
      }
    }
  }
}
