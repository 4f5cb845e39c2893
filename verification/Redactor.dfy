/** The loops and the shared key memo of src/redact/index.redact.ts, against module Redaction. */
module Redactor {
  import opened Sequences
  import opened Redaction
  import L = RedactionLeaks
  import M = Memo

  method CompileRedactPaths(paths: seq<string>) returns (compiled: Option<Compiled>)
    ensures compiled == CompilePaths(paths)
  {
    if |paths| == 0 { return None; }
    var exact: set<string> := {};
    var prefixes: seq<string> := [];
    for i := 0 to |paths|
      invariant CompileFrom(Compiled({}, []), paths) == CompileFrom(Compiled(exact, prefixes), paths[i..])
    {
      assert paths[i..][0] == paths[i] && paths[i..][1..] == paths[i + 1..];
      var pattern := paths[i];
      if IsWildcard(pattern) {
        var parent := pattern[..|pattern| - 2];
        exact := exact + {parent};
        prefixes := prefixes + [parent + "."];
      } else {
        exact := exact + {pattern};
      }
    }
    return Some(Compiled(exact, prefixes));
  }

  method MatchPath(path: string, compiled: Compiled) returns (matched: bool)
    ensures matched <==> PathMatches(path, compiled)
  {
    if path in compiled.exact { return true; }
    for i := 0 to |compiled.prefixes|
      invariant forall j :: 0 <= j < i ==> !(compiled.prefixes[j] <= path)
    {
      if compiled.prefixes[i] <= path { return true; }
    }
    return false;
  }

  ghost predicate Sound(memo: M.Memoize<string, bool>, c: Config)
    reads memo
  {
    memo.Valid() && memo.Agrees(c.patterns.fragments)
  }

  method MatchKey(memo: M.Memoize<string, bool>, c: Config, key: string) returns (secret: bool)
    requires Sound(memo, c)
    modifies memo
    ensures Sound(memo, c) && secret == MatchesSecretKey(c, key)
  {
    match c.secretKey
    case None => return false;
    case Some(Custom(test)) => return test(key);
    case Some(Default) => secret := memo.Call(key, c.patterns.fragments);
  }

  /** Both hidden-field tests: the compiled paths, then the key. */
  method IsHidden(memo: M.Memoize<string, bool>, c: Config, key: string, path: string) returns (hidden: bool)
    requires Sound(memo, c)
    modifies memo
    ensures Sound(memo, c) && hidden == Hidden(c, key, path)
  {
    hidden := false;
    if c.compiled.Some? {
      hidden := MatchPath(path, c.compiled.value);
    }
    if !hidden {
      hidden := MatchKey(memo, c, key);
    }
  }

  method RedactObject(memo: M.Memoize<string, bool>, c: Config, h: Heap, id: int, depth: nat, path: string)
    returns (result: Out)
    requires Sound(memo, c) && depth <= c.maxDepth
    modifies memo
    ensures Sound(memo, c) && result == Redact(c, h, Ref(id), depth, path)
    decreases c.maxDepth + 1 - depth, 2
  {
    if !c.On() { return Leaf(Ref(id)); }
    var needsCopy := ScanFields(memo, c, Fields(h, id), path);
    if !needsCopy { return Leaf(Ref(id)); }
    var copied := CopyFields(memo, c, h, Fields(h, id), depth, path);
    return Fresh(copied);
  }

  /** The first loop of redactObject: does any field make a copy necessary? */
  method ScanFields(memo: M.Memoize<string, bool>, c: Config, fields: seq<Field>, path: string)
    returns (needsCopy: bool)
    requires Sound(memo, c)
    modifies memo
    ensures Sound(memo, c) && needsCopy == NeedsCopy(c, fields, path)
  {
    for i := 0 to |fields|
      invariant Sound(memo, c)
      invariant forall j :: 0 <= j < i ==> !NeedsScan(c, fields[j], ChildPath(path, fields[j].key))
    {
      var field := fields[i];
      var hidden := IsHidden(memo, c, field.key, ChildPath(path, field.key));
      if hidden || Scanned(c, field.value) {
        assert NeedsScan(c, field, ChildPath(path, field.key));
        return true;
      }
    }
    return false;
  }

  /** `copied` with one more field, with the remaining ones behind it. */
  function Append(copied: seq<OutField>, field: OutField, ghost rest: seq<OutField>): (r: seq<OutField>)
    ensures r + rest == copied + ([field] + rest)
  {
    copied + [field]
  }

  lemma CopyStep(c: Config, h: Heap, fields: seq<Field>, i: nat, depth: nat, path: string)
    requires i < |fields| && depth <= c.maxDepth
    ensures var childPath := ChildPath(path, fields[i].key);
            var child := if Hidden(c, fields[i].key, childPath) then Leaf(Str(c.censor))
                         else Redact(c, h, fields[i].value, depth + 1, childPath);
            RedactFields(c, h, fields[i..], depth, path)
            == [OutField(fields[i].key, child)] + RedactFields(c, h, fields[i + 1..], depth, path)
  {
    assert fields[i..][0] == fields[i] && fields[i..][1..] == fields[i + 1..];
  }

  /** Its second loop: copy every field, censored or redacted. */
  method CopyFields(memo: M.Memoize<string, bool>, c: Config, h: Heap, fields: seq<Field>, depth: nat, path: string)
    returns (copied: seq<OutField>)
    requires Sound(memo, c) && depth <= c.maxDepth
    modifies memo
    ensures Sound(memo, c) && copied == RedactFields(c, h, fields, depth, path)
    decreases c.maxDepth + 1 - depth, 1
  {
    copied := [];
    for i := 0 to |fields|
      invariant Sound(memo, c)
      invariant RedactFields(c, h, fields, depth, path) == copied + RedactFields(c, h, fields[i..], depth, path)
    {
      CopyStep(c, h, fields, i, depth, path);
      var child := RedactChild(memo, c, h, fields[i], depth, path);
      copied := Append(copied, OutField(fields[i].key, child), RedactFields(c, h, fields[i + 1..], depth, path));
    }
  }

  /** resolveRedactChild */
  method RedactChild(memo: M.Memoize<string, bool>, c: Config, h: Heap, field: Field, depth: nat, path: string)
    returns (child: Out)
    requires Sound(memo, c) && depth <= c.maxDepth
    modifies memo
    ensures Sound(memo, c)
    ensures child == if Hidden(c, field.key, ChildPath(path, field.key)) then Leaf(Str(c.censor))
                     else Redact(c, h, field.value, depth + 1, ChildPath(path, field.key))
    decreases c.maxDepth + 1 - depth, 0
  {
    var hidden := IsHidden(memo, c, field.key, ChildPath(path, field.key));
    if hidden { return Leaf(Str(c.censor)); }
    child := RedactInternal(memo, c, h, field.value, depth + 1, ChildPath(path, field.key));
  }

  method RedactInternal(memo: M.Memoize<string, bool>, c: Config, h: Heap, v: Value, depth: nat, path: string)
    returns (result: Out)
    requires Sound(memo, c)
    modifies memo
    ensures Sound(memo, c) && result == Redact(c, h, v, depth, path)
    decreases if depth > c.maxDepth then 0 else c.maxDepth + 1 - depth, 3
  {
    if depth > c.maxDepth { return Leaf(Str(c.censor)); }
    match v
    case Err(id) => return Leaf(Serialized(id));
    case Serialized(_) => return Leaf(v);
    case Str(s) => return Leaf(Str(RedactString(c, s)));
    case Arr(items) => return Leaf(Str(Items(|items|)));
    case Ref(id) => result := RedactObject(memo, c, h, id, depth, path);
    case Scalar(_) => return Leaf(v);
  }

  /** The entry point used by the logger. */
  method RedactCompiled(memo: M.Memoize<string, bool>, c: Config, h: Heap, v: Value,
                        ghost paths: seq<string>, ghost traces: L.Traces)
    returns (result: Out)
    requires Sound(memo, c)
    modifies memo
    ensures Sound(memo, c) && result == Redact(c, h, v, 0, "")
    ensures c.On() ==> Clean(c, Observe(h, result), 0, "")
    ensures c.On() && c.compiled == CompilePaths(paths) ==> L.AllCensored(c, paths, Observe(h, result))
    ensures c.On() && L.MasksWork(c.patterns, traces) ==> L.LeakFree(c, traces, h, v, Observe(h, result))
  {
    result := RedactInternal(memo, c, h, v, 0, "");
    if c.On() {
      OutputIsClean(c, h, v, 0, "");
      L.OutputIsCensored(c, paths, h, v);
      L.OutputIsLeakFree(c, traces, h, v);
    }
  }
}
