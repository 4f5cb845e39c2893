/** When two entries fall into one group: the keys of src/writer/repeat.writer.ts and src/writer/adaptive.writer.ts. */
module GroupKeys {
  import opened Sequences
  import opened Entries
  import A = Adaptive
  import R = Repeat

  predicate NulFree(s: string) { '\0' !in s }

  function Nuls(s: string): nat {
    if s == "" then 0 else (if s[0] == '\0' then 1 else 0) + Nuls(s[1..])
  }

  lemma {:induction false} NulsConcat(a: string, b: string)
    ensures Nuls(a + b) == Nuls(a) + Nuls(b)
    decreases |a|
  {
    if a == "" {
      assert a + b == b;
    } else {
      assert (a + b)[1..] == a[1..] + b;
      NulsConcat(a[1..], b);
    }
  }

  lemma {:induction false} NulFreeIff(s: string)
    ensures NulFree(s) <==> Nuls(s) == 0
    decreases |s|
  {
    if s != "" {
      NulFreeIff(s[1..]);
      HeadAndTail(s);
    }
  }

  lemma NulsBetween(a: string, b: string)
    ensures Nuls(a + "\0" + b) == Nuls(a) + 1 + Nuls(b)
  {
    NulsConcat(a + "\0", b);
    NulsConcat(a, "\0");
    assert "\0"[1..] == "";
  }

  lemma NulComesAfter(a: string, x: string)
    requires NulFree(a)
    ensures var s := a + "\0" + x;
            s[|a|] == '\0' && forall i :: 0 <= i < |a| ==> s[i] == a[i] != '\0'
  {
    assert forall i :: 0 <= i < |a| ==> a[i] in a;
  }

  /** What stands before the first NUL, and behind it. */
  lemma SplitAtNul(a: string, x: string, b: string, y: string)
    requires NulFree(a) && NulFree(b) && a + "\0" + x == b + "\0" + y
    ensures a == b && x == y
  {
    var s := a + "\0" + x;
    NulComesAfter(a, x);
    NulComesAfter(b, y);
    assert |a| == |b|;
    assert s[..|a|] == a && s[..|b|] == b && s[|a| + 1..] == x && s[|b| + 1..] == y;
  }

  lemma CutAtNul(s: string) returns (before: string, after: string)
    requires !NulFree(s)
    ensures s == before + "\0" + after
  {
    var i :| 0 <= i < |s| && s[i] == '\0';
    before, after := s[..i], s[i + 1..];
  }

  lemma LevelNames(a: Level, b: Level)
    ensures NulFree(LevelName(a)) && (LevelName(a) == LevelName(b) ==> a == b)
  {
    LevelsAreRanked(a);
    LevelsAreRanked(b);
  }

  // ----- repeat keys -----

  /** The three free texts of an entry, as a repeat key holds them behind the level. */
  function Tail(e: Entry): string { e.author + "\0" + (e.message + "\0" + e.fingerprint) }

  lemma RepeatKeyShape(e: Entry)
    ensures R.RepeatKey(e) == LevelName(e.level) + "\0" + Tail(e)
  {
    var parts := [LevelName(e.level), e.author, e.message, e.fingerprint];
    assert R.Joined(parts, 3) == e.fingerprint;
    assert R.Joined(parts, 2) == e.message + "\0" + e.fingerprint;
    assert R.Joined(parts, 1) == Tail(e);
    assert R.Joined(parts, 0) == LevelName(e.level) + "\0" + Tail(e);
  }

  lemma SameRepeatKey(a: Entry, b: Entry)
    ensures R.RepeatKey(a) == R.RepeatKey(b) <==> a.level == b.level && Tail(a) == Tail(b)
  {
    RepeatKeyShape(a);
    RepeatKeyShape(b);
    LevelNames(a.level, b.level);
    LevelNames(b.level, a.level);
    if R.RepeatKey(a) == R.RepeatKey(b) {
      SplitAtNul(LevelName(a.level), Tail(a), LevelName(b.level), Tail(b));
    }
  }

  predicate Clean(e: Entry) { NulFree(e.author) && NulFree(e.message) && NulFree(e.fingerprint) }

  lemma TailNuls(e: Entry)
    ensures Nuls(Tail(e)) == Nuls(e.author) + Nuls(e.message) + Nuls(e.fingerprint) + 2
    ensures Clean(e) <==> Nuls(Tail(e)) == 2
  {
    NulsBetween(e.message, e.fingerprint);
    NulsBetween(e.author, e.message + "\0" + e.fingerprint);
    NulFreeIff(e.author);
    NulFreeIff(e.message);
    NulFreeIff(e.fingerprint);
  }

  lemma CleanKeyDetermines(a: Entry, b: Entry)
    requires Clean(a) && R.RepeatKey(a) == R.RepeatKey(b)
    ensures a == b
  {
    SameRepeatKey(a, b);
    TailNuls(a);
    TailNuls(b);
    SplitAtNul(a.author, a.message + "\0" + a.fingerprint, b.author, b.message + "\0" + b.fingerprint);
    SplitAtNul(a.message, a.fingerprint, b.message, b.fingerprint);
  }

  /** A NUL in any of the texts lets another entry have the same key. */
  lemma NulCollides(a: Entry) returns (b: Entry)
    requires !Clean(a)
    ensures b != a && R.RepeatKey(a) == R.RepeatKey(b)
  {
    if !NulFree(a.author) {
      var p, q := CutAtNul(a.author);
      b := Entry(p, a.level, q, a.message + "\0" + a.fingerprint);
      Regroup(p, q, a.message + "\0" + a.fingerprint);
    } else if !NulFree(a.message) {
      var p, q := CutAtNul(a.message);
      b := Entry(a.author, a.level, p, q + "\0" + a.fingerprint);
      Regroup(p, q, a.fingerprint);
    } else {
      var p, q := CutAtNul(a.fingerprint);
      b := Entry(a.author + "\0" + a.message, a.level, p, q);
      Regroup(a.author, a.message, p + "\0" + q);
    }
    SameRepeatKey(a, b);
  }

  lemma Regroup(a: string, b: string, c: string)
    ensures a + "\0" + b + "\0" + c == a + "\0" + (b + "\0" + c)
  {
  }

  /** A repeat key stands for one entry exactly if its author, message and fingerprint hold no NUL. */
  lemma KeyDeterminesEntryIff(a: Entry)
    ensures (forall b :: R.RepeatKey(b) == R.RepeatKey(a) ==> b == a) <==> Clean(a)
  {
    if Clean(a) {
      forall b | R.RepeatKey(b) == R.RepeatKey(a) ensures b == a { CleanKeyDetermines(a, b); }
    } else {
      var b := NulCollides(a);
    }
  }

  // ----- no entry is lost -----

  /** What an output stands for beyond what was written before: the entry, or all but the first of a summary. */
  function Share(o: R.Output, e: Entry): int {
    if o.entry != e then 0 else if o.Plain? then 1 else o.count - 1
  }

  function WrittenOf(out: seq<R.Output>, e: Entry): int {
    if out == [] then 0 else WrittenOf(out[..|out| - 1], e) + Share(out[|out| - 1], e)
  }

  /** How often `e` was pushed while the transport was open. */
  function PushedOf(closed: bool, events: seq<R.Event>, e: Entry): int
    decreases |events|
  {
    if events == [] then 0
    else (if events[0] == R.Push(e) && !closed then 1 else 0)
         + PushedOf(closed || events[0].Close?, events[1..], e)
  }

  lemma {:induction false} WrittenByKey(out: seq<R.Output>, e: Entry)
    requires Clean(e)
    ensures R.Written(out, R.RepeatKey(e)) == WrittenOf(out, e)
    decreases |out|
  {
    if out != [] {
      WrittenByKey(out[..|out| - 1], e);
      if R.RepeatKey(out[|out| - 1].entry) == R.RepeatKey(e) { CleanKeyDetermines(e, out[|out| - 1].entry); }
    }
  }

  lemma {:induction false} PushedByKey(closed: bool, events: seq<R.Event>, e: Entry)
    requires Clean(e)
    ensures R.Pushed(closed, events, R.RepeatKey(e)) == PushedOf(closed, events, e)
    decreases |events|
  {
    if events != [] {
      PushedByKey(closed || events[0].Close?, events[1..], e);
      if events[0].Push? && R.RepeatKey(events[0].entry) == R.RepeatKey(e) { CleanKeyDetermines(e, events[0].entry); }
    }
  }

  /**
   * Over any run that ends with flush(), every entry without a NUL is accounted for in its own name: as often as it
   * was pushed, it was written or counted in a summary of that very entry.
   */
  lemma EntryIsNotLost(maxKeys: int, events: seq<R.Event>, e: Entry)
    requires maxKeys >= 1 && Clean(e)
    ensures WrittenOf(R.Run(R.Initial(), maxKeys, events + [R.Flush]).out, e) == PushedOf(false, events, e)
  {
    R.FlushAccountsForEverything(maxKeys, events, R.RepeatKey(e));
    WrittenByKey(R.Run(R.Initial(), maxKeys, events + [R.Flush]).out, e);
    PushedByKey(false, events, e);
  }

  // ----- storm keys -----

  function StormTail(e: Entry): string { e.author + "\0" + e.message }

  predicate SameError(a: Entry, b: Entry) { a.level == b.level && a.author == b.author && a.message == b.message }

  lemma SameStormKey(a: Entry, b: Entry)
    ensures A.StormKey(a) == A.StormKey(b) <==> a.level == b.level && StormTail(a) == StormTail(b)
  {
    StormKeyShape(a);
    StormKeyShape(b);
    LevelNames(a.level, b.level);
    LevelNames(b.level, a.level);
    if A.StormKey(a) == A.StormKey(b) {
      SplitAtNul(LevelName(a.level), StormTail(a), LevelName(b.level), StormTail(b));
    }
  }

  lemma StormKeyShape(e: Entry)
    ensures A.StormKey(e) == LevelName(e.level) + "\0" + StormTail(e)
  {
    var parts := [LevelName(e.level), e.author, e.message];
    assert R.Joined(parts, 2) == e.message;
    assert R.Joined(parts, 1) == StormTail(e);
    assert R.Joined(parts, 0) == LevelName(e.level) + "\0" + StormTail(e);
  }

  lemma CleanErrorsKeepApart(a: Entry, b: Entry)
    requires NulFree(a.author) && NulFree(a.message) && A.StormKey(a) == A.StormKey(b)
    ensures SameError(a, b)
  {
    SameStormKey(a, b);
    NulsBetween(a.author, a.message);
    NulsBetween(b.author, b.message);
    NulFreeIff(a.author);
    NulFreeIff(a.message);
    NulFreeIff(b.author);
    SplitAtNul(a.author, a.message, b.author, b.message);
  }

  /** During a storm an error shares its group only with its like exactly if its author and message hold no NUL. */
  lemma StormKeyDeterminesErrorIff(a: Entry)
    ensures (forall b :: A.StormKey(b) == A.StormKey(a) ==> SameError(a, b)) <==>
            NulFree(a.author) && NulFree(a.message)
  {
    if NulFree(a.author) && NulFree(a.message) {
      forall b | A.StormKey(b) == A.StormKey(a) ensures SameError(a, b) { CleanErrorsKeepApart(a, b); }
    } else if !NulFree(a.author) {
      var p, q := CutAtNul(a.author);
      var b := a.(author := p, message := q + "\0" + a.message);
      ConcatAssociates(p + "\0", q, "\0" + a.message);
      assert StormTail(a) == StormTail(b) && !SameError(a, b);
      SameStormKey(a, b);
    } else {
      var p, q := CutAtNul(a.message);
      var b := a.(author := a.author + "\0" + p, message := q);
      assert StormTail(a) == StormTail(b) && !SameError(a, b);
      SameStormKey(a, b);
    }
  }
}
