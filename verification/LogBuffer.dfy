/** The polled log buffer of src/http/log.server.ts: a ring of numbered entries and client cursors. */
module LogBuffers {
  import opened Sequences
  import opened Entries
  import opened Ring

  datatype Stored = Stored(entry: Entry, id: int)

  datatype Page = Page(entries: seq<Entry>, next: int)

  /** Entries are numbered from 1 in push order. */
  function Numbered(entries: seq<Entry>): seq<Stored> {
    if entries == [] then [] else Numbered(entries[..|entries| - 1]) + [Stored(entries[|entries| - 1], |entries|)]
  }

  /** collect with the predicate `id > after`. */
  function CollectAfter(all: seq<Stored>, after: int): seq<Entry> {
    if all == [] then []
    else CollectAfter(all[..|all| - 1], after) + if all[|all| - 1].id > after then [all[|all| - 1].entry] else []
  }

  /** The cursor collect compares ids with: -1 for 0, which asks for the whole ring. */
  function Cursor(after: int): int {
    if after == 0 then -1 else after
  }

  /** What a request with cursor `after` is answered. */
  function Poll(entries: seq<Entry>, capacity: nat, after: int): Page {
    var all := LastOf(Numbered(entries), capacity);
    Page(CollectAfter(all, Cursor(after)), if all == [] then 0 else all[|all| - 1].id)
  }

  /** One turn of the loop of collect. */
  lemma CollectGrows(all: seq<Stored>, i: nat, after: int)
    requires i < |all|
    ensures CollectAfter(all[..i + 1], after)
            == CollectAfter(all[..i], after) + if all[i].id > after then [all[i].entry] else []
  {
    assert all[..i + 1][..i] == all[..i];
  }

  class LogBuffer {
    const entries: RingBuffer<Stored>
    var nextId: int
    ghost var pushed: seq<Entry>

    ghost predicate Valid()
      reads this, entries, entries.buffer
    {
      entries.Valid() && entries.history == Numbered(pushed) && nextId == |pushed| + 1
    }

    constructor (capacity: int)
      ensures Valid() && fresh(entries) && fresh(entries.buffer) && pushed == [] && entries.capacity == Max(1, capacity)
    {
      entries := new RingBuffer(capacity);
      nextId := 1;
      pushed := [];
    }

    method Push(entry: Entry)
      requires Valid()
      modifies this, entries, entries.buffer
      ensures Valid() && pushed == old(pushed) + [entry]
    {
      assert (pushed + [entry])[..|pushed|] == pushed;
      entries.Push(Stored(entry, nextId));
      nextId := nextId + 1;
      pushed := pushed + [entry];
    }

    /** `every` stands for the predicate that is always true. */
    method Collect(after: int, every: bool) returns (page: Page)
      requires Valid()
      ensures page == Page(CollectAfter(LastOf(Numbered(pushed), entries.capacity), if every then -1 else after),
                           if pushed == [] then 0 else |pushed|)
    {
      var all := entries.ToArray();
      var result: seq<Entry> := [];
      NewestId(pushed, entries.capacity);
      for i := 0 to |all|
        invariant result == CollectAfter(all[..i], if every then -1 else after)
      {
        CollectGrows(all, i, if every then -1 else after);
        if every || all[i].id > after {
          result := result + [all[i].entry];
        }
      }
      assert all[..|all|] == all;
      return Page(result, if |all| == 0 then 0 else all[|all| - 1].id);
    }

    /** The handler: the whole ring for cursor 0, newer entries otherwise. */
    method Answer(after: int) returns (page: Page)
      requires Valid()
      ensures page == Poll(pushed, entries.capacity, after)
    {
      page := Collect(after, after == 0);
      IdsArePositions(pushed);
    }
  }

  // ----- cursors -----

  lemma {:induction false} IdsArePositions(entries: seq<Entry>)
    ensures |Numbered(entries)| == |entries|
    ensures forall i :: 0 <= i < |entries| ==> Numbered(entries)[i] == Stored(entries[i], i + 1)
    decreases |entries|
  {
    if entries != [] { IdsArePositions(entries[..|entries| - 1]); }
  }

  /** The position of the first entry a poll with cursor `after` yields. */
  function FirstNew(n: nat, capacity: nat, after: nat): nat {
    Max(after, if n <= capacity then 0 else n - capacity)
  }

  /** Ids are positive, and the newest one is the number of entries pushed. */
  lemma NewestId(entries: seq<Entry>, capacity: nat)
    requires capacity >= 1
    ensures var all := LastOf(Numbered(entries), capacity);
            && (all == [] <==> entries == []) && (all != [] ==> all[|all| - 1].id == |entries|)
            && forall i :: 0 <= i < |all| ==> all[i].id >= 1
  {
    IdsArePositions(entries);
  }

  /** Where the entries newer than `after` begin among those from `first` up to `end`. */
  function Clamp(after: int, first: nat, end: nat): (from: nat)
    requires first <= end
    ensures first <= from <= end
  {
    if after <= first then first else if after >= end then end else after
  }

  lemma ClampStep(entries: seq<Entry>, first: nat, end: nat, after: int)
    requires first <= end < |entries|
    ensures entries[Clamp(after, first, end + 1)..end + 1] ==
            entries[Clamp(after, first, end)..end] + if end + 1 > after then [entries[end]] else []
  {
    if end + 1 > after { SliceGrows(entries, Clamp(after, first, end), end); }
  }

  lemma {:induction false} CollectConsecutive(all: seq<Stored>, entries: seq<Entry>, first: nat, after: int)
    requires first + |all| <= |entries|
    requires forall i :: 0 <= i < |all| ==> all[i] == Stored(entries[first + i], first + i + 1)
    ensures CollectAfter(all, after) == entries[Clamp(after, first, first + |all|)..first + |all|]
    decreases |all|
  {
    if all != [] {
      var init := all[..|all| - 1];
      forall i | 0 <= i < |init| ensures init[i] == Stored(entries[first + i], first + i + 1) {
        assert init[i] == all[i];
      }
      CollectConsecutive(init, entries, first, after);
      ClampStep(entries, first, first + |all| - 1, after);
    }
  }

  /** The ring holds the last `capacity` entries with their numbers. */
  lemma StoredEntries(entries: seq<Entry>, capacity: nat)
    ensures var first := if |entries| <= capacity then 0 else |entries| - capacity;
            var all := LastOf(Numbered(entries), capacity);
            && |all| == |entries| - first
            && forall i :: 0 <= i < |all| ==> all[i] == Stored(entries[first + i], first + i + 1)
  {
    IdsArePositions(entries);
  }

  lemma PollIsSlice(entries: seq<Entry>, capacity: nat, after: nat)
    requires capacity >= 1 && after <= |entries|
    ensures var first := if |entries| <= capacity then 0 else |entries| - capacity;
            Poll(entries, capacity, after)
            == Page(entries[Clamp(Cursor(after), first, |entries|)..|entries|], |entries|)
  {
    var first := if |entries| <= capacity then 0 else |entries| - capacity;
    StoredEntries(entries, capacity);
    NewestId(entries, capacity);
    CollectConsecutive(LastOf(Numbered(entries), capacity), entries, first, Cursor(after));
  }

  /**
   * A poll with a cursor that an earlier poll returned yields exactly the entries pushed
   * since, except those the ring has lost, in order; and its new cursor says so.
   */
  lemma PollYieldsNewEntries(entries: seq<Entry>, capacity: nat, after: nat)
    requires capacity >= 1 && after <= |entries|
    ensures var page := Poll(entries, capacity, after);
            && page.entries == entries[FirstNew(|entries|, capacity, after)..]
            && |page.entries| == Min(|entries| - after, capacity)
            && page.next == |entries|
  {
    PollIsSlice(entries, capacity, after);
    DropIsSlice(entries, FirstNew(|entries|, capacity, after));
  }

  // ----- a client over a whole run -----

  datatype Event = Pushed(entry: Entry) | Polled

  /** `received` are the positions of the entries the client got. */
  datatype Client = Client(pushed: seq<Entry>, cursor: int, received: seq<int>, got: seq<Entry>)

  function Positions(first: int, end: int): seq<int>
    decreases end - first
  {
    if first >= end then [] else [first] + Positions(first + 1, end)
  }

  function Step(s: Client, capacity: nat, e: Event): Client {
    match e
    case Pushed(entry) => s.(pushed := s.pushed + [entry])
    case Polled =>
      var page := Poll(s.pushed, capacity, s.cursor);
      s.(cursor := page.next, got := s.got + page.entries,
         received := s.received + Positions(|s.pushed| - |page.entries|, |s.pushed|))
  }

  function Run(s: Client, capacity: nat, events: seq<Event>): Client
    decreases |events|
  {
    if events == [] then s else Run(Step(s, capacity, events[0]), capacity, events[1..])
  }

  ghost predicate Increasing(s: seq<int>) {
    forall i, j :: 0 <= i < j < |s| ==> s[i] < s[j]
  }

  /** The client holds the entries at `received`, each once and in push order, all before its cursor. */
  ghost predicate Inv(s: Client) {
    && 0 <= s.cursor <= |s.pushed| && |s.got| == |s.received| && Increasing(s.received)
    && forall i :: 0 <= i < |s.received| ==> 0 <= s.received[i] < s.cursor && s.got[i] == s.pushed[s.received[i]]
  }

  lemma {:induction false} PositionsAt(first: int, end: int)
    requires first <= end
    ensures |Positions(first, end)| == end - first
    ensures forall i :: 0 <= i < end - first ==> Positions(first, end)[i] == first + i
    decreases end - first
  {
    if first < end { PositionsAt(first + 1, end); }
  }

  lemma IncreasingAppend(a: seq<int>, b: seq<int>, cut: int)
    requires Increasing(a) && Increasing(b)
    requires (forall i :: 0 <= i < |a| ==> a[i] < cut) && (forall i :: 0 <= i < |b| ==> cut <= b[i])
    ensures Increasing(a + b)
  {
  }

  lemma PushKeepsInv(s: Client, entry: Entry)
    requires Inv(s)
    ensures Inv(s.(pushed := s.pushed + [entry]))
  {
  }

  /** A page that continues at or behind the cursor. */
  lemma PageKeepsInv(s: Client, from: nat)
    requires Inv(s) && s.cursor <= from <= |s.pushed|
    ensures Inv(Client(s.pushed, |s.pushed|, s.received + Positions(from, |s.pushed|), s.got + s.pushed[from..]))
  {
    var newer := Positions(from, |s.pushed|);
    PositionsAt(from, |s.pushed|);
    IncreasingAppend(s.received, newer, s.cursor);
    forall i | 0 <= i < |s.received + newer|
      ensures 0 <= (s.received + newer)[i] < |s.pushed|
              && (s.got + s.pushed[from..])[i] == s.pushed[(s.received + newer)[i]]
    {
      if i >= |s.received| { assert newer[i - |s.received|] == from + (i - |s.received|); }
    }
  }

  lemma StepKeepsInv(s: Client, capacity: nat, e: Event)
    requires capacity >= 1 && Inv(s)
    ensures Inv(Step(s, capacity, e))
  {
    match e
    case Pushed(entry) => PushKeepsInv(s, entry);
    case Polled =>
      PollYieldsNewEntries(s.pushed, capacity, s.cursor);
      PageKeepsInv(s, FirstNew(|s.pushed|, capacity, s.cursor));
  }

  /** Over any run a polling client receives each entry at most once and in order. */
  lemma {:induction false} ClientSeesEachEntryOnce(s: Client, capacity: nat, events: seq<Event>)
    requires capacity >= 1 && Inv(s)
    ensures Inv(Run(s, capacity, events))
    decreases |events|
  {
    if events != [] {
      StepKeepsInv(s, capacity, events[0]);
      ClientSeesEachEntryOnce(Step(s, capacity, events[0]), capacity, events[1..]);
    }
  }

  /** And misses none as long as at most `capacity` entries arrive between two polls. */
  lemma NothingMissed(s: Client, capacity: nat)
    requires capacity >= 1 && Inv(s) && |s.pushed| - s.cursor <= capacity && s.got == s.pushed[..s.cursor]
    ensures Step(s, capacity, Polled).got == s.pushed && Step(s, capacity, Polled).cursor == |s.pushed|
  {
    PollYieldsNewEntries(s.pushed, capacity, s.cursor);
  }
}
