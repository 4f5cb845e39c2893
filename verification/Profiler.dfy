/** Bounded operation labels of src/metrics/profiler.metric.ts. */
module Profiler {
  import opened Sequences
  import opened OrderedMap
  import L = Lru
  import H = HistogramMetric

  const OVERFLOW_LABEL := "_other"

  function LabelFor(cache: Map<string, string>, maxOperations: int, name: string): string {
    if name in cache.vals then cache.vals[name]
    else if |cache.keys| >= maxOperations then OVERFLOW_LABEL
    else name
  }

  function AfterRecord(cache: Map<string, string>, maxOperations: int, name: string): Map<string, string> {
    if name in cache.vals then L.AfterGet(cache, name)
    else L.AfterSet(cache, maxOperations, name, LabelFor(cache, maxOperations, name))
  }

  /** A measured operation. */
  datatype Sample = Sample(name: string, durationMs: real)

  /** The label cache and what the histogram has observed under each label. */
  datatype State = State(cache: Map<string, string>, observations: map<string, seq<real>>)

  function Added(observations: map<string, seq<real>>, text: string, value: real): map<string, seq<real>> {
    observations[text := (if text in observations then observations[text] else []) + [value]]
  }

  function Step(s: State, maxOperations: int, e: Sample): State {
    State(AfterRecord(s.cache, maxOperations, e.name),
          Added(s.observations, LabelFor(s.cache, maxOperations, e.name), e.durationMs))
  }

  function Run(s: State, maxOperations: int, samples: seq<Sample>): State
    decreases |samples|
  {
    if samples == [] then s else Run(Step(s, maxOperations, samples[0]), maxOperations, samples[1..])
  }

  function Initial(): State { State(Map([], map[]), map[]) }

  /** The histogram's counts over all labels, added up. */
  ghost function TotalCount(observations: map<string, seq<real>>): nat
    decreases |observations|
  {
    if observations == map[] then 0
    else
      var text :| text in observations;
      |observations[text]| + TotalCount(observations - {text})
  }

  /** The order in which labels are added up does not matter. */
  lemma {:induction false} TotalCountSplit(observations: map<string, seq<real>>, text: string)
    requires text in observations
    ensures TotalCount(observations) == |observations[text]| + TotalCount(observations - {text})
    decreases |observations|
  {
    var first :| first in observations
                 && TotalCount(observations) == |observations[first]| + TotalCount(observations - {first});
    if first != text {
      TotalCountSplit(observations - {first}, text);
      TotalCountSplit(observations - {text}, first);
      assert observations - {first} - {text} == observations - {text} - {first};
    }
  }

  lemma AddedCounts(observations: map<string, seq<real>>, text: string, value: real)
    ensures TotalCount(Added(observations, text, value)) == TotalCount(observations) + 1
  {
    var more := Added(observations, text, value);
    TotalCountSplit(more, text);
    assert more - {text} == observations - {text};
    if text in observations {
      TotalCountSplit(observations, text);
    } else {
      assert observations - {text} == observations;
    }
  }

  /**
   * `tracked` are the names that got a label of their own. Until the cache is full they are
   * its keys; afterwards no name joins them, whatever is evicted.
   */
  ghost predicate Tracks(cache: Map<string, string>, maxOperations: int, tracked: set<string>) {
    && Valid(cache) && |cache.keys| <= maxOperations
    && (forall k :: k in cache.vals ==> cache.vals[k] == OVERFLOW_LABEL || cache.vals[k] in tracked)
    && |tracked| <= maxOperations
    && (|cache.keys| < maxOperations ==> tracked <= cache.vals.Keys && |tracked| <= |cache.keys|)
  }

  lemma RecordTracks(cache: Map<string, string>, maxOperations: int, tracked: set<string>, name: string)
    returns (tracked': set<string>)
    requires maxOperations >= 1 && Tracks(cache, maxOperations, tracked)
    ensures Tracks(AfterRecord(cache, maxOperations, name), maxOperations, tracked') && tracked <= tracked'
    ensures LabelFor(cache, maxOperations, name) in tracked' + {OVERFLOW_LABEL}
  {
    var text := LabelFor(cache, maxOperations, name);
    tracked' := tracked;
    if name in cache.vals {
      TouchShape(cache, name, text);
      TouchValid(cache, name, text);
      assert cache.vals[name := text] == cache.vals;
    } else if |cache.keys| >= maxOperations {
      var oldest := cache.keys[0];
      assert oldest in cache.keys;
      RemoveValid(cache, oldest);
      TouchValid(Remove(cache, oldest), name, text);
      TouchShape(Remove(cache, oldest), name, text);
    } else {
      tracked' := tracked + {name};
      assert name !in tracked;
      TouchValid(cache, name, text);
      TouchShape(cache, name, text);
    }
  }

  /** Every label of the histogram is a tracked name or the overflow label, and every record was counted once. */
  lemma {:induction false} RunTracks(s: State, maxOperations: int, tracked: set<string>, samples: seq<Sample>)
    returns (tracked': set<string>)
    requires maxOperations >= 1 && Tracks(s.cache, maxOperations, tracked)
    requires s.observations.Keys <= tracked + {OVERFLOW_LABEL}
    ensures |tracked'| <= maxOperations
    ensures Run(s, maxOperations, samples).observations.Keys <= tracked' + {OVERFLOW_LABEL}
    ensures TotalCount(Run(s, maxOperations, samples).observations) == TotalCount(s.observations) + |samples|
    decreases |samples|
  {
    if samples == [] {
      tracked' := tracked;
    } else {
      var e := samples[0];
      var mid := RecordTracks(s.cache, maxOperations, tracked, e.name);
      AddedCounts(s.observations, LabelFor(s.cache, maxOperations, e.name), e.durationMs);
      tracked' := RunTracks(Step(s, maxOperations, e), maxOperations, mid, samples[1..]);
    }
  }

  lemma SubsetSize(a: set<string>, b: set<string>)
    requires a <= b
    ensures |a| <= |b|
  {
    assert b == a + (b - a);
  }

  /**
   * However many names are recorded, the histogram never has more than `maxOperations + 1`
   * labels, and their counts sum to the number of records.
   */
  lemma LabelsAreBounded(maxOperations: int, samples: seq<Sample>)
    requires maxOperations >= 1
    ensures var observations := Run(Initial(), maxOperations, samples).observations;
            |observations.Keys| <= maxOperations + 1 && TotalCount(observations) == |samples|
  {
    var tracked := RunTracks(Initial(), maxOperations, {}, samples);
    SubsetSize(Run(Initial(), maxOperations, samples).observations.Keys, tracked + {OVERFLOW_LABEL});
  }

  // ----- while there is room -----

  function Names(samples: seq<Sample>): set<string> {
    if samples == [] then {} else Names(samples[..|samples| - 1]) + {samples[|samples| - 1].name}
  }

  /** The durations recorded under a name, in order. */
  function Durations(samples: seq<Sample>, name: string): seq<real> {
    if samples == [] then []
    else Durations(samples[..|samples| - 1], name)
         + if samples[|samples| - 1].name == name then [samples[|samples| - 1].durationMs] else []
  }

  /** Every name seen has its own label and its own durations. */
  ghost predicate OwnLabels(s: State, seen: seq<Sample>) {
    && Valid(s.cache) && s.cache.vals.Keys == Names(seen)
    && (forall name :: name in s.cache.vals ==> s.cache.vals[name] == name)
    && OwnDurations(s.observations, seen)
  }

  lemma {:induction false} DistinctSize(s: seq<string>, members: set<string>)
    requires Distinct(s) && forall x :: x in s <==> x in members
    ensures |s| == |members|
    decreases |s|
  {
    if s != [] {
      assert forall x :: x in s <==> x == s[0] || x in s[1..];
      DistinctSize(s[1..], members - {s[0]});
    } else {
      assert members == {};
    }
  }

  lemma RoomForAnother(cache: Map<string, string>, seen: set<string>, maxOperations: int, name: string)
    requires Valid(cache) && cache.vals.Keys == seen && name !in seen && |seen + {name}| <= maxOperations
    ensures |cache.keys| < maxOperations
  {
    DistinctSize(cache.keys, seen);
  }

  lemma SeenAppend(seen: seq<Sample>, e: Sample, name: string)
    ensures Names(seen + [e]) == Names(seen) + {e.name}
    ensures Durations(seen + [e], name) == Durations(seen, name) + if e.name == name then [e.durationMs] else []
  {
    assert (seen + [e])[..|seen|] == seen;
  }

  lemma {:induction false} UnseenHasNone(seen: seq<Sample>, name: string)
    requires name !in Names(seen)
    ensures Durations(seen, name) == []
    decreases |seen|
  {
    if seen != [] { UnseenHasNone(seen[..|seen| - 1], name); }
  }

  /** Each name holds its own durations. */
  ghost predicate OwnDurations(observations: map<string, seq<real>>, seen: seq<Sample>) {
    && observations.Keys == Names(seen)
    && forall name :: name in observations ==> observations[name] == Durations(seen, name)
  }

  lemma AddedKeepsOwn(observations: map<string, seq<real>>, seen: seq<Sample>, e: Sample)
    requires OwnDurations(observations, seen)
    ensures OwnDurations(Added(observations, e.name, e.durationMs), seen + [e])
  {
    var after := Added(observations, e.name, e.durationMs);
    SeenAppend(seen, e, e.name);
    if e.name !in observations { UnseenHasNone(seen, e.name); }
    forall name | name in after ensures after[name] == Durations(seen + [e], name) {
      SeenAppend(seen, e, name);
    }
  }

  lemma CacheKeepsOwn(cache: Map<string, string>, maxOperations: int, seen: seq<Sample>, e: Sample)
    requires Valid(cache) && cache.vals.Keys == Names(seen) && |Names(seen + [e])| <= maxOperations
    requires forall name :: name in cache.vals ==> cache.vals[name] == name
    ensures var cache' := AfterRecord(cache, maxOperations, e.name);
            && Valid(cache') && cache'.vals.Keys == Names(seen + [e])
            && (forall name :: name in cache'.vals ==> cache'.vals[name] == name)
            && LabelFor(cache, maxOperations, e.name) == e.name
  {
    SeenAppend(seen, e, e.name);
    RecordTouches(cache, maxOperations, seen, e);
    OwnLabelTouched(cache, e.name);
  }

  lemma OwnLabelTouched(cache: Map<string, string>, name: string)
    requires Valid(cache) && forall k :: k in cache.vals ==> cache.vals[k] == k
    ensures var cache' := Touch(cache, name, name);
            && Valid(cache') && cache'.vals.Keys == cache.vals.Keys + {name}
            && (forall k :: k in cache'.vals ==> cache'.vals[k] == k)
  {
    TouchShape(cache, name, name);
    TouchValid(cache, name, name);
  }

  lemma RecordTouches(cache: Map<string, string>, maxOperations: int, seen: seq<Sample>, e: Sample)
    requires Valid(cache) && cache.vals.Keys == Names(seen) && |Names(seen + [e])| <= maxOperations
    requires e.name in cache.vals ==> cache.vals[e.name] == e.name
    ensures AfterRecord(cache, maxOperations, e.name) == Touch(cache, e.name, e.name)
    ensures LabelFor(cache, maxOperations, e.name) == e.name
  {
    SeenAppend(seen, e, e.name);
    if e.name !in cache.vals { RoomForAnother(cache, Names(seen), maxOperations, e.name); }
  }

  lemma RecordKeepsOwn(s: State, maxOperations: int, seen: seq<Sample>, e: Sample)
    requires OwnLabels(s, seen) && |Names(seen + [e])| <= maxOperations
    ensures OwnLabels(Step(s, maxOperations, e), seen + [e])
  {
    CacheKeepsOwn(s.cache, maxOperations, seen, e);
    AddedKeepsOwn(s.observations, seen, e);
  }

  lemma {:induction false} NamesGrow(a: seq<Sample>, b: seq<Sample>)
    ensures Names(a) <= Names(a + b)
    decreases |b|
  {
    if b == [] {
      assert a + b == a;
    } else {
      assert (a + b)[..|a + b| - 1] == a + b[..|b| - 1];
      NamesGrow(a, b[..|b| - 1]);
    }
  }

  lemma {:induction false} RunKeepsOwn(s: State, maxOperations: int, seen: seq<Sample>, samples: seq<Sample>)
    requires OwnLabels(s, seen) && |Names(seen + samples)| <= maxOperations
    ensures OwnLabels(Run(s, maxOperations, samples), seen + samples)
    decreases |samples|
  {
    if samples == [] {
      assert seen + samples == seen;
    } else {
      var e, rest := samples[0], samples[1..];
      MoveHead(seen, samples);
      FewerNames(seen + [e], rest);
      RecordKeepsOwn(s, maxOperations, seen, e);
      RunKeepsOwn(Step(s, maxOperations, e), maxOperations, seen + [e], rest);
    }
  }

  lemma MoveHead(seen: seq<Sample>, samples: seq<Sample>)
    requires samples != []
    ensures seen + samples == seen + [samples[0]] + samples[1..]
  {
  }

  lemma FewerNames(a: seq<Sample>, b: seq<Sample>)
    ensures |Names(a)| <= |Names(a + b)|
  {
    NamesGrow(a, b);
    SubsetSize(Names(a), Names(a + b));
  }

  /**
   * As long as there are no more names than labels, every name is its own label and holds exactly the durations
   * recorded under it.
   */
  lemma OwnLabelWhileRoom(maxOperations: int, samples: seq<Sample>)
    requires |Names(samples)| <= maxOperations
    ensures var observations := Run(Initial(), maxOperations, samples).observations;
            && observations.Keys == Names(samples)
            && forall name :: name in observations ==> observations[name] == Durations(samples, name)
  {
    EmptyConcat(samples);
    RunKeepsOwn(Initial(), maxOperations, [], samples);
  }

  /** A record makes its name the most recent one of the table. */
  lemma RecordIsRecent(cache: Map<string, string>, maxOperations: int, name: string)
    requires Valid(cache) && maxOperations >= 1
    ensures var keys := AfterRecord(cache, maxOperations, name).keys; keys != [] && keys[|keys| - 1] == name
    ensures name in cache.vals ==> AfterRecord(cache, maxOperations, name).keys == Without(cache.keys, name) + [name]
  {
    var text := LabelFor(cache, maxOperations, name);
    TouchShape(cache, name, text);
    if |cache.keys| > 0 { TouchShape(Remove(cache, cache.keys[0]), name, text); }
  }

  /** Once the table is full a name without a place in it is recorded under the overflow label. */
  lemma FullGoesToOther(s: State, maxOperations: int, e: Sample)
    requires |s.cache.keys| >= maxOperations && e.name !in s.cache.vals
    ensures var before, after := s.observations, Step(s, maxOperations, e).observations;
            after == before["_other" := (if "_other" in before then before["_other"] else []) + [e.durationMs]]
  {
  }

  class OperationProfiler {
    const cache: L.LruCache<string, string>
    const histogram: H.Histogram
    const maxOperations: int

    ghost predicate Valid()
      reads this, cache, histogram
    {
      cache.Valid() && histogram.Valid() && cache.maxSize == maxOperations && maxOperations >= 1
    }

    ghost function Model(): State
      reads cache, histogram
    {
      State(cache.entries, histogram.observations)
    }

    constructor (maxOperations: int, buckets: seq<real>)
      requires |buckets| > 0
      ensures Valid() && fresh(cache) && fresh(histogram) && this.maxOperations == Max(1, maxOperations)
      ensures Model() == Initial()
    {
      this.maxOperations := Max(1, maxOperations);
      cache := new L.LruCache(Max(1, maxOperations));
      histogram := new H.Histogram(buckets);
    }

    /** Exactly one observation is added, under the bounded label. */
    method Record(name: string, durationMs: real)
      requires Valid()
      modifies cache, histogram
      ensures Valid() && Model() == Step(old(Model()), maxOperations, Sample(name, durationMs))
    {
      var cached := cache.Get(name);
      var operation: string;
      if cached.None? {
        operation := if |cache.entries.keys| >= maxOperations then OVERFLOW_LABEL else name;
        var _ := cache.Set(name, operation);
      } else {
        operation := cached.value;
      }
      histogram.Observe(operation, durationMs);
    }
  }
}
