/** The counter metric of src/metrics/counter.metric.ts, keyed by serialized label values. */
module CounterMetric {
  import opened Labels

  datatype Increment = Increment(labels: Values, amount: real)

  function Lookup(values: map<string, real>, key: string): real {
    if key in values then values[key] else 0.0
  }

  function AfterInc(names: seq<string>, values: map<string, real>, inc: Increment): map<string, real> {
    var key := LabelKey(names, inc.labels);
    values[key := Lookup(values, key) + inc.amount]
  }

  function Run(names: seq<string>, values: map<string, real>, incs: seq<Increment>): map<string, real>
    decreases |incs|
  {
    if incs == [] then values else Run(names, AfterInc(names, values, incs[0]), incs[1..])
  }

  /** The amounts recorded with exactly these label values. */
  function Total(names: seq<string>, incs: seq<Increment>, labels: Values): real
    decreases |incs|
  {
    if incs == [] then 0.0
    else (if SameValues(names, incs[0].labels, labels) then incs[0].amount else 0.0) + Total(names, incs[1..], labels)
  }

  lemma {:induction false} RunTotals(
    names: seq<string>, values: map<string, real>, incs: seq<Increment>, labels: Values)
    ensures Lookup(Run(names, values, incs), LabelKey(names, labels))
         == Lookup(values, LabelKey(names, labels)) + Total(names, incs, labels)
    decreases |incs|
  {
    if incs != [] {
      LabelKeyInjective(names, incs[0].labels, labels);
      RunTotals(names, AfterInc(names, values, incs[0]), incs[1..], labels);
    }
  }

  /** After any run, `get` is the sum of the `inc` calls with exactly those label values: no two label sets collide. */
  lemma CounterIsExact(names: seq<string>, incs: seq<Increment>, labels: Values)
    ensures Lookup(Run(names, map[], incs), LabelKey(names, labels)) == Total(names, incs, labels)
  {
    RunTotals(names, map[], incs, labels);
  }

  class Counter {
    const labelNames: seq<string>
    const escapes: EscapeCache
    var values: map<string, real>

    ghost predicate Valid()
      reads this, escapes
    {
      escapes.Valid()
    }

    constructor (labelNames: seq<string>, escapes: EscapeCache)
      requires escapes.Valid()
      ensures Valid() && values == map[] && this.labelNames == labelNames && this.escapes == escapes
    {
      this.labelNames, this.escapes := labelNames, escapes;
      values := map[];
    }

    method KeyOf(labels: Values) returns (key: string)
      requires Valid()
      modifies escapes
      ensures Valid() && key == LabelKey(labelNames, labels)
    {
      key := "";
      for i := |labelNames| downto 0
        invariant Valid() && key == LabelKey(labelNames[i..], labels)
      {
        var name := labelNames[i];
        var escaped := escapes.EscapeValue(ValueOf(labels, name));
        assert labelNames[i..][0] == name && labelNames[i..][1..] == labelNames[i + 1..];
        key := name + "=\"" + escaped + "\"" + (if i + 1 == |labelNames| then "" else "," + key);
      }
      assert labelNames[0..] == labelNames;
    }

    method Inc(labels: Values, amount: real)
      requires Valid()
      modifies `values, escapes
      ensures Valid() && values == AfterInc(labelNames, old(values), Increment(labels, amount))
    {
      var key := KeyOf(labels);
      values := values[key := (if key in values then values[key] else 0.0) + amount];
    }

    method Get(labels: Values) returns (value: real)
      requires Valid()
      modifies escapes
      ensures Valid() && value == Lookup(values, LabelKey(labelNames, labels))
    {
      var key := KeyOf(labels);
      value := if key in values then values[key] else 0.0;
    }
  }
}
