/** The bounded registry of completed spans of src/core/span.core.ts. */
module SpanRegistries {
  import opened Sequences
  import R = Ring
  import S = Spans

  /** One record of the filter: it joins those kept so far if it belongs to the trace. */
  lemma FilterStep(kept: seq<S.Record>, all: seq<S.Record>, i: nat, traceId: string)
    requires i < |all|
    ensures kept + S.ForTrace(all[i..], traceId)
            == (if all[i].traceId == traceId then kept + [all[i]] else kept) + S.ForTrace(all[i + 1..], traceId)
  {
    var later := S.ForTrace(all[i + 1..], traceId);
    DropTwice(all, i, 1);
    if all[i].traceId == traceId {
      ConcatAssociates(kept, [all[i]], later);
    } else {
      EmptyConcat(later);
    }
  }

  class SpanRegistry {
    const buffer: R.RingBuffer<S.Record>

    ghost predicate Valid()
      reads this, buffer, buffer.buffer
    {
      buffer.Valid()
    }

    constructor (capacity: int)
      ensures Valid() && fresh(buffer) && fresh(buffer.buffer)
      ensures buffer.history == [] && buffer.capacity == Max(1, capacity)
    {
      buffer := new R.RingBuffer(capacity);
    }

    method Add(record: S.Record)
      requires Valid()
      modifies buffer, buffer.buffer
      ensures Valid() && buffer.history == old(buffer.history) + [record]
    {
      buffer.Push(record);
    }

    /** The retained records of a trace, oldest first. */
    method ForTrace(traceId: string) returns (records: seq<S.Record>)
      requires Valid()
      ensures records == S.ForTrace(R.LastOf(buffer.history, buffer.capacity), traceId)
    {
      var all := buffer.ToArray();
      records := [];
      for i := 0 to |all|
        invariant records + S.ForTrace(all[i..], traceId) == S.ForTrace(all, traceId)
      {
        FilterStep(records, all, i, traceId);
        if all[i].traceId == traceId {
          records := records + [all[i]];
        }
      }
      EmptyConcat(records);
    }

    /** The forest of the retained records of a trace. */
    method TreeForTrace(traceId: string) returns (forest: S.Forest)
      requires Valid()
      ensures S.Builds(forest, S.ForTrace(R.LastOf(buffer.history, buffer.capacity), traceId))
    {
      var records := ForTrace(traceId);
      forest := S.TreeForTrace(records);
    }
  }
}
