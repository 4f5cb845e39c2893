/** The fixed-capacity circular buffer of src/brain/ring.utils.ts. */
module Ring {
  import opened Sequences

  /** The last `n` values of a history. */
  function LastOf<T>(history: seq<T>, n: nat): seq<T> {
    if |history| <= n then history else history[|history| - n..]
  }

  /** Slot `i` positions from 0, wrapping at the capacity. */
  function Slot(i: int, capacity: int): int {
    if i < capacity then i else i - capacity
  }

  lemma MultipleBounds(q: int, d: int)
    requires 0 < d
    ensures q >= 2 ==> q * d >= 2 * d
    ensures q <= -1 ==> q * d <= -d
  {
    if q >= 2 {
      assert q * d == (q - 2) * d + 2 * d && (q - 2) * d >= 0;
    } else if q <= -1 {
      assert q * d == (q + 1) * d - d && (q + 1) * d <= 0;
    }
  }

  lemma WrapsOnce(i: int, capacity: int)
    requires 0 <= i < 2 * capacity
    ensures i % capacity == Slot(i, capacity)
  {
    MultipleBounds(i / capacity, capacity);
    assert i / capacity == 0 || i / capacity == 1;
  }

  /** A slot index taken modulo the capacity wraps at most once. */
  method Wrap(i: int, capacity: int) returns (slot: int)
    requires 0 <= i < 2 * capacity
    ensures slot == Slot(i, capacity)
  {
    WrapsOnce(i, capacity);
    slot := i % capacity;
  }

  /** The slots in reading order, from the head on. */
  function Unrolled<T>(slots: seq<T>, head: int): seq<T>
    requires 0 <= head <= |slots|
  {
    slots[head..] + slots[..head]
  }

  lemma UnrolledAt<T>(slots: seq<T>, head: int, k: int)
    requires 0 <= head <= |slots| && 0 <= k < |slots|
    ensures |Unrolled(slots, head)| == |slots|
    ensures 0 <= Slot(head + k, |slots|) < |slots|
    ensures Unrolled(slots, head)[k] == slots[Slot(head + k, |slots|)]
  {
  }

  /** `count` slots from `head` on hold the last values of `history`, oldest first. */
  ghost predicate Holds<T>(slots: seq<T>, head: int, count: int, history: seq<T>) {
    && 0 <= head < |slots| && 0 <= count <= |slots| && count <= |history|
    && Unrolled(slots, head)[..count] == history[|history| - count..]
  }

  /** The head after a write: it moves only when the run was full. */
  function NextHead(head: int, count: int, capacity: int): int {
    if count < capacity then head else Slot(head + 1, capacity)
  }

  /** A write leaves every other value of the run in its place, one place earlier if the head moved. */
  lemma WriteKeeps<T>(slots: seq<T>, head: int, count: int, value: T, k: int)
    requires 0 <= head < |slots| && 0 <= count <= |slots| && 0 <= k < Min(count + 1, |slots|) - 1
    ensures Unrolled(slots[Slot(head + count, |slots|) := value], NextHead(head, count, |slots|))[k]
            == Unrolled(slots, head)[if count < |slots| then k else k + 1]
  {
    UnrolledAt(slots[Slot(head + count, |slots|) := value], NextHead(head, count, |slots|), k);
    UnrolledAt(slots, head, if count < |slots| then k else k + 1);
  }

  /** A value written behind the last one either lengthens the run or, when it is full, takes the oldest place. */
  lemma WriteHolds<T>(slots: seq<T>, head: int, count: int, history: seq<T>, value: T)
    requires Holds(slots, head, count, history)
    ensures Holds(slots[Slot(head + count, |slots|) := value], NextHead(head, count, |slots|),
                  Min(count + 1, |slots|), history + [value])
  {
    var n := |slots|;
    var written := slots[Slot(head + count, n) := value];
    var head', count' := NextHead(head, count, n), Min(count + 1, n);
    var run' := (history + [value])[|history| + 1 - count'..];
    UnrolledAt(written, head', count' - 1);
    forall k | 0 <= k < count' - 1
      ensures Unrolled(written, head')[k] == run'[k]
    {
      WriteKeeps(slots, head, count, value, k);
      var j := if count < n then k else k + 1;
      assert Unrolled(slots, head)[..count][j] == history[|history| - count..][j];
    }
  }

  class RingBuffer<T(0)> {
    const buffer: array<T>
    const capacity: int
    var head: int
    var count: int
    var pushed: int
    var overwritten: int
    ghost var history: seq<T> // everything pushed since the last clear

    ghost predicate Valid()
      reads this, buffer
    {
      && capacity >= 1 && buffer.Length == capacity && 0 <= head < capacity
      && count == Min(|history|, capacity) && Holds(buffer[..], head, count, history)
    }

    constructor (capacity: int)
      ensures Valid() && fresh(buffer) && history == [] && this.capacity == Max(1, capacity)
    {
      this.capacity := Max(1, capacity);
      buffer := new T[Max(1, capacity)];
      head, count, pushed, overwritten := 0, 0, 0, 0;
      history := [];
    }

    /** The value goes behind the last one. */
    method WriteSlot(value: T)
      requires capacity == buffer.Length && 0 <= head < capacity && 0 <= count <= capacity
      modifies buffer
      ensures buffer[..] == old(buffer[..])[Slot(head + count, capacity) := value]
    {
      var slot := Wrap(head + count, capacity);
      buffer[slot] := value;
    }

    /** The counters after a write: the run grows, or its first value was overwritten. */
    method Advance()
      requires capacity >= 1 && 0 <= head < capacity && 0 <= count <= capacity
      modifies `head, `count, `overwritten
      ensures head == NextHead(old(head), old(count), capacity) && count == Min(old(count) + 1, capacity)
      ensures overwritten == old(overwritten) + if old(count) == capacity then 1 else 0
    {
      if count < capacity {
        count := count + 1;
      } else {
        head := Wrap(head + 1, capacity);
        overwritten := overwritten + 1;
      }
    }

    method Push(value: T)
      requires Valid()
      modifies this, buffer
      ensures Valid() && history == old(history) + [value]
      ensures overwritten == old(overwritten) + if old(count) == capacity then 1 else 0
      ensures pushed == old(pushed) + 1
    {
      WriteHolds(buffer[..], head, count, history, value);
      WriteSlot(value);
      pushed, history := pushed + 1, history + [value];
      Advance();
    }

    /** Whatever the head, the result is the last `capacity` values pushed, oldest first. */
    method ToArray() returns (result: seq<T>)
      requires Valid()
      ensures result == LastOf(history, capacity)
    {
      result := [];
      for offset := 0 to count
        invariant result == Unrolled(buffer[..], head)[..offset]
      {
        var slot := Wrap(head + offset, capacity);
        UnrolledAt(buffer[..], head, offset);
        result := result + [buffer[slot]];
      }
    }

    method Clear()
      requires Valid()
      modifies `head, `count, `history
      ensures Valid() && history == []
    {
      head, count, history := 0, 0, [];
    }
  }
}
