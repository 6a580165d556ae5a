/**
 The event queue and its flusher as the agent runs them: one backing array of
 fixed capacity, eviction by closing the gap, and a drain that compacts the
 array in place. Each method does what the value model says.
 */
module EventQueueImpl {
  import opened Common
  import opened EventQueue
  import EventRuns

  const DEFAULT_CAPACITY: nat := 10_000
  const FLUSH_MAX_EVENTS: nat := 100
  const FLUSH_MAX_BYTES: nat := 256 * 1024

  /** Indices of `items` in the order the items leave; the library sort the drain calls. */
  method SortOrder<R(!new)>(items: seq<Item<R>>) returns (order: seq<nat>)
    requires DistinctNumbers(items)
    ensures |order| == |items|
    ensures forall k :: 0 <= k < |order| ==> order[k] < |items|
    ensures forall i, j :: 0 <= i < j < |order| ==> Before(items[order[i]], items[order[j]])
    ensures forall k :: 0 <= k < |items| ==> k in order
  {
    order := [];
    for i := 0 to |items|
      invariant |order| == i
      invariant forall k :: 0 <= k < |order| ==> order[k] < i
      invariant forall j, k :: 0 <= j < k < |order| ==> Before(items[order[j]], items[order[k]])
      invariant forall k :: 0 <= k < i ==> k in order
    {
      var at := i;
      while at > 0 && Before(items[i], items[order[at - 1]])
        invariant 0 <= at <= i
        invariant forall k :: at <= k < i ==> Before(items[i], items[order[k]])
      {
        at := at - 1;
      }
      forall k | 0 <= k < at
        ensures Before(items[order[k]], items[i])
      {
        assert items[order[at - 1]].seqNo != items[i].seqNo;
      }
      order := InsertAt(order, at, i);
    }
  }

  function InsertAt(s: seq<nat>, at: nat, x: nat): (r: seq<nat>)
    requires at <= |s|
    ensures |r| == |s| + 1 && r[at] == x
    ensures forall k :: 0 <= k < at ==> r[k] == s[k]
    ensures forall k :: at <= k < |s| ==> r[k + 1] == s[k]
    ensures forall k :: at < k < |r| ==> r[k] == s[k - 1]
    ensures forall y :: y in r <==> y == x || y in s
  {
    assert s == s[..at] + s[at..];
    s[..at] + [x] + s[at..]
  }

  /** Every index once: the items picked are all the items. */
  lemma AllArePicked<R(!new)>(items: seq<Item<R>>, order: seq<nat>, s: seq<Item<R>>)
    requires |order| == |items| == |s|
    requires forall k :: 0 <= k < |order| ==> order[k] < |items| && s[k] == items[order[k]]
    requires forall k :: 0 <= k < |items| ==> k in order
    ensures Elements(s) == Elements(items)
  {
    forall x | x in items
      ensures x in s
    {
      var k :| 0 <= k < |items| && items[k] == x;
      IsPicked(items, order, s, k);
    }
  }

  lemma IsPicked<R(!new)>(items: seq<Item<R>>, order: seq<nat>, s: seq<Item<R>>, k: nat)
    requires |order| == |s| && k < |items| && k in order
    requires forall k :: 0 <= k < |order| ==> order[k] < |items| && s[k] == items[order[k]]
    ensures items[k] in s
  {
    var j :| 0 <= j < |order| && order[j] == k;
    assert s[j] == items[k];
  }

  lemma PickedInOrder<R(!new)>(items: seq<Item<R>>, order: seq<nat>, s: seq<Item<R>>)
    requires |order| == |s|
    requires forall k :: 0 <= k < |order| ==> order[k] < |items| && s[k] == items[order[k]]
    requires forall i, j :: 0 <= i < j < |order| ==> Before(items[order[i]], items[order[j]])
    ensures StrictlySorted(s)
  {}

  /** Sorting by index gives the leaving order. */
  lemma SortOrderIsSorted<R(!new)>(items: seq<Item<R>>, order: seq<nat>, s: seq<Item<R>>)
    requires DistinctNumbers(items) && |order| == |items| == |s|
    requires forall k :: 0 <= k < |order| ==> order[k] < |items| && s[k] == items[order[k]]
    requires forall i, j :: 0 <= i < j < |order| ==> Before(items[order[i]], items[order[j]])
    requires forall k :: 0 <= k < |items| ==> k in order
    ensures s == Sorted(items)
  {
    AllArePicked(items, order, s);
    PickedInOrder(items, order, s);
    IsTheSorted(items, s);
  }

  lemma IsTheSorted<R(!new)>(items: seq<Item<R>>, s: seq<Item<R>>)
    requires DistinctNumbers(items) && StrictlySorted(s) && Elements(s) == Elements(items)
    ensures s == Sorted(items)
  {
    SortedSorts(items);
    assert Elements(Sorted(items)) == Elements(items);
    SortedIsUnique(s, Sorted(items));
  }

  lemma {:induction false} WithoutLast<R(!new)>(items: seq<Item<R>>, gone: set<Item<R>>, n: nat)
    requires n < |items|
    ensures Without(items[..n + 1], gone)
         == Without(items[..n], gone) + (if items[n] in gone then [] else [items[n]])
  {
    if n == 0 {
    } else {
      assert items[..n + 1][1..] == items[1..][..n] && items[..n][1..] == items[1..][..n - 1];
      WithoutLast(items[1..], gone, n - 1);
    }
  }

  class BoundedQueue<R(0,!new)> {
    const buf: array<Item<R>>
    var count: nat
    var nextSeq: nat
    var dropped: nat

    ghost predicate Valid()
      reads this, buf
    {
      count <= buf.Length && WellFormed(Model())
    }

    ghost function Model(): (r: Queue<R>)
      reads this, buf
      requires count <= buf.Length
    {
      Queue(buf[..count], buf.Length, nextSeq, dropped)
    }

    constructor (capacity: int)
      ensures Valid() && fresh(buf)
      ensures Model() == Queue([], if capacity <= 0 then 10_000 else capacity, 0, 0)
    {
      buf := new Item<R>[if capacity <= 0 then DEFAULT_CAPACITY else capacity];
      count, nextSeq, dropped := 0, 0, 0;
    }

    /** Removes the item at `k` by moving the later ones down. */
    method CloseGap(k: nat)
      requires k < count <= buf.Length
      modifies this`count, buf
      ensures count == old(count) - 1 <= buf.Length
      ensures buf[..count] == RemoveAt(old(buf[..count]), k)
    {
      ghost var was := buf[..count];
      var last := count - 1;
      for i := k to last
        invariant count == old(count)
        invariant forall j :: 0 <= j < k ==> buf[j] == was[j]
        invariant forall j :: k <= j < i ==> buf[j] == was[j + 1]
        invariant forall j :: i < j < count ==> buf[j] == was[j]
      {
        buf[i] := buf[i + 1];
      }
      count := last;
    }

    /** Scans for the item to evict. */
    method FindVictim() returns (victim: int)
      requires count <= buf.Length
      ensures victim == match Victim(buf[..count]) case None => -1 case Some(k) => k
    {
      victim := -1;
      for i := 0 to count
        invariant victim == match Victim(buf[..i]) case None => -1 case Some(k) => k
      {
        assert buf[..i + 1][..i] == buf[..i];
        if buf[i].priority != CRITICAL {
          if victim == -1 || Worse(buf[i], buf[victim]) {
            victim := i;
          }
        }
      }
    }

    method Push(rec: R, priority: int) returns (accepted: bool)
      requires Valid()
      modifies this, buf
      ensures Valid()
      ensures Model() == EventQueue.Push(old(Model()), rec, priority).queue
      ensures accepted == EventQueue.Push(old(Model()), rec, priority).accepted
    {
      PushKeepsForm(Model(), rec, priority);
      if count >= buf.Length {
        var victim := FindVictim();
        if victim == -1 {
          dropped := dropped + 1;
          return false;
        }
        CloseGap(victim);
      }
      buf[count] := Item(rec, priority, nextSeq);
      count := count + 1;
      nextSeq := nextSeq + 1;
      assert buf[..count] == buf[..count - 1] + [buf[count - 1]];
      return true;
    }

    /** Keeps the items whose index is not in `take`, in place and in order. */
    method Compact(take: set<nat>, ghost gone: set<Item<R>>)
      requires count <= buf.Length
      requires forall i :: 0 <= i < count ==> (i in take <==> buf[i] in gone)
      modifies this`count, buf
      ensures count <= buf.Length
      ensures buf[..count] == Without(old(buf[..count]), gone)
    {
      ghost var was := buf[..count];
      var w := 0;
      for i := 0 to count
        invariant 0 <= w <= i && count == old(count)
        invariant buf[..w] == Without(was[..i], gone)
        invariant forall k :: i <= k < count ==> buf[k] == was[k]
      {
        WithoutLast(was, gone, i);
        if i !in take {
          ghost var kept := buf[..w];
          buf[w] := buf[i];
          w := w + 1;
          assert buf[..w] == kept + [was[i]];
        }
      }
      assert was[..count] == was;
      count := w;
    }

    method Drain(max: int) returns (out: seq<R>)
      requires Valid()
      modifies this, buf
      ensures Valid()
      ensures Model() == EventQueue.Drain(old(Model()), max).queue
      ensures out == Records(EventQueue.Drain(old(Model()), max).taken)
    {
      DrainKeepsForm(Model(), max);
      if max <= 0 || count == 0 {
        DrainNothing(Model(), max);
        return [];
      }
      var order := SortOrder(buf[..count]);
      SortedSorts(buf[..count]);
      out := TakeOut(order, if max > count then count else max);
    }

    /** Hands out the first `n` items of the order and compacts the rest. */
    method TakeOut(order: seq<nat>, n: nat) returns (out: seq<R>)
      requires count <= buf.Length && n <= |order| == count == |Sorted(buf[..count])|
      requires DistinctNumbers(buf[..count])
      requires forall k :: 0 <= k < count ==> order[k] < count
      requires forall i, j :: 0 <= i < j < count ==> Before(buf[order[i]], buf[order[j]])
      requires forall k :: 0 <= k < count ==> k in order
      modifies this`count, buf
      ensures count <= buf.Length
      ensures out == Records(Sorted(old(buf[..count]))[..n])
      ensures buf[..count] == Without(old(buf[..count]), Elements(Sorted(old(buf[..count]))[..n]))
    {
      ghost var was := buf[..count];
      ghost var s := seq(|order|, i requires 0 <= i < |order| => was[order[i]]);
      SortOrderIsSorted(was, order, s);
      var take;
      out, take := Collect(order, n);
      TakenByIndex(was, order, s, n);
      Compact(take, Elements(s[..n]));
    }

    /** The records at the first `n` positions of the order, and their indices. */
    method Collect(order: seq<nat>, n: nat) returns (out: seq<R>, take: set<nat>)
      requires n <= |order| && count <= buf.Length
      requires forall k :: 0 <= k < |order| ==> order[k] < count
      ensures |out| == n && forall k :: 0 <= k < n ==> out[k] == buf[order[k]].rec
      ensures take == set k | k in order[..n]
    {
      take := {};
      out := [];
      for i := 0 to n
        invariant |out| == i && forall k :: 0 <= k < i ==> out[k] == buf[order[k]].rec
        invariant take == set k | k in order[..i]
      {
        out := out + [buf[order[i]].rec];
        take := take + {order[i]};
        assert order[..i + 1] == order[..i] + [order[i]];
      }
    }
  }

  lemma {:induction false} WithoutNothing<R(!new)>(items: seq<Item<R>>)
    ensures Without(items, {}) == items
  {
    if items == [] {
    } else {
      WithoutNothing(items[1..]);
    }
  }

  lemma DrainNothing<R(!new)>(q: Queue<R>, max: int)
    requires WellFormed(q) && (max <= 0 || q.items == [])
    ensures Drain(q, max) == Drained(q, [])
  {
    SortedSorts(q.items);
    WithoutNothing(q.items);
    assert Elements<R>([]) == {};
  }

  /** An index was taken exactly when its item was. */
  lemma TakenByIndex<R(!new)>(items: seq<Item<R>>, order: seq<nat>, s: seq<Item<R>>, n: nat)
    requires DistinctNumbers(items) && |order| == |s| && n <= |s|
    requires forall k :: 0 <= k < |order| ==> order[k] < |items| && s[k] == items[order[k]]
    ensures forall i :: 0 <= i < |items| ==> (i in order[..n] <==> items[i] in Elements(s[..n]))
  {
    forall i | 0 <= i < |items|
      ensures i in order[..n] <==> items[i] in Elements(s[..n])
    {
      if items[i] in s[..n] {
        var k :| 0 <= k < n && s[k] == items[i];
        assert items[order[k]].seqNo == items[i].seqNo;
        assert order[..n][k] == i;
      }
      if i in order[..n] {
        var k :| 0 <= k < n && order[k] == i;
        assert s[..n][k] == items[i];
      }
    }
  }

  class Flusher<R(0,!new)> {
    const queue: BoundedQueue<R>
    const maxEvents: nat
    const maxBytes: nat

    constructor (queue: BoundedQueue<R>, maxEvents: int, maxBytes: int)
      ensures this.queue == queue
      ensures this.maxEvents == if maxEvents <= 0 then 100 else maxEvents
      ensures this.maxBytes == if maxBytes <= 0 then 262_144 else maxBytes
    {
      this.queue := queue;
      this.maxEvents := if maxEvents <= 0 then FLUSH_MAX_EVENTS else maxEvents;
      this.maxBytes := if maxBytes <= 0 then FLUSH_MAX_BYTES else maxBytes;
    }

    /** Drains, trims the tail to the byte cap, and gives the batch to send, if there is one. */
    method FlushIfDue(size: seq<R> -> Option<nat>) returns (batch: Option<seq<R>>)
      requires queue.Valid() && maxEvents > 0
      modifies queue, queue.buf
      ensures queue.Valid()
      ensures queue.Model() == EventQueue.Drain(old(queue.Model()), maxEvents).queue
      ensures var drained := Records(EventQueue.Drain(old(queue.Model()), maxEvents).taken);
        batch == if drained == [] then None
                 else Some(drained[..EventRuns.Kept(drained, size, maxBytes)])
    {
      if queue.count == 0 {
        DrainNothing(queue.Model(), maxEvents);
        return None;
      }
      var records := queue.Drain(maxEvents);
      if |records| == 0 {
        return None;
      }
      ghost var drained := records;
      assert drained[..|drained|] == drained;
      while true
        invariant 1 <= |records| <= |drained| && records == drained[..|records|]
        invariant EventRuns.Kept(drained, size, maxBytes) == EventRuns.Kept(records, size, maxBytes)
        decreases |records|
      {
        var measured := size(records);
        if measured.None? || measured.value <= maxBytes || |records| <= 1 {
          break;
        }
        records := records[..|records| - 1];
      }
      return Some(records);
    }
  }
}
