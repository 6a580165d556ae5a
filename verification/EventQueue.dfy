/**
 The bounded priority event queue of the agent, as a value: what a push, a
 drain and a flush do to the queued items. The class in EventQueueImpl works
 in place on an array and is proved to do exactly this.
 */
module EventQueue {
  import opened Common

  /** Highest first; no entry of this priority is ever evicted. */
  const CRITICAL: int := 0

  /** An accepted record with its priority and its acceptance number. */
  datatype Item<R> = Item(rec: R, priority: int, seqNo: nat)

  /** The order in which items leave: highest priority first, oldest first within it. */
  predicate Before<R(!new)>(a: Item<R>, b: Item<R>) {
    a.priority < b.priority || (a.priority == b.priority && a.seqNo < b.seqNo)
  }

  /** `a` is the better eviction candidate: lower priority first, then oldest. */
  predicate Worse<R(!new)>(a: Item<R>, b: Item<R>) {
    if a.priority != b.priority then a.priority > b.priority else a.seqNo < b.seqNo
  }

  datatype Queue<R> = Queue(items: seq<Item<R>>, capacity: nat, nextSeq: nat, dropped: nat)

  /** Items are kept in insertion order, numbered below `nextSeq`, within capacity. */
  ghost predicate Ordered<R(!new)>(items: seq<Item<R>>, bound: nat) {
    && (forall i, j :: 0 <= i < j < |items| ==> items[i].seqNo < items[j].seqNo)
    && (forall i :: 0 <= i < |items| ==> items[i].seqNo < bound)
  }

  ghost predicate WellFormed<R(!new)>(q: Queue<R>) {
    Ordered(q.items, q.nextSeq) && |q.items| <= q.capacity && q.capacity > 0
  }

  // ------------------------------------------------------------------- push

  /** The scan for the item to evict: the worst non-critical one, if there is any. */
  function Victim<R(!new)>(items: seq<Item<R>>): (v: Option<nat>)
    ensures v.Some? ==> v.value < |items|
  {
    if items == [] then None else
    var n := |items| - 1;
    var best := Victim(items[..n]);
    if items[n].priority == CRITICAL then best
    else if best.None? || Worse(items[n], items[best.value]) then Some(n)
    else best
  }

  datatype Pushed<R> = Pushed(queue: Queue<R>, accepted: bool, evicted: Option<Item<R>>)

  function RemoveAt<R(!new)>(items: seq<Item<R>>, k: nat): (r: seq<Item<R>>)
    requires k < |items|
  {
    items[..k] + items[k + 1..]
  }

  function Push<R(!new)>(q: Queue<R>, rec: R, priority: int): (r: Pushed<R>) {
    var it := Item(rec, priority, q.nextSeq);
    if |q.items| < q.capacity then
      Pushed(q.(items := q.items + [it], nextSeq := q.nextSeq + 1), true, None)
    else
      match Victim(q.items)
      case None => Pushed(q.(dropped := q.dropped + 1), false, None)
      case Some(k) =>
        Pushed(q.(items := RemoveAt(q.items, k) + [it], nextSeq := q.nextSeq + 1), true, Some(q.items[k]))
  }

  /** `e` is non-critical and every other non-critical item is a worse choice to keep out. */
  ghost predicate IsWorst<R(!new)>(items: seq<Item<R>>, e: Item<R>) {
    && e in items && e.priority != 0
    && forall x :: x in items && x.priority != 0 && x != e ==>
         x.priority < e.priority || (x.priority == e.priority && e.seqNo < x.seqNo)
  }

  /** The scan finds the worst non-critical item exactly when there is a non-critical one. */
  lemma {:induction false} VictimIsWorst<R(!new)>(items: seq<Item<R>>)
    requires forall i, j :: 0 <= i < j < |items| ==> items[i].seqNo < items[j].seqNo
    ensures Victim(items).None? <==> forall x :: x in items ==> x.priority == CRITICAL
    ensures Victim(items).Some? ==> IsWorst(items, items[Victim(items).value])
  {
    if items == [] {
    } else {
      var n := |items| - 1;
      var init, last := items[..n], items[n];
      VictimIsWorst(init);
      assert items == init + [last];
      if Victim(init).Some? {
        WorstOfMore(init, last, init[Victim(init).value]);
      } else if last.priority != CRITICAL {
        assert IsWorst(init + [last], last);
      }
    }
  }

  /** A newer item replaces the worst one only if it is worse. */
  lemma WorstOfMore<R(!new)>(init: seq<Item<R>>, last: Item<R>, e: Item<R>)
    requires IsWorst(init, e) && forall x :: x in init ==> x.seqNo < last.seqNo
    ensures IsWorst(init + [last], if last.priority != CRITICAL && Worse(last, e) then last else e)
  {
    forall x | x in init + [last]
      ensures x in init || x == last
    {}
  }

  /** `CRITICAL` is the priority no eviction touches. */
  ghost predicate AllCritical<R(!new)>(items: seq<Item<R>>) {
    forall x :: x in items ==> x.priority == 0
  }

  /** A push is turned away exactly when the queue is full of critical items, whatever its own priority. */
  lemma PushIsRejectedExactlyWhen<R(!new)>(q: Queue<R>, rec: R, priority: int)
    requires WellFormed(q)
    ensures !Push(q, rec, priority).accepted <==> |q.items| == q.capacity && AllCritical(q.items)
    ensures !Push(q, rec, priority).accepted ==> Push(q, rec, priority).queue == q.(dropped := q.dropped + 1)
  {
    VictimIsWorst(q.items);
  }

  /** With room left the record is appended and nothing else changes. */
  lemma PushAppendsWhenRoom<R(!new)>(q: Queue<R>, rec: R, priority: int)
    requires WellFormed(q) && |q.items| < q.capacity
    ensures Push(q, rec, priority) ==
            Pushed(Queue(q.items + [Item(rec, priority, q.nextSeq)], q.capacity, q.nextSeq + 1, q.dropped), true, None)
  {}

  /**
   A push evicts exactly when the queue is full and holds a non-critical item.
   It evicts the worst such item; the others keep their order, and the new one
   is appended.
   */
  lemma PushEvictsExactlyWhenFull<R(!new)>(q: Queue<R>, rec: R, priority: int)
    requires WellFormed(q)
    ensures var p := Push(q, rec, priority);
      && (p.evicted.Some? <==> |q.items| == q.capacity && !AllCritical(q.items))
      && (p.evicted.Some? ==>
            && IsWorst(q.items, p.evicted.value) && p.accepted
            && p.queue.nextSeq == q.nextSeq + 1 && p.queue.dropped == q.dropped && p.queue.capacity == q.capacity
            && exists k :: 0 <= k < |q.items| && q.items[k] == p.evicted.value
                 && p.queue.items == q.items[..k] + q.items[k + 1..] + [Item(rec, priority, q.nextSeq)])
  {
    VictimIsWorst(q.items);
  }

  lemma RemoveAtKeepsOrder<R(!new)>(items: seq<Item<R>>, k: nat, bound: nat)
    requires Ordered(items, bound) && k < |items|
    ensures Ordered(RemoveAt(items, k), bound)
  {
    var r := RemoveAt(items, k);
    assert forall i :: 0 <= i < |r| ==> r[i] == items[if i < k then i else i + 1];
  }

  lemma PushKeepsForm<R(!new)>(q: Queue<R>, rec: R, priority: int)
    requires WellFormed(q)
    ensures WellFormed(Push(q, rec, priority).queue)
  {
    if |q.items| >= q.capacity && Victim(q.items).Some? {
      RemoveAtKeepsOrder(q.items, Victim(q.items).value, q.nextSeq);
    }
  }

  // ------------------------------------------------------------------ drain

  function Earliest<R(!new)>(items: seq<Item<R>>): (m: Item<R>)
    requires items != []
    ensures m in items
  {
    if |items| == 1 then items[0] else
    var m := Earliest(items[1..]);
    if Before(items[0], m) then items[0] else m
  }

  /** The items not in `gone`, in their original order. */
  ghost function Without<R(!new)>(items: seq<Item<R>>, gone: set<Item<R>>): (r: seq<Item<R>>)
    ensures |r| <= |items|
  {
    if items == [] then [] else
    var rest := Without(items[1..], gone);
    if items[0] in gone then rest else [items[0]] + rest
  }

  lemma {:induction false} WithoutMembers<R(!new)>(items: seq<Item<R>>, gone: set<Item<R>>)
    ensures forall x :: x in Without(items, gone) <==> x in items && x !in gone
  {
    if items == [] {
    } else {
      WithoutMembers(items[1..], gone);
      assert items == [items[0]] + items[1..];
    }
  }

  lemma {:induction false} WithoutShrinks<R(!new)>(items: seq<Item<R>>, m: Item<R>)
    requires m in items
    ensures |Without(items, {m})| < |items|
  {
    if items[0] != m {
      assert m in items[1..];
      WithoutShrinks(items[1..], m);
    }
  }

  /** All items in the order they leave, found by taking the earliest again and again. */
  ghost function Sorted<R(!new)>(items: seq<Item<R>>): (r: seq<Item<R>>)
    decreases |items|
  {
    if items == [] then [] else
    var m := Earliest(items);
    WithoutShrinks(items, m);
    [m] + Sorted(Without(items, {m}))
  }

  ghost function Elements<R(!new)>(items: seq<Item<R>>): (r: set<Item<R>>) {
    set x | x in items
  }

  /** How many items a drain with this limit takes. */
  function DrainCount<R(!new)>(items: seq<Item<R>>, max: int): (n: nat)
    ensures n <= |items|
  {
    if max <= 0 then 0 else if max < |items| then max else |items|
  }

  function Records<R(!new)>(items: seq<Item<R>>): (r: seq<R>)
    ensures |r| == |items|
    ensures forall i :: 0 <= i < |r| ==> r[i] == items[i].rec
  {
    seq(|items|, i requires 0 <= i < |items| => items[i].rec)
  }

  ghost predicate StrictlySorted<R(!new)>(s: seq<Item<R>>) {
    forall i, j :: 0 <= i < j < |s| ==> Before(s[i], s[j])
  }

  ghost predicate DistinctNumbers<R(!new)>(items: seq<Item<R>>) {
    forall i, j :: 0 <= i < j < |items| ==> items[i].seqNo != items[j].seqNo
  }

  lemma {:induction false} EarliestIsFirst<R(!new)>(items: seq<Item<R>>)
    requires items != [] && DistinctNumbers(items)
    ensures forall x :: x in items && x != Earliest(items) ==> Before(Earliest(items), x)
  {
    if |items| > 1 {
      EarliestIsFirst(items[1..]);
      forall x | x in items && x != Earliest(items)
        ensures Before(Earliest(items), x)
      {
        assert x == items[0] || x in items[1..];
        var k :| 0 <= k < |items[1..]| && items[1..][k] == Earliest(items[1..]);
        assert items[k + 1].seqNo != items[0].seqNo;
      }
    }
  }

  lemma {:induction false} WithoutIsDistinct<R(!new)>(items: seq<Item<R>>, gone: set<Item<R>>)
    requires DistinctNumbers(items)
    ensures DistinctNumbers(Without(items, gone))
  {
    if items == [] {
    } else {
      WithoutIsDistinct(items[1..], gone);
      WithoutMembers(items[1..], gone);
      var rest := Without(items[1..], gone);
      forall i | 0 <= i < |rest|
        ensures rest[i].seqNo != items[0].seqNo
      {
        assert rest[i] in items[1..];
        var k :| 0 <= k < |items[1..]| && items[1..][k] == rest[i];
        assert items[k + 1].seqNo != items[0].seqNo;
      }
    }
  }

  lemma {:induction false} RemovingOneDropsOne<R(!new)>(items: seq<Item<R>>, m: Item<R>)
    requires DistinctNumbers(items) && m in items
    ensures |Without(items, {m})| == |items| - 1
  {
    if items[0] == m {
      forall i | 0 <= i < |items[1..]|
        ensures items[1..][i] != m
      {
        assert items[i + 1].seqNo != items[0].seqNo;
      }
      WithoutNone(items[1..], m);
    } else {
      assert m in items[1..];
      RemovingOneDropsOne(items[1..], m);
    }
  }

  lemma {:induction false} WithoutNone<R(!new)>(items: seq<Item<R>>, m: Item<R>)
    requires m !in items
    ensures Without(items, {m}) == items
  {
    if items == [] {
    } else {
      WithoutNone(items[1..], m);
    }
  }

  /** `Sorted` sorts: it has the same elements, each strictly before the next. */
  lemma {:induction false} SortedSorts<R(!new)>(items: seq<Item<R>>)
    requires DistinctNumbers(items)
    ensures StrictlySorted(Sorted(items))
    ensures forall x :: x in Sorted(items) <==> x in items
    ensures |Sorted(items)| == |items|
    decreases |items|
  {
    if items == [] {
    } else {
      var m := Earliest(items);
      var rest := Without(items, {m});
      RemovingOneDropsOne(items, m);
      WithoutIsDistinct(items, {m});
      SortedSorts(rest);
      WithoutMembers(items, {m});
      EarliestIsFirst(items);
      SmallestFirst(m, Sorted(rest));
    }
  }

  lemma SmallestFirst<R(!new)>(m: Item<R>, s: seq<Item<R>>)
    requires StrictlySorted(s) && forall x :: x in s ==> Before(m, x)
    ensures StrictlySorted([m] + s)
  {
    var t := [m] + s;
    forall i, j | 0 <= i < j < |t|
      ensures Before(t[i], t[j])
    {
      assert t[j] == s[j - 1] && s[j - 1] in s;
    }
  }

  lemma {:induction false} SortedHasNoRepeats<R(!new)>(s: seq<Item<R>>)
    requires StrictlySorted(s)
    ensures |Elements(s)| == |s|
  {
    if s == [] {
    } else {
      SortedHasNoRepeats(s[1..]);
      assert s == [s[0]] + s[1..];
      assert Elements(s) == {s[0]} + Elements(s[1..]);
    }
  }

  /** There is only one way to sort: two strictly sorted sequences of the same elements are equal. */
  lemma {:induction false} SortedIsUnique<R(!new)>(s: seq<Item<R>>, t: seq<Item<R>>)
    requires StrictlySorted(s) && StrictlySorted(t) && Elements(s) == Elements(t)
    ensures s == t
    decreases |s|
  {
    SortedHasNoRepeats(s);
    SortedHasNoRepeats(t);
    if s == [] {
    } else {
      assert s[0] in Elements(t) && t[0] in Elements(s);
      assert s[0] == t[0];
      assert Elements(s[1..]) == Elements(s) - {s[0]} by { assert s == [s[0]] + s[1..]; }
      assert Elements(t[1..]) == Elements(t) - {t[0]} by { assert t == [t[0]] + t[1..]; }
      SortedIsUnique(s[1..], t[1..]);
    }
  }

  datatype Drained<R> = Drained(queue: Queue<R>, taken: seq<Item<R>>)

  /** A drain takes the first items of the leaving order and keeps the rest as they were. */
  ghost function Drain<R(!new)>(q: Queue<R>, max: int): (d: Drained<R>)
    requires WellFormed(q)
  {
    SortedSorts(q.items);
    var taken := Sorted(q.items)[..DrainCount(q.items, max)];
    Drained(q.(items := Without(q.items, Elements(taken))), taken)
  }

  /** Smaller priority number first, since 0 is the highest priority; then first in, first out. */
  ghost predicate Precedes<R(!new)>(x: Item<R>, y: Item<R>) {
    x.priority < y.priority || (x.priority == y.priority && x.seqNo < y.seqNo)
  }

  /**
   A drain takes as many as it may, or all. What it takes precedes what remains,
   nothing is lost, and the rest keeps its order.
   */
  lemma DrainTakesTheFirst<R(!new)>(q: Queue<R>, max: int)
    requires WellFormed(q)
    ensures var d := Drain(q, max);
      && (max <= 0 ==> d.taken == [])
      && (max > 0 ==> |d.taken| == max < |q.items| || (|d.taken| == |q.items| <= max && d.queue.items == []))
      && (forall i, j :: 0 <= i < j < |d.taken| ==> Precedes(d.taken[i], d.taken[j]))
      && (forall x, y :: x in d.taken && y in d.queue.items ==> Precedes(x, y))
      && (forall x :: x in q.items <==> x in d.taken || x in d.queue.items)
      && WellFormed(d.queue)
      && d.queue.capacity == q.capacity && d.queue.nextSeq == q.nextSeq && d.queue.dropped == q.dropped
  {
    DrainCounts(q, max);
    DrainParts(q, max);
    DrainKeepsForm(q, max);
  }

  lemma DrainCounts<R(!new)>(q: Queue<R>, max: int)
    requires WellFormed(q)
    ensures var d := Drain(q, max);
      && (max <= 0 ==> d.taken == [])
      && (max > 0 ==> |d.taken| == max < |q.items| || (|d.taken| == |q.items| <= max && d.queue.items == []))
  {
    SortedLength(q.items);
    if max >= |q.items| {
      RestIsEmpty(q, max);
    }
  }

  lemma DrainParts<R(!new)>(q: Queue<R>, max: int)
    requires WellFormed(q)
    ensures var d := Drain(q, max);
      && StrictlySorted(d.taken)
      && (forall x, y :: x in d.taken && y in d.queue.items ==> Before(x, y))
      && (forall x :: x in q.items <==> x in d.taken || x in d.queue.items)
  {
    var n := DrainCount(q.items, max);
    SortedLength(q.items);
    DrainIsTake(q, max, n);
    TakeParts(q.items, n);
  }

  lemma TakeParts<R(!new)>(items: seq<Item<R>>, n: nat)
    requires DistinctNumbers(items) && n <= |items| == |Sorted(items)|
    ensures var taken := Sorted(items)[..n];
      var rest := Without(items, Elements(taken));
      && StrictlySorted(taken)
      && (forall x, y :: x in taken && y in rest ==> Before(x, y))
      && (forall x :: x in items <==> x in taken || x in rest)
  {
    var s := Sorted(items);
    SortedSorts(items);
    WithoutMembers(items, Elements(s[..n]));
    assert s == s[..n] + s[n..];
    forall x, y | x in s[..n] && y in Without(items, Elements(s[..n]))
      ensures Before(x, y)
    {
      EarlierPart(s, n, x, y);
    }
  }

  lemma RestIsEmpty<R(!new)>(q: Queue<R>, max: int)
    requires WellFormed(q) && max >= |q.items|
    ensures Drain(q, max).queue.items == []
  {
    SortedLength(q.items);
    SortedAfterDrain(q.items, |q.items|);
  }

  lemma EarlierPart<R(!new)>(s: seq<Item<R>>, n: nat, x: Item<R>, y: Item<R>)
    requires StrictlySorted(s) && n <= |s| && x in s[..n] && y in s && y !in s[..n]
    ensures Before(x, y)
  {
    assert s == s[..n] + s[n..];
    var i :| 0 <= i < n && s[..n][i] == x;
    var j :| 0 <= j < |s[n..]| && s[n..][j] == y;
    assert Before(s[i], s[n + j]);
  }

  lemma {:induction false} WithoutKeepsOrder<R(!new)>(items: seq<Item<R>>, gone: set<Item<R>>, bound: nat)
    requires Ordered(items, bound)
    ensures Ordered(Without(items, gone), bound)
  {
    if items == [] {
    } else {
      WithoutKeepsOrder(items[1..], gone, bound);
      LaterAreNewer(items, gone, bound);
    }
  }

  lemma LaterAreNewer<R(!new)>(items: seq<Item<R>>, gone: set<Item<R>>, bound: nat)
    requires items != [] && Ordered(items, bound)
    ensures forall x :: x in Without(items[1..], gone) ==> items[0].seqNo < x.seqNo
  {
    WithoutMembers(items[1..], gone);
    forall x | x in items[1..]
      ensures items[0].seqNo < x.seqNo
    {
      var k :| 0 <= k < |items[1..]| && items[1..][k] == x;
      assert items[k + 1] == x;
    }
  }

  lemma {:induction false} WithoutTwice<R(!new)>(items: seq<Item<R>>, a: set<Item<R>>, b: set<Item<R>>)
    ensures Without(Without(items, a), b) == Without(items, a + b)
  {
    if items == [] {
    } else {
      WithoutTwice(items[1..], a, b);
      var rest := Without(items[1..], a);
      assert ([items[0]] + rest)[1..] == rest;
    }
  }

  lemma SplitIsDisjoint<R(!new)>(s: seq<Item<R>>, n: nat, x: Item<R>)
    requires StrictlySorted(s) && n <= |s|
    ensures x in s[n..] <==> x in s && x !in s[..n]
  {
    assert s == s[..n] + s[n..];
  }

  /** What is left after taking the first `n` leaves in the order it would have left. */
  lemma SortedAfterDrain<R(!new)>(items: seq<Item<R>>, n: nat)
    requires DistinctNumbers(items) && n <= |items| == |Sorted(items)|
    ensures var rest := Without(items, Elements(Sorted(items)[..n]));
      Sorted(rest) == Sorted(items)[n..] && |rest| == |items| - n
  {
    var s := Sorted(items);
    var rest := Without(items, Elements(s[..n]));
    SortedSorts(items);
    WithoutIsDistinct(items, Elements(s[..n]));
    WithoutMembers(items, Elements(s[..n]));
    SortedSorts(rest);
    forall x
      ensures x in Elements(s[n..]) <==> x in Elements(Sorted(rest))
    {
      SplitIsDisjoint(s, n, x);
    }
    SortedIsUnique(Sorted(rest), s[n..]);
  }

  lemma TakeTwice<R(!new)>(s: seq<Item<R>>, n: nat, m: nat)
    requires n + m <= |s|
    ensures s[..n + m] == s[..n] + s[n..][..m]
    ensures Elements(s[..n + m]) == Elements(s[..n]) + Elements(s[n..][..m])
  {
    assert s[..n + m] == s[..n] + s[n..][..m];
  }

  lemma TakesCompose<R(!new)>(items: seq<Item<R>>, n: nat, m: nat)
    requires DistinctNumbers(items) && n + m <= |items|
    ensures |Sorted(items)| == |items|
    ensures var s := Sorted(items);
      var rest := Without(items, Elements(s[..n]));
      && |rest| == |items| - n == |Sorted(rest)|
      && s[..n + m] == s[..n] + Sorted(rest)[..m]
      && Without(rest, Elements(Sorted(rest)[..m])) == Without(items, Elements(s[..n + m]))
  {
    SortedSorts(items);
    SortedAfterDrain(items, n);
    var s := Sorted(items);
    TakeTwice(s, n, m);
    WithoutTwice(items, Elements(s[..n]), Elements(s[n..][..m]));
  }

  lemma DrainKeepsForm<R(!new)>(q: Queue<R>, max: int)
    requires WellFormed(q)
    ensures WellFormed(Drain(q, max).queue)
  {
    SortedSorts(q.items);
    WithoutKeepsOrder(q.items, Elements(Drain(q, max).taken), q.nextSeq);
  }

  lemma SortedLength<R(!new)>(items: seq<Item<R>>)
    requires DistinctNumbers(items)
    ensures |Sorted(items)| == |items|
  {
    SortedSorts(items);
  }

  lemma DrainIsTake<R(!new)>(q: Queue<R>, max: int, n: nat)
    requires WellFormed(q) && n == DrainCount(q.items, max) && |Sorted(q.items)| == |q.items|
    ensures Drain(q, max) ==
            Drained(q.(items := Without(q.items, Elements(Sorted(q.items)[..n]))), Sorted(q.items)[..n])
  {}

  /** Two drains in a row return and leave what one drain of both limits does. */
  lemma DrainsCompose<R(!new)>(q: Queue<R>, a: nat, b: nat)
    requires WellFormed(q)
    ensures WellFormed(Drain(q, a).queue)
    ensures var d1 := Drain(q, a);
      var d2 := Drain(d1.queue, b);
      var d := Drain(q, a + b);
      d.taken == d1.taken + d2.taken && d.queue == d2.queue
  {
    DrainKeepsForm(q, a);
    SortedLength(q.items);
    var n, m := DrainCount(q.items, a), DrainCount(q.items, a + b) - DrainCount(q.items, a);
    DrainIsTake(q, a, n);
    DrainIsTake(q, a + b, n + m);
    TakesCompose(q.items, n, m);
    DrainIsTake(Drain(q, a).queue, b, m);
  }
}
