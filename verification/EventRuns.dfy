/**
 Whole runs of the event queue: pushes, drains and flushes in any order, with
 the history of what was accepted, evicted, handed out, sent and trimmed.
 */
module EventRuns {
  import opened Common
  import opened EventQueue

  // -------------------------------------------------------------- flush trim

  /** A batch may go out: it could not be measured, or it is small enough. */
  predicate Fits<R>(batch: seq<R>, size: seq<R> -> Option<nat>, maxBytes: int) {
    size(batch).None? || size(batch).value <= maxBytes
  }

  /** How many records are kept after dropping from the tail until the batch fits or one is left. */
  function Kept<R>(batch: seq<R>, size: seq<R> -> Option<nat>, maxBytes: int): (k: nat)
    ensures k <= |batch|
    decreases |batch|
  {
    if Fits(batch, size, maxBytes) || |batch| <= 1 then |batch|
    else Kept(batch[..|batch| - 1], size, maxBytes)
  }

  /**
   For any size function the batch sent is non-empty, and it is the longest
   prefix that fits, or the first record alone when no prefix fits.
   */
  lemma {:induction false} KeptIsLongest<R>(batch: seq<R>, size: seq<R> -> Option<nat>, maxBytes: int)
    requires batch != []
    ensures var k := Kept(batch, size, maxBytes);
      && 1 <= k
      && (size(batch[..k]).None? || size(batch[..k]).value <= maxBytes || k == 1)
      && forall j :: k < j <= |batch| ==> size(batch[..j]).Some? && size(batch[..j]).value > maxBytes
    decreases |batch|
  {
    assert batch[..|batch|] == batch;
    if !Fits(batch, size, maxBytes) && |batch| > 1 {
      var shorter := batch[..|batch| - 1];
      KeptIsLongest(shorter, size, maxBytes);
      assert forall j :: 0 <= j <= |shorter| ==> shorter[..j] == batch[..j];
    }
  }

  // -------------------------------------------------------------------- runs

  datatype Op<!R> =
    | PushOp(rec: R, priority: int)
    | DrainOp(max: int)
    | FlushOp(maxEvents: int, maxBytes: int, size: seq<R> -> Option<nat>)

  /**
   The queue with its history. `departed` lists everything drained, in order;
   `handed`, `sent` and `trimmed` say what became of it. `left` lists what was
   drained and what was evicted together, in the order in which it happened.
   */
  datatype Log<R> = Log(
    queue: Queue<R>,
    accepted: seq<Item<R>>,
    rejected: nat,
    evicted: seq<Item<R>>,
    departed: seq<Item<R>>,
    left: seq<Item<R>>,
    handed: seq<Item<R>>,
    sent: seq<Item<R>>,
    trimmed: seq<Item<R>>)

  ghost function Start<R(!new)>(capacity: nat): (r: Log<R>) {
    Log(Queue([], capacity, 0, 0), [], 0, [], [], [], [], [], [])
  }

  ghost function AfterPush<R(!new)>(l: Log<R>, rec: R, priority: int): (r: Log<R>) {
    var p := Push(l.queue, rec, priority);
    l.(queue := p.queue,
       accepted := l.accepted + (if p.accepted then [Item(rec, priority, l.queue.nextSeq)] else []),
       rejected := l.rejected + (if p.accepted then 0 else 1),
       evicted := l.evicted + (if p.evicted.Some? then [p.evicted.value] else []),
       left := l.left + (if p.evicted.Some? then [p.evicted.value] else []))
  }

  ghost function AfterDrain<R(!new)>(l: Log<R>, max: int): (r: Log<R>)
    requires WellFormed(l.queue)
  {
    var d := Drain(l.queue, max);
    l.(queue := d.queue, departed := l.departed + d.taken, left := l.left + d.taken, handed := l.handed + d.taken)
  }

  ghost function AfterFlush<R(!new)>(l: Log<R>, maxEvents: int, maxBytes: int, size: seq<R> -> Option<nat>): (r: Log<R>)
    requires WellFormed(l.queue)
  {
    var d := Drain(l.queue, maxEvents);
    var k := Kept(Records(d.taken), size, maxBytes);
    l.(queue := d.queue, departed := l.departed + d.taken, left := l.left + d.taken,
       sent := l.sent + d.taken[..k], trimmed := l.trimmed + d.taken[k..])
  }

  ghost function Step<R(!new)>(l: Log<R>, op: Op<R>): (r: Log<R>)
    requires WellFormed(l.queue)
  {
    match op
    case PushOp(rec, priority) => AfterPush(l, rec, priority)
    case DrainOp(max) => AfterDrain(l, max)
    case FlushOp(maxEvents, maxBytes, size) => AfterFlush(l, maxEvents, maxBytes, size)
  }

  /**
   What a flush adds to `sent` is the longest prefix of what it drained that
   fits, or the first record alone; the rest is trimmed.
   */
  lemma FlushSendsLongest<R(!new)>(l: Log<R>, maxEvents: int, maxBytes: int, size: seq<R> -> Option<nat>)
    requires WellFormed(l.queue) && l.queue.items != [] && maxEvents > 0
    ensures var t := AfterFlush(l, maxEvents, maxBytes, size);
      var taken := Drain(l.queue, maxEvents).taken;
      exists k: nat :: 1 <= k <= |taken|
        && t.sent == l.sent + taken[..k] && t.trimmed == l.trimmed + taken[k..] && t.handed == l.handed
        && (Fits(Records(taken)[..k], size, maxBytes) || k == 1)
        && forall j :: k < j <= |taken| ==> !Fits(Records(taken)[..j], size, maxBytes)
  {
    DrainCounts(l.queue, maxEvents);
    KeptIsLongest(Records(Drain(l.queue, maxEvents).taken), size, maxBytes);
  }

  lemma StepKeepsForm<R(!new)>(l: Log<R>, op: Op<R>)
    requires WellFormed(l.queue)
    ensures WellFormed(Step(l, op).queue)
  {
    match op {
      case PushOp(rec, priority) => PushKeepsForm(l.queue, rec, priority);
      case DrainOp(max) => DrainKeepsForm(l.queue, max);
      case FlushOp(maxEvents, _, _) => DrainKeepsForm(l.queue, maxEvents);
    }
  }

  ghost function Run<R(!new)>(l: Log<R>, ops: seq<Op<R>>): (r: Log<R>)
    requires WellFormed(l.queue)
    decreases |ops|
  {
    if ops == [] then l else
    StepKeepsForm(l, ops[0]);
    Run(Step(l, ops[0]), ops[1..])
  }

  // ------------------------------------------------------------ conservation

  ghost predicate Numbered<R(!new)>(accepted: seq<Item<R>>) {
    forall i :: 0 <= i < |accepted| ==> accepted[i].seqNo == i
  }

  /** Every accepted item is in exactly one place. */
  ghost predicate Balanced<R(!new)>(l: Log<R>) {
    && Numbered(l.accepted) && |l.accepted| == l.queue.nextSeq
    && multiset(l.accepted) == multiset(l.departed) + multiset(l.evicted) + multiset(l.queue.items)
    && multiset(l.departed) == multiset(l.handed) + multiset(l.sent) + multiset(l.trimmed)
    && multiset(l.left) == multiset(l.departed) + multiset(l.evicted)
    && l.rejected == l.queue.dropped
  }

  lemma {:induction false} RemovingOneAsMultiset<R(!new)>(items: seq<Item<R>>, m: Item<R>)
    requires DistinctNumbers(items) && m in items
    ensures multiset(items) == multiset(Without(items, {m})) + multiset{m}
  {
    assert items == [items[0]] + items[1..];
    if items[0] == m {
      forall i | 0 <= i < |items[1..]|
        ensures items[1..][i] != m
      {
        assert items[i + 1].seqNo != items[0].seqNo;
      }
      WithoutNone(items[1..], m);
    } else {
      assert m in items[1..];
      RemovingOneAsMultiset(items[1..], m);
    }
  }

  lemma {:induction false} SortedIsPermutation<R(!new)>(items: seq<Item<R>>)
    requires DistinctNumbers(items)
    ensures multiset(Sorted(items)) == multiset(items)
    decreases |items|
  {
    if items == [] {
    } else {
      var m := Earliest(items);
      WithoutShrinks(items, m);
      WithoutIsDistinct(items, {m});
      RemovingOneAsMultiset(items, m);
      SortedIsPermutation(Without(items, {m}));
    }
  }

  lemma RestIsPermutation<R(!new)>(items: seq<Item<R>>, n: nat)
    requires DistinctNumbers(items) && n <= |items| == |Sorted(items)|
    ensures multiset(Without(items, Elements(Sorted(items)[..n]))) == multiset(Sorted(items)[n..])
  {
    SortedAfterDrain(items, n);
    var gone := Elements(Sorted(items)[..n]);
    WithoutIsDistinct(items, gone);
    SortedIsPermutation(Without(items, gone));
  }

  lemma TakeSplits<R(!new)>(items: seq<Item<R>>, n: nat)
    requires DistinctNumbers(items) && n <= |items| == |Sorted(items)|
    ensures multiset(items) == multiset(Sorted(items)[..n]) + multiset(Without(items, Elements(Sorted(items)[..n])))
  {
    RestIsPermutation(items, n);
    SortedIsPermutation(items);
    assert Sorted(items) == Sorted(items)[..n] + Sorted(items)[n..];
  }

  lemma DrainSplits<R(!new)>(q: Queue<R>, max: int)
    requires WellFormed(q)
    ensures var d := Drain(q, max);
      multiset(q.items) == multiset(d.taken) + multiset(d.queue.items)
  {
    SortedSorts(q.items);
    TakeSplits(q.items, DrainCount(q.items, max));
  }

  lemma RemoveAtSplits<R(!new)>(items: seq<Item<R>>, k: nat)
    requires k < |items|
    ensures multiset(items) == multiset(RemoveAt(items, k)) + multiset{items[k]}
  {
    assert items == items[..k] + [items[k]] + items[k + 1..];
  }

  lemma PushSplits<R(!new)>(q: Queue<R>, rec: R, priority: int)
    ensures var p := Push(q, rec, priority);
      multiset(q.items) + (if p.accepted then multiset{Item(rec, priority, q.nextSeq)} else multiset{})
        == multiset(p.queue.items) + (if p.evicted.Some? then multiset{p.evicted.value} else multiset{})
  {
    if |q.items| >= q.capacity && Victim(q.items).Some? {
      RemoveAtSplits(q.items, Victim(q.items).value);
    }
  }

  lemma PushBalances<R(!new)>(l: Log<R>, rec: R, priority: int)
    requires Balanced(l)
    ensures Balanced(AfterPush(l, rec, priority))
  {
    var p, t := Push(l.queue, rec, priority), AfterPush(l, rec, priority);
    var added := if p.accepted then multiset{Item(rec, priority, l.queue.nextSeq)} else multiset{};
    var gone := if p.evicted.Some? then multiset{p.evicted.value} else multiset{};
    PushSplits(l.queue, rec, priority);
    PushExtends(l, rec, priority);
    PushKeepsNumbers(l, rec, priority);
    StaysBalanced(multiset(l.accepted), multiset(l.departed), multiset(l.evicted), multiset(l.queue.items),
                  added, gone, multiset(t.queue.items));
  }

  lemma StaysBalanced<T>(accepted: multiset<T>, departed: multiset<T>, evicted: multiset<T>, queued: multiset<T>,
                         added: multiset<T>, gone: multiset<T>, queued': multiset<T>)
    requires accepted == departed + evicted + queued && queued + added == queued' + gone
    ensures accepted + added == departed + (evicted + gone) + queued'
  {
    forall x
      ensures (accepted + added)[x] == (departed + (evicted + gone) + queued')[x]
    {
      assert (queued + added)[x] == (queued' + gone)[x];
    }
  }

  lemma PushKeepsNumbers<R(!new)>(l: Log<R>, rec: R, priority: int)
    requires Balanced(l)
    ensures var t := AfterPush(l, rec, priority);
      Numbered(t.accepted) && |t.accepted| == t.queue.nextSeq && t.rejected == t.queue.dropped
  {}

  /** What a push adds to the histories, as multisets. */
  lemma PushExtends<R(!new)>(l: Log<R>, rec: R, priority: int)
    ensures var p, t := Push(l.queue, rec, priority), AfterPush(l, rec, priority);
      && multiset(t.accepted) == multiset(l.accepted)
           + (if p.accepted then multiset{Item(rec, priority, l.queue.nextSeq)} else multiset{})
      && multiset(t.evicted) == multiset(l.evicted)
           + (if p.evicted.Some? then multiset{p.evicted.value} else multiset{})
  {}

  lemma StepBalances<R(!new)>(l: Log<R>, op: Op<R>)
    requires WellFormed(l.queue) && Balanced(l)
    ensures Balanced(Step(l, op))
  {
    match op {
      case PushOp(rec, priority) => PushBalances(l, rec, priority);
      case DrainOp(max) => DrainBalances(l, max);
      case FlushOp(maxEvents, maxBytes, size) => FlushBalances(l, maxEvents, maxBytes, size);
    }
  }

  lemma DrainBalances<R(!new)>(l: Log<R>, max: int)
    requires WellFormed(l.queue) && Balanced(l)
    ensures Balanced(AfterDrain(l, max))
  {
    DrainSplits(l.queue, max);
    var d := Drain(l.queue, max);
    StaysBalanced(multiset(l.accepted), multiset(l.evicted), multiset(l.departed), multiset(l.queue.items),
                  multiset{}, multiset(d.taken), multiset(d.queue.items));
  }

  lemma FlushBalances<R(!new)>(l: Log<R>, maxEvents: int, maxBytes: int, size: seq<R> -> Option<nat>)
    requires WellFormed(l.queue) && Balanced(l)
    ensures Balanced(AfterFlush(l, maxEvents, maxBytes, size))
  {
    DrainSplits(l.queue, maxEvents);
    var d := Drain(l.queue, maxEvents);
    var k := Kept(Records(d.taken), size, maxBytes);
    CutSplits(d.taken, k);
    StaysBalanced(multiset(l.accepted), multiset(l.evicted), multiset(l.departed), multiset(l.queue.items),
                  multiset{}, multiset(d.taken), multiset(d.queue.items));
  }

  lemma CutSplits<T>(s: seq<T>, k: nat)
    requires k <= |s|
    ensures multiset(s) == multiset(s[..k]) + multiset(s[k..])
  {
    assert s == s[..k] + s[k..];
  }

  /** Over any run, an eviction happens only when the queue is full. */
  lemma EvictsOnlyWhenFull<R(!new)>(capacity: nat, ops: seq<Op<R>>, op: Op<R>)
    requires capacity > 0
    ensures WellFormed(Run(Start(capacity), ops).queue)
    ensures var l := Run(Start(capacity), ops);
      Step(l, op).evicted != l.evicted ==>
        && |l.queue.items| == capacity
        && |Step(l, op).evicted| == |l.evicted| + 1 && IsWorst(l.queue.items, Step(l, op).evicted[|l.evicted|])
  {
    RunBalances(Start<R>(capacity), ops);
    RunKeepsCapacity(Start<R>(capacity), ops);
    if op.PushOp? {
      PushEvictsExactlyWhenFull(Run(Start(capacity), ops).queue, op.rec, op.priority);
    }
  }

  lemma {:induction false} RunBalances<R(!new)>(l: Log<R>, ops: seq<Op<R>>)
    requires WellFormed(l.queue) && Balanced(l)
    ensures WellFormed(Run(l, ops).queue) && Balanced(Run(l, ops))
    decreases |ops|
  {
    if ops == [] {
    } else {
      StepKeepsForm(l, ops[0]);
      StepBalances(l, ops[0]);
      RunBalances(Step(l, ops[0]), ops[1..]);
    }
  }

  lemma {:induction false} RunKeepsCapacity<R(!new)>(l: Log<R>, ops: seq<Op<R>>)
    requires WellFormed(l.queue)
    ensures Run(l, ops).queue.capacity == l.queue.capacity
    decreases |ops|
  {
    if ops == [] {
    } else {
      StepKeepsForm(l, ops[0]);
      assert Step(l, ops[0]).queue.capacity == l.queue.capacity;
      RunKeepsCapacity(Step(l, ops[0]), ops[1..]);
    }
  }

  lemma NumberedHasNoRepeats<R(!new)>(s: seq<Item<R>>, x: Item<R>)
    requires Numbered(s)
    ensures multiset(s)[x] <= 1
  {
    if x in s {
      var i := x.seqNo;
      assert s[i] == x;
      assert s == s[..i] + [s[i]] + s[i + 1..];
      assert x !in s[..i] && x !in s[i + 1..];
    }
  }

  lemma SingleMeansDistinct<R(!new)>(s: seq<Item<R>>, i: nat, j: nat)
    requires i < j < |s| && forall x :: multiset(s)[x] <= 1
    ensures s[i] != s[j]
  {
    assert s == s[..j] + [s[j]] + s[j + 1..];
    assert s[..j][i] == s[i];
    assert multiset(s)[s[i]] <= 1;
  }

  /**
   Over any run, each accepted record is in exactly one of: handed out, sent,
   trimmed, evicted, still queued; no record is in the same place twice; the
   rejected pushes are the dropped count; the length stays within capacity.
   */
  lemma EveryRecordIsAccountedFor<R(!new)>(capacity: nat, ops: seq<Op<R>>)
    requires capacity > 0
    ensures var l := Run(Start(capacity), ops);
      && multiset(l.accepted) == multiset(l.handed) + multiset(l.sent) + multiset(l.trimmed)
           + multiset(l.evicted) + multiset(l.queue.items)
      && (forall x :: multiset(l.accepted)[x] <= 1)
      && (forall i, j :: 0 <= i < j < |l.sent| ==> l.sent[i] != l.sent[j])
      && l.rejected == l.queue.dropped
      && |l.queue.items| <= capacity == l.queue.capacity
  {
    RunBalances(Start<R>(capacity), ops);
    RunKeepsCapacity(Start<R>(capacity), ops);
    var l := Run(Start(capacity), ops);
    forall x
      ensures multiset(l.accepted)[x] <= 1
    {
      NumberedHasNoRepeats(l.accepted, x);
    }
    forall i, j | 0 <= i < j < |l.sent|
      ensures l.sent[i] != l.sent[j]
    {
      forall x
        ensures multiset(l.sent)[x] <= 1
      {
        assert multiset(l.accepted)[x] <= 1;
      }
      SingleMeansDistinct(l.sent, i, j);
    }
  }

  // -------------------------------------------------- order and protection

  /** Within a tier, what left earlier was pushed earlier. */
  ghost predicate TiersInOrder<R(!new)>(s: seq<Item<R>>) {
    forall i, j :: 0 <= i < j < |s| && s[i].priority == s[j].priority ==> s[i].seqNo < s[j].seqNo
  }

  /** Within a tier, everything in `s` was pushed before everything in `t`. */
  ghost predicate TiersPrecede<R(!new)>(s: seq<Item<R>>, t: seq<Item<R>>) {
    forall x, y :: x in s && y in t && x.priority == y.priority ==> x.seqNo < y.seqNo
  }

  /** What is gone left each tier in push order, and before everything of that tier still queued. */
  ghost predicate FirstInFirstOut<R(!new)>(gone: seq<Item<R>>, q: Queue<R>) {
    && TiersInOrder(gone)
    && TiersPrecede(gone, q.items)
    && (forall x :: x in gone ==> x.seqNo < q.nextSeq)
  }

  ghost predicate NoCriticalEvicted<R(!new)>(l: Log<R>) {
    forall x :: x in l.evicted ==> x.priority != CRITICAL
  }

  lemma TakenExtendsTiers<R(!new)>(departed: seq<Item<R>>, taken: seq<Item<R>>)
    requires TiersInOrder(departed) && StrictlySorted(taken) && TiersPrecede(departed, taken)
    ensures TiersInOrder(departed + taken)
  {
    var all, n := departed + taken, |departed|;
    forall i, j | 0 <= i < j < |all| && all[i].priority == all[j].priority
      ensures all[i].seqNo < all[j].seqNo
    {
      if i < n <= j {
        assert all[i] in departed && all[j] in taken;
      } else if n <= i {
        assert Before(taken[i - n], taken[j - n]);
      }
    }
  }

  lemma DrainKeepsTiers<R(!new)>(gone: seq<Item<R>>, q: Queue<R>, max: int)
    requires WellFormed(q) && FirstInFirstOut(gone, q)
    ensures FirstInFirstOut(gone + Drain(q, max).taken, Drain(q, max).queue)
  {
    DrainTakesTheFirst(q, max);
    var d := Drain(q, max);
    assert TiersPrecede(gone, d.taken);
    TakenExtendsTiers(gone, d.taken);
    forall x | x in d.taken
      ensures x.seqNo < q.nextSeq
    {
      assert x in q.items;
    }
    forall x, y | x in gone + d.taken && y in d.queue.items && x.priority == y.priority
      ensures x.seqNo < y.seqNo
    {
      assert y in q.items;
      if x in d.taken {
        assert Before(x, y);
      }
    }
  }

  /** What a push leaves in the queue was there, or is the new item. */
  lemma PushedAreOldOrNew<R(!new)>(q: Queue<R>, rec: R, priority: int)
    ensures forall y :: y in Push(q, rec, priority).queue.items ==>
              y in q.items || (y.seqNo == q.nextSeq && y.priority == priority)
    ensures q.nextSeq <= Push(q, rec, priority).queue.nextSeq
  {}

  lemma PushKeepsGone<R(!new)>(gone: seq<Item<R>>, q: Queue<R>, rec: R, priority: int)
    requires WellFormed(q) && FirstInFirstOut(gone, q)
    ensures FirstInFirstOut(gone, Push(q, rec, priority).queue)
  {
    PushedAreOldOrNew(q, rec, priority);
  }

  /** The evicted item is the oldest of its tier, so it leaves in turn. */
  lemma EvictionKeepsTiers<R(!new)>(gone: seq<Item<R>>, q: Queue<R>, rec: R, priority: int)
    requires WellFormed(q) && FirstInFirstOut(gone, q) && Push(q, rec, priority).evicted.Some?
    ensures FirstInFirstOut(gone + [Push(q, rec, priority).evicted.value], Push(q, rec, priority).queue)
  {
    var p := Push(q, rec, priority);
    var e := p.evicted.value;
    VictimIsWorst(q.items);
    PushKeepsGone(gone, q, rec, priority);
    TakenExtendsTiers(gone, [e]);
    EvictedIsGone(q, rec, priority);
    PushedAreOldOrNew(q, rec, priority);
    forall y | y in p.queue.items && y.priority == e.priority
      ensures e.seqNo < y.seqNo
    {
      if y in q.items {
        assert Worse(e, y);
      }
    }
  }

  lemma EvictedIsGone<R(!new)>(q: Queue<R>, rec: R, priority: int)
    requires WellFormed(q) && Push(q, rec, priority).evicted.Some?
    ensures Push(q, rec, priority).evicted.value !in Push(q, rec, priority).queue.items
  {
    var k := Victim(q.items).value;
    forall y | y in RemoveAt(q.items, k)
      ensures y.seqNo != q.items[k].seqNo
    {
      var i :| 0 <= i < |RemoveAt(q.items, k)| && RemoveAt(q.items, k)[i] == y;
      assert y == q.items[if i < k then i else i + 1];
    }
  }

  ghost predicate InTurn<R(!new)>(l: Log<R>) {
    FirstInFirstOut(l.departed, l.queue) && FirstInFirstOut(l.left, l.queue)
  }

  lemma PushKeepsTiers<R(!new)>(l: Log<R>, rec: R, priority: int)
    requires WellFormed(l.queue) && InTurn(l) && NoCriticalEvicted(l)
    ensures InTurn(AfterPush(l, rec, priority)) && NoCriticalEvicted(AfterPush(l, rec, priority))
  {
    VictimIsWorst(l.queue.items);
    PushKeepsGone(l.departed, l.queue, rec, priority);
    if Push(l.queue, rec, priority).evicted.Some? {
      EvictionKeepsTiers(l.left, l.queue, rec, priority);
    } else {
      PushKeepsGone(l.left, l.queue, rec, priority);
      assert l.left + [] == l.left;
    }
  }

  lemma StepKeepsTiers<R(!new)>(l: Log<R>, op: Op<R>)
    requires WellFormed(l.queue) && InTurn(l) && NoCriticalEvicted(l)
    ensures InTurn(Step(l, op)) && NoCriticalEvicted(Step(l, op))
  {
    match op {
      case PushOp(rec, priority) => PushKeepsTiers(l, rec, priority);
      case DrainOp(max) =>
        DrainKeepsTiers(l.departed, l.queue, max);
        DrainKeepsTiers(l.left, l.queue, max);
      case FlushOp(max, _, _) =>
        DrainKeepsTiers(l.departed, l.queue, max);
        DrainKeepsTiers(l.left, l.queue, max);
    }
  }

  lemma {:induction false} RunKeepsTiers<R(!new)>(l: Log<R>, ops: seq<Op<R>>)
    requires WellFormed(l.queue) && InTurn(l) && NoCriticalEvicted(l)
    ensures InTurn(Run(l, ops)) && NoCriticalEvicted(Run(l, ops))
    decreases |ops|
  {
    if ops == [] {
    } else {
      StepKeepsForm(l, ops[0]);
      StepKeepsTiers(l, ops[0]);
      RunKeepsTiers(Step(l, ops[0]), ops[1..]);
    }
  }

  /**
   Over any run each priority tier leaves in push order, across all drains and
   flushes, and so it does with the evictions in between counted as well; no
   accepted critical record is evicted.
   */
  lemma TiersLeaveInPushOrder<R(!new)>(capacity: nat, ops: seq<Op<R>>)
    requires capacity > 0
    ensures var l := Run(Start(capacity), ops);
      && FirstInFirstOut(l.departed, l.queue)
      && FirstInFirstOut(l.left, l.queue)
      && multiset(l.left) == multiset(l.departed) + multiset(l.evicted)
      && NoCriticalEvicted(l)
  {
    RunKeepsTiers(Start<R>(capacity), ops);
    RunBalances(Start<R>(capacity), ops);
  }
}
