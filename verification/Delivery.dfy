/**
 The heartbeat loop and the job goroutines of the agent, as atomic steps on
 shared state: the queue of results awaiting delivery, the one-slot wake-up
 channel, the set of job ids in flight and the channel of execution slots.

 The fields from `produced` on are history: they decide no step.
 */
module Delivery {

  type JobId = string

  /** Who appended a result: the gate, for the received job at that position, or a job goroutine. */
  datatype Origin = Gate(source: nat) | Worker(worker: nat)

  datatype JobResult = JobResult(job: JobId, exitCode: int, origin: Origin)

  /** A pending job of a heartbeat response, with the gate's verdict on it. */
  datatype Incoming = Incoming(job: JobId, admitted: bool)

  /**
   What became of a received job: rejected with the result at a position of
   `produced`, skipped because a goroutine held its id, or given a goroutine.
   */
  datatype Outcome = Refused(at: nat) | Skipped(holder: nat) | Started(worker: nat)

  /**
   Where a job goroutine stands. `Abandoned`: the context ended before a slot
   was free. `Gone`: the id has left the in-flight set.
   */
  datatype Phase = Waiting | Running | Appended | Nudged | SlotFreed | Abandoned | Gone(reported: bool)

  /**
   `source` is the position of the goroutine's job among the received ones, `at`
   that of its result in `produced`, once it has one.
   */
  datatype Goroutine = Goroutine(job: JobId, source: nat, phase: Phase, at: nat) {
    predicate Live() { !phase.Gone? }

    predicate HoldsSlot() { phase.Running? || phase.Appended? || phase.Nudged? }

    predicate Reported() {
      phase.Appended? || phase.Nudged? || phase.SlotFreed? || phase == Gone(true)
    }

    /** Steps left before the goroutine has ended. */
    function StepsLeft(): (r: nat) {
      match phase
      case Waiting => 5
      case Running => 4
      case Appended => 3
      case Nudged => 2
      case SlotFreed => 1
      case Abandoned => 1
      case Gone(_) => 0
    }
  }

  /** Where the heartbeat loop stands. */
  datatype Loop =
    | Idle
    | Woken
    | Sending(batch: seq<JobResult>)
    | Sent(batch: seq<JobResult>, response: seq<Incoming>)
    | Handling(todo: seq<Incoming>)
    | Rejected(todo: seq<Incoming>)
    | Spawning(job: JobId, todo: seq<Incoming>)
    | Stopped

  datatype State = State(
    pending: seq<JobResult>,
    nudge: bool,
    inFlight: set<JobId>,
    slotsUsed: nat,
    slotCount: nat,
    workers: seq<Goroutine>,
    loop: Loop,
    cancelled: bool,
    produced: seq<JobResult>,
    delivered: seq<JobResult>,
    removed: seq<JobResult>,
    covered: nat,
    owner: map<JobId, nat>,
    received: seq<Incoming>,
    outcomes: seq<Outcome>)

  const DEFAULT_MAX_PARALLEL_JOBS: nat := 2

  /** The number of execution slots for a configured limit. */
  function MaxParallelJobs(configured: int): (n: nat)
    ensures n > 0
  {
    if configured <= 0 then DEFAULT_MAX_PARALLEL_JOBS else configured
  }

  function Init(configured: int): (r: State) {
    State([], false, {}, 0, MaxParallelJobs(configured), [], Woken, false, [], [], [], 0, map[], [], [])
  }

  datatype Event =
    | Cancel
    | StopLoop
    | TimerFires
    | TakeNudge
    | Snapshot
    | SendFails
    | SendSucceeds(response: seq<Incoming>)
    | DropAcknowledged
    | NextJob
    | NudgeForRejection
    | Spawn
    | Acquire(worker: nat)
    | GiveUp(worker: nat)
    | Append(worker: nat, exitCode: int)
    | NudgeLoop(worker: nat)
    | FreeSlot(worker: nat)
    | Forget(worker: nat)
  {
    predicate OfWorker() {
      Acquire? || GiveUp? || Append? || NudgeLoop? || FreeSlot? || Forget?
    }
  }

  predicate At(s: State, w: nat, phase: Phase) {
    w < |s.workers| && s.workers[w].phase == phase
  }

  predicate Enabled(s: State, e: Event) {
    match e
    case Cancel => true
    case StopLoop => s.loop.Idle?
    case TimerFires => s.loop.Idle?
    case TakeNudge => s.loop.Idle? && s.nudge
    case Snapshot => s.loop.Woken?
    case SendFails => s.loop.Sending?
    case SendSucceeds(_) => s.loop.Sending?
    case DropAcknowledged => s.loop.Sent? && |s.loop.batch| <= |s.pending|
    case NextJob => s.loop.Handling?
    case NudgeForRejection => s.loop.Rejected?
    case Spawn => s.loop.Spawning?
    case Acquire(w) => At(s, w, Waiting) && s.slotsUsed < s.slotCount
    case GiveUp(w) => At(s, w, Waiting) && s.cancelled
    case Append(w, _) => At(s, w, Running)
    case NudgeLoop(w) => At(s, w, Appended)
    case FreeSlot(w) => At(s, w, Nudged) && s.slotsUsed > 0
    case Forget(w) => At(s, w, SlotFreed) || At(s, w, Abandoned)
  }

  /** One pending job: a rejection is reported, a duplicate is skipped, the rest is marked in flight. */
  function HandleOne(s: State): (result: State)
    requires s.loop.Handling?
  {
    if s.loop.todo == [] then s.(loop := Idle) else
    var j, rest := s.loop.todo[0], s.loop.todo[1..];
    if !j.admitted then
      var r := JobResult(j.job, 126, Gate(|s.outcomes|));
      s.(pending := s.pending + [r], produced := s.produced + [r],
         outcomes := s.outcomes + [Refused(|s.produced|)], loop := Rejected(rest))
    else if j.job in s.inFlight then
      s.(outcomes := s.outcomes + [Skipped(if j.job in s.owner then s.owner[j.job] else 0)], loop := Handling(rest))
    else
      s.(inFlight := s.inFlight + {j.job}, loop := Spawning(j.job, rest))
  }

  /** A step of the heartbeat loop or of its environment. */
  function LoopStep(s: State, e: Event): (r: State)
    requires Enabled(s, e) && !e.OfWorker()
  {
    match e
    case Cancel => s.(cancelled := true)
    case StopLoop => s.(loop := Stopped)
    case TimerFires => s.(loop := Woken)
    case TakeNudge => s.(loop := Woken, nudge := false)
    case Snapshot => s.(loop := Sending(s.pending), covered := |s.produced|)
    case SendFails => s.(loop := Idle)
    case SendSucceeds(response) =>
      s.(loop := Sent(s.loop.batch, response), delivered := s.delivered + s.loop.batch,
         received := s.received + response)
    case DropAcknowledged =>
      s.(pending := s.pending[|s.loop.batch|..], removed := s.removed + s.pending[..|s.loop.batch|],
         loop := Handling(s.loop.response))
    case NextJob => HandleOne(s)
    case NudgeForRejection => s.(nudge := true, loop := Handling(s.loop.todo))
    case Spawn =>
      s.(workers := s.workers + [Goroutine(s.loop.job, |s.outcomes|, Waiting, 0)],
         outcomes := s.outcomes + [Started(|s.workers|)],
         owner := s.owner[s.loop.job := |s.workers|],
         loop := Handling(s.loop.todo))
  }

  /** What a goroutine is after its step. */
  function Advance(s: State, e: Event): (r: Goroutine)
    requires Enabled(s, e) && e.OfWorker()
  {
    var g := s.workers[e.worker];
    match e
    case Acquire(_) => g.(phase := Running)
    case GiveUp(_) => g.(phase := Abandoned)
    case Append(_, _) => g.(phase := Appended, at := |s.produced|)
    case NudgeLoop(_) => g.(phase := Nudged)
    case FreeSlot(_) => g.(phase := SlotFreed)
    case Forget(_) => g.(phase := Gone(g.phase.SlotFreed?))
  }

  /** A step of a job goroutine. */
  function WorkerStep(s: State, e: Event): (result: State)
    requires Enabled(s, e) && e.OfWorker()
  {
    var g := s.workers[e.worker];
    var t := s.(workers := s.workers[e.worker := Advance(s, e)]);
    match e
    case Acquire(_) => t.(slotsUsed := s.slotsUsed + 1)
    case GiveUp(_) => t
    case Append(w, exitCode) =>
      var r := JobResult(g.job, exitCode, Worker(w));
      t.(pending := s.pending + [r], produced := s.produced + [r])
    case NudgeLoop(_) => t.(nudge := true)
    case FreeSlot(_) => t.(slotsUsed := s.slotsUsed - 1)
    case Forget(_) => t.(inFlight := s.inFlight - {g.job}, owner := s.owner - {g.job})
  }

  function Next(s: State, e: Event): (r: State)
    requires Enabled(s, e)
  {
    if e.OfWorker() then WorkerStep(s, e) else LoopStep(s, e)
  }

  /** The events can be taken one after the other from `s`. */
  predicate IsRun(s: State, es: seq<Event>)
    decreases |es|
  {
    es != [] ==> Enabled(s, es[0]) && IsRun(Next(s, es[0]), es[1..])
  }

  function After(s: State, es: seq<Event>): (r: State)
    requires IsRun(s, es)
    decreases |es|
  {
    if es == [] then s else After(Next(s, es[0]), es[1..])
  }

  // ---------------------------------------------------------------- invariant

  /** The results the current heartbeat took from the queue. */
  function Snapshotted(loop: Loop): (r: seq<JobResult>) {
    if loop.Sending? || loop.Sent? then loop.batch else []
  }

  /**
   All results are the removed ones followed by the queue; those delivered are
   the removed ones and, between a successful send and the drop, its batch.
   */
  ghost predicate Conserved(s: State) {
    && s.produced == s.removed + s.pending
    && Snapshotted(s.loop) <= s.pending
    && s.delivered == s.removed + (if s.loop.Sent? then s.loop.batch else [])
    && (s.loop.Sending? || s.loop.Sent? ==> |s.removed| + |s.loop.batch| == s.covered)
  }

  /** The producer of result `i` has appended it and not yet run its non-blocking nudge. */
  predicate Unannounced(s: State, i: nat)
    requires i < |s.produced|
  {
    match s.produced[i].origin
    case Worker(w) => At(s, w, Appended)
    case Gate(n) => s.loop.Rejected? && n + 1 == |s.outcomes|
  }

  ghost predicate NoLostWakeUp(s: State) {
    s.covered <= |s.produced| &&
    forall i :: s.covered <= i < |s.produced| ==> s.nudge || s.loop.Woken? || Unannounced(s, i)
  }

  /** `owner` maps the job id of each live goroutine to that goroutine, so no two share an id. */
  ghost predicate OwnersMatch(ws: seq<Goroutine>, owner: map<JobId, nat>) {
    && (forall j :: j in owner ==> owner[j] < |ws| && ws[owner[j]].Live() && ws[owner[j]].job == j)
    && (forall w :: 0 <= w < |ws| && ws[w].Live() ==> ws[w].job in owner && owner[ws[w].job] == w)
  }

  /** Every id in flight belongs to a live goroutine, or to the one about to start. */
  ghost predicate InFlightIsOwned(s: State) {
    && s.inFlight == s.owner.Keys + (if s.loop.Spawning? then {s.loop.job} else {})
    && (s.loop.Spawning? ==> s.loop.job !in s.owner)
  }

  /** A live goroutine holds the job id. */
  ghost predicate Held(s: State, job: JobId) {
    exists w :: 0 <= w < |s.workers| && s.workers[w].Live() && s.workers[w].job == job
  }

  ghost predicate ReportOf(s: State, w: nat)
    requires w < |s.workers|
  {
    var g := s.workers[w];
    g.at < |s.produced| && s.produced[g.at].origin == Worker(w) && s.produced[g.at].job == g.job
  }

  /** A goroutine past its append has its result at the position it recorded. */
  ghost predicate ReportsAreProduced(s: State) {
    forall w :: 0 <= w < |s.workers| && s.workers[w].Reported() ==> ReportOf(s, w)
  }

  ghost predicate HasProducer(s: State, i: nat)
    requires i < |s.produced|
  {
    match s.produced[i].origin
    case Worker(w) => w < |s.workers| && s.workers[w].Reported() && s.workers[w].at == i
    case Gate(n) => n < |s.outcomes| && s.outcomes[n] == Refused(i)
  }

  /** Every result sits where its producer recorded it, so no producer has a second one. */
  ghost predicate ResultsHaveProducers(s: State) {
    forall i :: 0 <= i < |s.produced| ==> HasProducer(s, i)
  }

  /** Jobs of the current response that have no outcome yet. */
  function Unhandled(loop: Loop): (todo: seq<Incoming>) {
    match loop
    case Sent(_, response) => response
    case Handling(todo) => todo
    case Rejected(todo) => todo
    case Spawning(job, todo) => [Incoming(job, true)] + todo
    case _ => []
  }

  /** The outcome of received job `i` is its own: result and goroutine point back to it. */
  ghost predicate OutcomeFits(s: State, i: nat)
    requires i < |s.outcomes| <= |s.received|
  {
    match s.outcomes[i]
    case Refused(at) =>
      !s.received[i].admitted && at < |s.produced| && s.produced[at] == JobResult(s.received[i].job, 126, Gate(i))
    case Skipped(w) =>
      s.received[i].admitted && w < |s.workers| && s.workers[w].job == s.received[i].job && s.workers[w].source < i
    case Started(w) =>
      s.received[i].admitted && w < |s.workers| && s.workers[w].job == s.received[i].job && s.workers[w].source == i
  }

  /** Every received job has an outcome that fits or is still to be looked at, and every goroutine has its job. */
  ghost predicate JobsAccounted(s: State) {
    && |s.outcomes| <= |s.received| && s.received[|s.outcomes|..] == Unhandled(s.loop)
    && (forall i :: 0 <= i < |s.outcomes| ==> OutcomeFits(s, i))
    && (forall w :: 0 <= w < |s.workers| ==> HasJob(s, w))
  }

  ghost predicate HasJob(s: State, w: nat)
    requires w < |s.workers|
  {
    s.workers[w].source < |s.outcomes| && s.outcomes[s.workers[w].source] == Started(w)
  }

  function Holding(ws: seq<Goroutine>): (r: nat) {
    if ws == [] then 0 else Holding(ws[..|ws| - 1]) + (if ws[|ws| - 1].HoldsSlot() then 1 else 0)
  }

  ghost predicate SlotsBounded(s: State) {
    s.slotsUsed == Holding(s.workers) <= s.slotCount && s.slotCount > 0
  }

  lemma {:induction false} HoldingAfterUpdate(ws: seq<Goroutine>, w: nat, g: Goroutine)
    requires w < |ws|
    ensures Holding(ws[w := g]) + (if ws[w].HoldsSlot() then 1 else 0)
         == Holding(ws) + (if g.HoldsSlot() then 1 else 0)
  {
    var n := |ws| - 1;
    if w == n {
      assert ws[w := g][..n] == ws[..n];
    } else {
      assert ws[w := g][..n] == ws[..n][w := g];
      HoldingAfterUpdate(ws[..n], w, g);
    }
  }

  lemma {:induction false} NoneHolding(ws: seq<Goroutine>)
    requires forall w :: 0 <= w < |ws| ==> !ws[w].HoldsSlot()
    ensures Holding(ws) == 0
  {
    if ws == [] {
    } else {
      NoneHolding(ws[..|ws| - 1]);
    }
  }

  // ------------------------------------------------- each part is kept by a step

  lemma LoopConserves(s: State, e: Event)
    requires Conserved(s) && Enabled(s, e) && !e.OfWorker()
    ensures Conserved(LoopStep(s, e))
  {
    if e.DropAcknowledged? {
      DropConserves(s);
    }
  }

  lemma DropConserves(s: State)
    requires Conserved(s) && Enabled(s, DropAcknowledged)
    ensures Conserved(LoopStep(s, DropAcknowledged))
  {
    assert s.pending == s.loop.batch + s.pending[|s.loop.batch|..];
  }

  lemma {:induction false} RunConserves(s: State, es: seq<Event>)
    requires Conserved(s) && IsRun(s, es)
    ensures Conserved(After(s, es))
    decreases |es|
  {
    if es == [] {
    } else {
      if !es[0].OfWorker() {
        LoopConserves(s, es[0]);
      }
      RunConserves(Next(s, es[0]), es[1..]);
    }
  }

  lemma WorkerLosesNoWakeUp(s: State, e: Event)
    requires NoLostWakeUp(s) && Enabled(s, e) && e.OfWorker()
    ensures NoLostWakeUp(WorkerStep(s, e))
  {
    var t := WorkerStep(s, e);
    forall i | t.covered <= i < |t.produced|
      ensures t.nudge || t.loop.Woken? || Unannounced(t, i)
    {
      if i < |s.produced| {
        assert t.produced[i] == s.produced[i];
        assert s.nudge || s.loop.Woken? || Unannounced(s, i);
      }
    }
  }

  lemma LoopLosesNoWakeUp(s: State, e: Event)
    requires NoLostWakeUp(s) && Enabled(s, e) && !e.OfWorker()
    ensures NoLostWakeUp(LoopStep(s, e))
  {
    var t := LoopStep(s, e);
    forall i | t.covered <= i < |t.produced|
      ensures t.nudge || t.loop.Woken? || Unannounced(t, i)
    {
      if i < |s.produced| {
        assert t.produced[i] == s.produced[i];
        assert s.nudge || s.loop.Woken? || Unannounced(s, i);
      }
    }
  }

  lemma StepLosesNoWakeUp(s: State, e: Event)
    requires NoLostWakeUp(s) && Enabled(s, e)
    ensures NoLostWakeUp(Next(s, e))
  {
    if e.OfWorker() {
      WorkerLosesNoWakeUp(s, e);
    } else {
      LoopLosesNoWakeUp(s, e);
    }
  }

  lemma {:induction false} RunLosesNoWakeUp(s: State, es: seq<Event>)
    requires NoLostWakeUp(s) && IsRun(s, es)
    ensures NoLostWakeUp(After(s, es))
    decreases |es|
  {
    if es == [] {
    } else {
      StepLosesNoWakeUp(s, es[0]);
      RunLosesNoWakeUp(Next(s, es[0]), es[1..]);
    }
  }

  lemma LoopKeepsOwners(s: State, e: Event)
    requires OwnersMatch(s.workers, s.owner) && InFlightIsOwned(s) && Enabled(s, e) && !e.OfWorker()
    ensures OwnersMatch(LoopStep(s, e).workers, LoopStep(s, e).owner) && InFlightIsOwned(LoopStep(s, e))
  {
    if e.Spawn? {
      SpawnKeepsOwners(s);
    } else if e.NextJob? {
      HandlingKeepsOwners(s);
    }
  }

  lemma SpawnKeepsOwners(s: State)
    requires OwnersMatch(s.workers, s.owner) && InFlightIsOwned(s) && s.loop.Spawning?
    ensures OwnersMatch(LoopStep(s, Spawn).workers, LoopStep(s, Spawn).owner) && InFlightIsOwned(LoopStep(s, Spawn))
  {
    NewOwner(s.workers, s.owner, s.loop.job, |s.outcomes|);
  }

  lemma HandlingKeepsOwners(s: State)
    requires OwnersMatch(s.workers, s.owner) && InFlightIsOwned(s) && s.loop.Handling?
    ensures OwnersMatch(HandleOne(s).workers, HandleOne(s).owner) && InFlightIsOwned(HandleOne(s))
  {
    var t := HandleOne(s);
    assert t.workers == s.workers && t.owner == s.owner;
    if t.loop.Spawning? {
      assert t.loop.job !in s.inFlight;
    }
  }

  lemma NewOwner(ws: seq<Goroutine>, owner: map<JobId, nat>, job: JobId, source: nat)
    requires OwnersMatch(ws, owner) && job !in owner
    ensures OwnersMatch(ws + [Goroutine(job, source, Waiting, 0)], owner[job := |ws|])
  {}

  lemma WorkerKeepsOwners(s: State, e: Event)
    requires OwnersMatch(s.workers, s.owner) && InFlightIsOwned(s) && Enabled(s, e) && e.OfWorker()
    ensures OwnersMatch(WorkerStep(s, e).workers, WorkerStep(s, e).owner) && InFlightIsOwned(WorkerStep(s, e))
  {
    OwnerAdvances(s.workers, s.owner, e.worker, Advance(s, e));
  }

  lemma OwnerAdvances(ws: seq<Goroutine>, owner: map<JobId, nat>, w: nat, g: Goroutine)
    requires OwnersMatch(ws, owner) && w < |ws| && ws[w].Live() && g.job == ws[w].job
    ensures OwnersMatch(ws[w := g], if g.Live() then owner else owner - {g.job})
  {}

  lemma {:induction false} RunKeepsOwners(s: State, es: seq<Event>)
    requires OwnersMatch(s.workers, s.owner) && InFlightIsOwned(s) && IsRun(s, es)
    ensures OwnersMatch(After(s, es).workers, After(s, es).owner) && InFlightIsOwned(After(s, es))
    decreases |es|
  {
    if es == [] {
    } else {
      if es[0].OfWorker() {
        WorkerKeepsOwners(s, es[0]);
      } else {
        LoopKeepsOwners(s, es[0]);
      }
      RunKeepsOwners(Next(s, es[0]), es[1..]);
    }
  }

  lemma WorkerKeepsReports(s: State, e: Event)
    requires ReportsAreProduced(s) && Enabled(s, e) && e.OfWorker()
    ensures ReportsAreProduced(WorkerStep(s, e))
  {
    var t := WorkerStep(s, e);
    forall w | 0 <= w < |t.workers| && t.workers[w].Reported()
      ensures ReportOf(t, w)
    {
      if w == e.worker {
        assert e.Append? || ReportOf(s, w);
      } else {
        assert ReportOf(s, w);
      }
    }
  }

  lemma LoopKeepsReports(s: State, e: Event)
    requires ReportsAreProduced(s) && Enabled(s, e) && !e.OfWorker()
    ensures ReportsAreProduced(LoopStep(s, e))
  {
    var t := LoopStep(s, e);
    forall w | 0 <= w < |t.workers| && t.workers[w].Reported()
      ensures ReportOf(t, w)
    {
      assert t.workers[w] == s.workers[w] && ReportOf(s, w);
    }
  }

  lemma WorkerKeepsProducers(s: State, e: Event)
    requires ResultsHaveProducers(s) && Enabled(s, e) && e.OfWorker()
    ensures ResultsHaveProducers(WorkerStep(s, e))
  {
    var t := WorkerStep(s, e);
    forall i | 0 <= i < |t.produced|
      ensures HasProducer(t, i)
    {
      if i < |s.produced| {
        assert t.produced[i] == s.produced[i] && HasProducer(s, i);
      }
    }
  }

  lemma LoopKeepsProducers(s: State, e: Event)
    requires ResultsHaveProducers(s) && Enabled(s, e) && !e.OfWorker()
    ensures ResultsHaveProducers(LoopStep(s, e))
  {
    var t := LoopStep(s, e);
    forall i | 0 <= i < |t.produced|
      ensures HasProducer(t, i)
    {
      if i < |s.produced| {
        assert t.produced[i] == s.produced[i] && HasProducer(s, i);
      }
    }
  }

  lemma {:induction false} RunKeepsReports(s: State, es: seq<Event>)
    requires ReportsAreProduced(s) && ResultsHaveProducers(s) && IsRun(s, es)
    ensures ReportsAreProduced(After(s, es)) && ResultsHaveProducers(After(s, es))
    decreases |es|
  {
    if es == [] {
    } else {
      if es[0].OfWorker() {
        WorkerKeepsReports(s, es[0]);
        WorkerKeepsProducers(s, es[0]);
      } else {
        LoopKeepsReports(s, es[0]);
        LoopKeepsProducers(s, es[0]);
      }
      RunKeepsReports(Next(s, es[0]), es[1..]);
    }
  }

  lemma WorkerKeepsSlots(s: State, e: Event)
    requires SlotsBounded(s) && Enabled(s, e) && e.OfWorker()
    ensures SlotsBounded(WorkerStep(s, e))
  {
    HoldingAfterUpdate(s.workers, e.worker, Advance(s, e));
  }

  lemma LoopKeepsSlots(s: State, e: Event)
    requires SlotsBounded(s) && Enabled(s, e) && !e.OfWorker()
    ensures SlotsBounded(LoopStep(s, e))
  {
    if e.Spawn? {
      assert LoopStep(s, e).workers[..|s.workers|] == s.workers;
    }
  }

  lemma {:induction false} RunKeepsSlots(s: State, es: seq<Event>)
    requires SlotsBounded(s) && IsRun(s, es)
    ensures SlotsBounded(After(s, es)) && After(s, es).slotCount == s.slotCount
    decreases |es|
  {
    if es == [] {
    } else {
      if es[0].OfWorker() {
        WorkerKeepsSlots(s, es[0]);
      } else {
        LoopKeepsSlots(s, es[0]);
      }
      RunKeepsSlots(Next(s, es[0]), es[1..]);
    }
  }

  // ------------------------------------------------------------- main results

  /**
   No interleaving loses, reorders or repeats a result: all results so far are
   the removed ones followed by the pending ones, and what was removed had been
   delivered by a successful send, in the same order.
   */
  lemma ResultsAreConserved(configured: int, es: seq<Event>)
    requires IsRun(Init(configured), es)
    ensures var s := After(Init(configured), es);
      && s.produced == s.removed + s.pending
      && s.removed <= s.delivered <= s.produced
      && (!s.loop.Sent? ==> s.removed == s.delivered)
  {
    RunConserves(Init(configured), es);
    var s := After(Init(configured), es);
    if s.loop.Sent? {
      assert s.pending == s.loop.batch + s.pending[|s.loop.batch|..];
    }
  }

  /**
   A successful send delivers every result that was there at its snapshot,
   whatever the goroutines appended in the meantime.
   */
  lemma SendDeliversSnapshot(configured: int, es: seq<Event>, response: seq<Incoming>)
    requires IsRun(Init(configured), es)
    requires After(Init(configured), es).loop.Sending?
    ensures var s := After(Init(configured), es);
      && s.covered <= |s.produced|
      && Next(s, SendSucceeds(response)).delivered == s.produced[..s.covered]
  {
    RunConserves(Init(configured), es);
    SendDelivers(After(Init(configured), es));
  }

  lemma SendDelivers(s: State)
    requires Conserved(s) && s.loop.Sending?
    ensures s.covered <= |s.produced| && s.delivered + s.loop.batch == s.produced[..s.covered]
  {
    assert s.produced[..s.covered] == s.removed + s.pending[..|s.loop.batch|];
  }

  /**
   No lost wake-up: a result that no heartbeat has snapshotted yet has a token
   queued for it, or its producer is still to send one, or the loop is already
   on its way to the next snapshot.
   */
  lemma WakeUpIsNeverLost(configured: int, es: seq<Event>, i: nat)
    requires IsRun(Init(configured), es)
    requires After(Init(configured), es).covered <= i < |After(Init(configured), es).produced|
    ensures var s := After(Init(configured), es);
      s.nudge || s.loop.Woken? || Unannounced(s, i)
  {
    RunLosesNoWakeUp(Init(configured), es);
  }

  /**
   At most one live goroutine holds a job id, every id in flight has a
   goroutine (or is just about to), and no more goroutines hold a slot than
   there are slots.
   */
  lemma JobsAreExclusive(configured: int, es: seq<Event>)
    requires IsRun(Init(configured), es)
    ensures var s := After(Init(configured), es);
      && (forall v, w :: 0 <= v < w < |s.workers| && s.workers[v].Live() && s.workers[w].Live() ==>
            s.workers[v].job != s.workers[w].job)
      && (forall j :: j in s.inFlight <==>
            (s.loop.Spawning? && s.loop.job == j)
            || Held(s, j))
      && Holding(s.workers) <= (if configured <= 0 then 2 else configured)
  {
    RunKeepsOwners(Init(configured), es);
    RunKeepsSlots(Init(configured), es);
    var s := After(Init(configured), es);
    forall j | j in s.inFlight
      ensures (s.loop.Spawning? && s.loop.job == j)
        || Held(s, j)
    {
      if j in s.owner {
        assert s.workers[s.owner[j]].Live();
      }
    }
  }

  /**
   Exactly one result per goroutine whose id has left the in-flight set, unless
   the context ended before it got a slot, in which case none; and it is never
   gone without the one or the other.
   */
  lemma EndedJobReportedOnce(configured: int, es: seq<Event>, w: nat)
    requires IsRun(Init(configured), es)
    requires w < |After(Init(configured), es).workers|
    requires After(Init(configured), es).workers[w].phase.Gone?
    ensures var s := After(Init(configured), es);
      var mine := set i | 0 <= i < |s.produced| && s.produced[i].origin == Worker(w);
      if s.cancelled && !s.workers[w].phase.reported then mine == {}
      else exists i :: mine == {i} && s.produced[i].job == s.workers[w].job
  {
    RunKeepsReports(Init(configured), es);
    var s := After(Init(configured), es);
    UnreportedOnlyIfCancelled(Init(configured), es);
    var mine := set i | 0 <= i < |s.produced| && s.produced[i].origin == Worker(w);
    forall i | i in mine
      ensures i == s.workers[w].at && s.workers[w].Reported()
    {
      assert HasProducer(s, i);
    }
    if s.workers[w].phase.reported {
      assert ReportOf(s, w);
      assert mine == {s.workers[w].at};
    } else {
      assert Honest(s, w);
    }
  }

  /** A goroutine without a result gave up after cancellation, or is not past its append. */
  ghost predicate Honest(s: State, w: nat)
    requires w < |s.workers|
  {
    s.workers[w].phase.Abandoned? || s.workers[w].phase == Gone(false) ==> s.cancelled
  }

  lemma {:induction false} UnreportedOnlyIfCancelled(s: State, es: seq<Event>)
    requires IsRun(s, es)
    requires forall w :: 0 <= w < |s.workers| ==> Honest(s, w)
    ensures forall w :: 0 <= w < |After(s, es).workers| ==> Honest(After(s, es), w)
    decreases |es|
  {
    if es == [] {
    } else {
      StepStaysHonest(s, es[0]);
      UnreportedOnlyIfCancelled(Next(s, es[0]), es[1..]);
    }
  }

  lemma StepStaysHonest(s: State, e: Event)
    requires Enabled(s, e) && forall w :: 0 <= w < |s.workers| ==> Honest(s, w)
    ensures forall w :: 0 <= w < |Next(s, e).workers| ==> Honest(Next(s, e), w)
  {
    var t := Next(s, e);
    forall w | 0 <= w < |t.workers|
      ensures Honest(t, w)
    {
      if w < |s.workers| {
        assert Honest(s, w);
      }
    }
  }

  /** The history of `t` extends that of `s`. */
  ghost predicate Extends(s: State, t: State) {
    && s.received <= t.received && s.outcomes <= t.outcomes && s.produced <= t.produced
    && |s.workers| <= |t.workers|
    && forall w :: 0 <= w < |s.workers| ==>
         t.workers[w].job == s.workers[w].job && t.workers[w].source == s.workers[w].source
  }

  lemma FitsStays(s: State, t: State)
    requires JobsAccounted(s) && Extends(s, t) && |t.outcomes| <= |t.received|
    ensures forall i :: 0 <= i < |s.outcomes| ==> OutcomeFits(t, i)
    ensures forall w :: 0 <= w < |s.workers| ==> HasJob(t, w)
  {
    forall i | 0 <= i < |s.outcomes|
      ensures OutcomeFits(t, i)
    {
      assert OutcomeFits(s, i) && t.outcomes[i] == s.outcomes[i] && t.received[i] == s.received[i];
    }
    forall w | 0 <= w < |s.workers|
      ensures HasJob(t, w)
    {
      assert HasJob(s, w);
    }
  }

  lemma WorkerAccounts(s: State, e: Event)
    requires JobsAccounted(s) && Enabled(s, e) && e.OfWorker()
    ensures JobsAccounted(WorkerStep(s, e))
  {
    FitsStays(s, WorkerStep(s, e));
  }

  lemma LoopAccounts(s: State, e: Event)
    requires JobsAccounted(s) && OwnersMatch(s.workers, s.owner) && InFlightIsOwned(s)
    requires Enabled(s, e) && !e.OfWorker()
    ensures JobsAccounted(LoopStep(s, e))
  {
    if e.NextJob? {
      HandlingAccounts(s);
    } else if e.Spawn? {
      SpawnAccounts(s);
    } else {
      FitsStays(s, LoopStep(s, e));
    }
  }

  lemma HandlingAccounts(s: State)
    requires JobsAccounted(s) && OwnersMatch(s.workers, s.owner) && InFlightIsOwned(s) && s.loop.Handling?
    ensures JobsAccounted(HandleOne(s))
  {
    if s.loop.todo == [] {
      FitsStays(s, HandleOne(s));
    } else {
      FirstOfRest(s.received, |s.outcomes|, s.loop.todo);
      if !s.loop.todo[0].admitted {
        RefusalAccounts(s);
      } else if s.loop.todo[0].job in s.inFlight {
        SkipAccounts(s);
      } else {
        FitsStays(s, HandleOne(s));
        assert s.loop.todo == [Incoming(s.loop.todo[0].job, true)] + s.loop.todo[1..];
      }
    }
  }

  lemma FirstOfRest(all: seq<Incoming>, i: nat, rest: seq<Incoming>)
    requires i <= |all| && all[i..] == rest && rest != []
    ensures i < |all| && all[i] == rest[0] && all[i + 1..] == rest[1..]
  {
    assert all[i..][1..] == all[i + 1..];
  }

  lemma RefusalAccounts(s: State)
    requires JobsAccounted(s) && s.loop.Handling? && s.loop.todo != [] && !s.loop.todo[0].admitted
    ensures JobsAccounted(HandleOne(s))
  {
    FirstOfRest(s.received, |s.outcomes|, s.loop.todo);
    FitsStays(s, HandleOne(s));
    assert OutcomeFits(HandleOne(s), |s.outcomes|);
  }

  lemma SkipAccounts(s: State)
    requires JobsAccounted(s) && OwnersMatch(s.workers, s.owner) && InFlightIsOwned(s)
    requires s.loop.Handling? && s.loop.todo != [] && s.loop.todo[0].admitted && s.loop.todo[0].job in s.inFlight
    ensures JobsAccounted(HandleOne(s))
  {
    FirstOfRest(s.received, |s.outcomes|, s.loop.todo);
    FitsStays(s, HandleOne(s));
    assert HasJob(s, s.owner[s.loop.todo[0].job]);
    assert OutcomeFits(HandleOne(s), |s.outcomes|);
  }

  lemma SpawnAccounts(s: State)
    requires JobsAccounted(s) && s.loop.Spawning?
    ensures JobsAccounted(LoopStep(s, Spawn))
  {
    FirstOfRest(s.received, |s.outcomes|, Unhandled(s.loop));
    FitsStays(s, LoopStep(s, Spawn));
    assert OutcomeFits(LoopStep(s, Spawn), |s.outcomes|) && HasJob(LoopStep(s, Spawn), |s.workers|);
  }

  lemma {:induction false} RunAccounts(s: State, es: seq<Event>)
    requires JobsAccounted(s) && OwnersMatch(s.workers, s.owner) && InFlightIsOwned(s) && IsRun(s, es)
    ensures JobsAccounted(After(s, es))
    decreases |es|
  {
    if es == [] {
    } else {
      if es[0].OfWorker() {
        WorkerAccounts(s, es[0]);
        WorkerKeepsOwners(s, es[0]);
      } else {
        LoopAccounts(s, es[0]);
        LoopKeepsOwners(s, es[0]);
      }
      RunAccounts(Next(s, es[0]), es[1..]);
    }
  }

  /**
   No job of any response vanishes or is doubled. Each received job is still to
   be looked at or has exactly one outcome, its own: a rejection with a result
   of its own, a goroutine of its own, or a skip because of a goroutine started
   for an earlier job of the same id. Every goroutine and every result of the
   gate belongs to one received job.
   */
  lemma NoJobVanishes(configured: int, es: seq<Event>)
    requires IsRun(Init(configured), es)
    ensures var s := After(Init(configured), es);
      && |s.outcomes| <= |s.received| && s.received[|s.outcomes|..] == Unhandled(s.loop)
      && (forall i :: 0 <= i < |s.outcomes| ==> OutcomeFits(s, i))
      && (forall i, j :: 0 <= i < j < |s.outcomes| && !s.outcomes[i].Skipped? ==> s.outcomes[i] != s.outcomes[j])
      && (forall w :: 0 <= w < |s.workers| ==> HasJob(s, w))
      && (forall k :: 0 <= k < |s.produced| && s.produced[k].origin.Gate? ==>
            s.produced[k].origin.source < |s.outcomes| && s.outcomes[s.produced[k].origin.source] == Refused(k))
  {
    RunAccounts(Init(configured), es);
    RunKeepsReports(Init(configured), es);
    var s := After(Init(configured), es);
    forall i, j | 0 <= i < j < |s.outcomes| && !s.outcomes[i].Skipped?
      ensures s.outcomes[i] != s.outcomes[j]
    {
      assert OutcomeFits(s, i) && OutcomeFits(s, j);
    }
    forall k | 0 <= k < |s.produced| && s.produced[k].origin.Gate?
      ensures s.produced[k].origin.source < |s.outcomes| && s.outcomes[s.produced[k].origin.source] == Refused(k)
    {
      assert HasProducer(s, k);
    }
  }

  /** In every reachable state, a job is skipped exactly when it is admitted and a live goroutine holds its id. */
  lemma SkippedExactlyWhenHeld(configured: int, es: seq<Event>)
    requires IsRun(Init(configured), es)
    requires After(Init(configured), es).loop.Handling? && After(Init(configured), es).loop.todo != []
    ensures var s := After(Init(configured), es);
      var j, t := s.loop.todo[0], Next(s, NextJob);
      (|t.outcomes| > |s.outcomes| && t.outcomes[|s.outcomes|].Skipped?) <==> j.admitted && Held(s, j.job)
  {
    RunKeepsOwners(Init(configured), es);
    HeldMeansInFlight(After(Init(configured), es), After(Init(configured), es).loop.todo[0].job);
  }

  lemma HeldMeansInFlight(s: State, job: JobId)
    requires OwnersMatch(s.workers, s.owner) && InFlightIsOwned(s) && !s.loop.Spawning?
    ensures Held(s, job) <==> job in s.inFlight
  {
    if job in s.owner {
      assert s.workers[s.owner[job]].Live();
    }
  }

  /** A waiting job can start exactly when fewer goroutines hold a slot than are configured, two if none are. */
  lemma StartsExactlyWhenSlotIsFree(configured: int, es: seq<Event>, w: nat)
    requires IsRun(Init(configured), es) && At(After(Init(configured), es), w, Waiting)
    ensures Enabled(After(Init(configured), es), Acquire(w)) <==>
            Holding(After(Init(configured), es).workers) < (if configured <= 0 then 2 else configured)
  {
    RunKeepsSlots(Init(configured), es);
  }

  /** The drop after a send never runs past the queue: it can be taken in every reachable state that awaits it. */
  lemma DropIsAlwaysPossible(configured: int, es: seq<Event>)
    requires IsRun(Init(configured), es) && After(Init(configured), es).loop.Sent?
    ensures Enabled(After(Init(configured), es), DropAcknowledged)
  {
    RunConserves(Init(configured), es);
  }

  // ----------------------------------------------------------------- progress

  function StepsLeft(ws: seq<Goroutine>): (r: nat) {
    if ws == [] then 0 else StepsLeft(ws[..|ws| - 1]) + ws[|ws| - 1].StepsLeft()
  }

  lemma {:induction false} StepsLeftAfterUpdate(ws: seq<Goroutine>, w: nat, g: Goroutine)
    requires w < |ws|
    ensures StepsLeft(ws[w := g]) + ws[w].StepsLeft() == StepsLeft(ws) + g.StepsLeft()
  {
    var n := |ws| - 1;
    if w == n {
      assert ws[w := g][..n] == ws[..n];
    } else {
      assert ws[w := g][..n] == ws[..n][w := g];
      StepsLeftAfterUpdate(ws[..n], w, g);
    }
  }

  ghost predicate AllWorkerSteps(es: seq<Event>) {
    forall i :: 0 <= i < |es| ==> es[i].OfWorker()
  }

  lemma LaterAreWorkerSteps(es: seq<Event>)
    requires AllWorkerSteps(es) && es != []
    ensures AllWorkerSteps(es[1..])
  {
    assert forall i :: 0 <= i < |es[1..]| ==> es[1..][i] == es[i + 1];
  }

  lemma WorkerUsesStep(s: State, e: Event)
    requires Enabled(s, e) && e.OfWorker()
    ensures StepsLeft(WorkerStep(s, e).workers) < StepsLeft(s.workers)
  {
    StepsLeftAfterUpdate(s.workers, e.worker, Advance(s, e));
  }

  /** Goroutines cannot run for ever: their steps are bounded by those left. */
  lemma {:induction false} WorkersFinish(s: State, es: seq<Event>)
    requires AllWorkerSteps(es) && IsRun(s, es)
    ensures |es| <= StepsLeft(s.workers)
    decreases |es|
  {
    if es == [] {
    } else {
      WorkerUsesStep(s, es[0]);
      LaterAreWorkerSteps(es);
      WorkersFinish(Next(s, es[0]), es[1..]);
    }
  }

  /**
   A job over the limit waits, it never hangs: after any run, as long as some
   goroutine is live, some goroutine can take a step, with or without
   cancellation.
   */
  lemma WorkersNeverDeadlock(configured: int, es: seq<Event>, w: nat)
    requires IsRun(Init(configured), es)
    requires w < |After(Init(configured), es).workers| && After(Init(configured), es).workers[w].Live()
    ensures exists e: Event :: e.OfWorker() && Enabled(After(Init(configured), es), e)
  {
    RunKeepsSlots(Init(configured), es);
    SomeWorkerStep(After(Init(configured), es));
  }

  ghost predicate NoneLive(s: State) {
    forall w :: 0 <= w < |s.workers| ==> !s.workers[w].Live()
  }

  lemma SomeWorkerStep(s: State)
    requires SlotsBounded(s) && !NoneLive(s)
    ensures exists e: Event :: e.OfWorker() && Enabled(s, e)
  {
    var w :| 0 <= w < |s.workers| && s.workers[w].Live();
    if s.slotsUsed == 0 {
      SomeStep(s, w);
    } else if v :| 0 <= v < |s.workers| && s.workers[v].HoldsSlot() {
      SomeStep(s, v);
    } else {
      NoneHolding(s.workers);
    }
  }

  /**
   When the goroutines have nothing left to do, no id is left in flight (but
   for one about to start), and without cancellation every dispatched job has
   reported.
   */
  lemma QuietMeansReported(configured: int, es: seq<Event>)
    requires IsRun(Init(configured), es)
    requires forall e: Event :: e.OfWorker() ==> !Enabled(After(Init(configured), es), e)
    ensures var s := After(Init(configured), es);
      && s.inFlight <= (if s.loop.Spawning? then {s.loop.job} else {})
      && (!s.cancelled ==> forall w :: 0 <= w < |s.workers| ==> s.workers[w].Reported())
  {
    var s := After(Init(configured), es);
    forall w | 0 <= w < |s.workers|
      ensures !s.workers[w].Live()
    {
      if s.workers[w].Live() {
        WorkersNeverDeadlock(configured, es, w);
      }
    }
    RunKeepsOwners(Init(configured), es);
    UnreportedOnlyIfCancelled(Init(configured), es);
    forall w | 0 <= w < |s.workers| && !s.cancelled
      ensures s.workers[w].Reported()
    {
      assert Honest(s, w);
    }
  }

  lemma SomeStep(s: State, w: nat)
    requires SlotsBounded(s) && w < |s.workers| && s.workers[w].Live()
    requires s.slotsUsed == 0 || s.workers[w].HoldsSlot()
    ensures exists e: Event :: e.OfWorker() && Enabled(s, e)
  {
    var e := match s.workers[w].phase
      case Waiting => Acquire(w)
      case Running => Append(w, 0)
      case Appended => NudgeLoop(w)
      case Nudged => FreeSlot(w)
      case SlotFreed => Forget(w)
      case Abandoned => Forget(w)
      case Gone(_) => Forget(w);
    if s.workers[w].phase.Nudged? {
      if s.slotsUsed == 0 {
        HoldingAfterUpdate(s.workers, w, s.workers[w].(phase := SlotFreed));
      }
    }
    assert e.OfWorker() && Enabled(s, e);
  }

  // ----------------------------------------------------------------- delivery

  /** What the loop does next when its sends succeed and bring no new jobs. */
  function Onward(s: State): (e: Event)
    requires !s.loop.Stopped?
  {
    match s.loop
    case Idle => TimerFires
    case Woken => Snapshot
    case Sending(_) => SendSucceeds([])
    case Sent(_, _) => DropAcknowledged
    case Handling(_) => NextJob
    case Rejected(_) => NudgeForRejection
    case Spawning(_, _) => Spawn
  }

  /** Everything produced has been delivered, and no received job is waiting to be looked at. */
  predicate AllDelivered(s: State) {
    s.loop.Sent? && s.loop.response == [] && s.delivered == s.produced
  }

  /** Loop steps left before everything is delivered. */
  function LoopStepsLeft(s: State): (n: nat) {
    if AllDelivered(s) then 0 else
    match s.loop
    case Idle => 3
    case Woken => 2
    case Sending(_) => if s.covered == |s.produced| then 1 else 6
    case Sent(_, response) => 2 * |response| + 5
    case Handling(todo) => 2 * |todo| + 4
    case Rejected(todo) => 2 * |todo| + 5
    case Spawning(_, todo) => 2 * |todo| + 5
    case Stopped => 0
  }

  lemma OnwardIsEnabled(s: State)
    requires Conserved(s) && !s.loop.Stopped?
    ensures Enabled(s, Onward(s)) && !Onward(s).OfWorker()
    ensures !LoopStep(s, Onward(s)).loop.Stopped?
    ensures Unhandled(s.loop) == [] ==>
              Unhandled(LoopStep(s, Onward(s)).loop) == [] && LoopStep(s, Onward(s)).workers == s.workers
  {}

  lemma OnwardProgresses(s: State)
    requires Conserved(s) && !s.loop.Stopped? && !AllDelivered(s)
    ensures Enabled(s, Onward(s)) && LoopStepsLeft(LoopStep(s, Onward(s))) < LoopStepsLeft(s)
  {
    if s.loop.Sending? {
      SendDelivers(s);
      assert s.produced[..|s.produced|] == s.produced;
    }
  }

  /** Steps of the loop only, in which every send succeeds and brings no new jobs. */
  ghost predicate AllOnward(es: seq<Event>) {
    forall i :: 0 <= i < |es| ==> !es[i].OfWorker() && !es[i].Cancel? && !es[i].StopLoop? && !es[i].SendFails?
                                  && (es[i].SendSucceeds? ==> es[i].response == [])
  }

  function OnwardRun(s: State): (es: seq<Event>)
    requires Conserved(s) && !s.loop.Stopped?
    decreases LoopStepsLeft(s)
  {
    if AllDelivered(s) then [] else
    OnwardProgresses(s);
    OnwardIsEnabled(s);
    LoopConserves(s, Onward(s));
    [Onward(s)] + OnwardRun(LoopStep(s, Onward(s)))
  }

  lemma {:induction false} OnwardRunDelivers(s: State)
    requires Conserved(s) && !s.loop.Stopped?
    ensures var es := OnwardRun(s);
      && AllOnward(es) && |es| <= LoopStepsLeft(s) && IsRun(s, es) && AllDelivered(After(s, es))
      && (Unhandled(s.loop) == [] ==> After(s, es).workers == s.workers)
    decreases LoopStepsLeft(s)
  {
    if AllDelivered(s) {
    } else {
      var e, t := Onward(s), LoopStep(s, Onward(s));
      OnwardProgresses(s);
      OnwardIsEnabled(s);
      LoopConserves(s, e);
      OnwardRunDelivers(t);
      StepThenRun(s, e, OnwardRun(t));
      assert OnwardRun(s) == [e] + OnwardRun(t);
    }
  }

  /**
   Delivery can always finish: from every reachable state whose loop has not
   stopped, a bounded number of loop steps with successful sends delivers
   everything produced so far and by these steps.
   */
  lemma DeliveryCanFinish(configured: int, es: seq<Event>)
    requires IsRun(Init(configured), es) && !After(Init(configured), es).loop.Stopped?
    ensures var s := After(Init(configured), es);
      exists more :: AllOnward(more) && |more| <= LoopStepsLeft(s) && IsRun(s, more) && AllDelivered(After(s, more))
  {
    RunConserves(Init(configured), es);
    OnwardRunDelivers(After(Init(configured), es));
  }

  // ------------------------------------------------------- everything finishes

  /** The goroutines can run to their end, and the loop stays where it is meanwhile. */
  lemma {:induction false} WorkersCanFinish(s: State) returns (es: seq<Event>)
    requires SlotsBounded(s)
    ensures AllWorkerSteps(es) && IsRun(s, es) && NoneLive(After(s, es)) && After(s, es).loop == s.loop
    decreases StepsLeft(s.workers)
  {
    if NoneLive(s) {
      es := [];
    } else {
      SomeWorkerStep(s);
      var e: Event :| e.OfWorker() && Enabled(s, e);
      WorkerUsesStep(s, e);
      WorkerKeepsSlots(s, e);
      var rest := WorkersCanFinish(WorkerStep(s, e));
      StepThenRun(s, e, rest);
      AlsoWorkerSteps(e, rest);
      es := [e] + rest;
    }
  }

  lemma StepThenRun(s: State, e: Event, es: seq<Event>)
    requires Enabled(s, e) && IsRun(Next(s, e), es)
    ensures IsRun(s, [e] + es) && After(s, [e] + es) == After(Next(s, e), es)
  {
    assert ([e] + es)[1..] == es;
  }

  lemma AlsoWorkerSteps(e: Event, es: seq<Event>)
    requires e.OfWorker() && AllWorkerSteps(es)
    ensures AllWorkerSteps([e] + es)
  {}

  lemma {:induction false} RunsCompose(s: State, es: seq<Event>, more: seq<Event>)
    requires IsRun(s, es) && IsRun(After(s, es), more)
    ensures IsRun(s, es + more) && After(s, es + more) == After(After(s, es), more)
    decreases |es|
  {
    if es == [] {
      assert es + more == more;
    } else {
      assert (es + more)[1..] == es[1..] + more;
      RunsCompose(Next(s, es[0]), es[1..], more);
    }
  }

  /** Nothing is live, everything produced is delivered, no received job waits. */
  ghost predicate Finished(s: State) { NoneLive(s) && AllDelivered(s) }

  /** Deliver, let the goroutines end, deliver what they reported. */
  lemma CanFinish(s: State) returns (es: seq<Event>)
    requires Conserved(s) && SlotsBounded(s) && !s.loop.Stopped?
    ensures IsRun(s, es) && Finished(After(s, es))
  {
    var first := OnwardRun(s);
    OnwardRunDelivers(s);
    RunConserves(s, first);
    RunKeepsSlots(s, first);
    var second := FinishDelivered(After(s, first));
    RunsCompose(s, first, second);
    es := first + second;
  }

  lemma FinishDelivered(s: State) returns (es: seq<Event>)
    requires Conserved(s) && SlotsBounded(s) && AllDelivered(s)
    ensures IsRun(s, es) && Finished(After(s, es))
  {
    var first := WorkersCanFinish(s);
    RunConserves(s, first);
    var t := After(s, first);
    var second := OnwardRun(t);
    OnwardRunDelivers(t);
    RunsCompose(s, first, second);
    es := first + second;
  }

  /**
   Nothing ever gets stuck: every reachable state whose loop has not stopped can
   go on to one in which every goroutine has ended and every result is
   delivered.
   */
  lemma EverythingCanFinish(configured: int, es: seq<Event>)
    requires IsRun(Init(configured), es) && !After(Init(configured), es).loop.Stopped?
    ensures exists more :: IsRun(Init(configured), es + more) && Finished(After(Init(configured), es + more))
  {
    RunConserves(Init(configured), es);
    RunKeepsSlots(Init(configured), es);
    var more := CanFinish(After(Init(configured), es));
    RunsCompose(Init(configured), es, more);
  }

  /** Who answers for a received job with that outcome. */
  function Answerer(i: nat, outcome: Outcome): (origin: Origin)
    requires !outcome.Skipped?
  {
    match outcome
    case Refused(_) => Gate(i)
    case Started(w) => Worker(w)
  }

  /** And there, without cancellation, every received job that was not skipped has exactly one result, delivered. */
  lemma FinishedMeansReported(configured: int, es: seq<Event>, i: nat)
    requires IsRun(Init(configured), es) && Finished(After(Init(configured), es))
    requires !After(Init(configured), es).cancelled && i < |After(Init(configured), es).received|
    ensures var s := After(Init(configured), es);
      && i < |s.outcomes|
      && (!s.outcomes[i].Skipped? ==>
            var mine := set k | 0 <= k < |s.delivered| && s.delivered[k].origin == Answerer(i, s.outcomes[i]);
            exists k :: mine == {k} && s.delivered[k].job == s.received[i].job)
  {
    NoJobVanishes(configured, es);
    RunKeepsReports(Init(configured), es);
    UnreportedOnlyIfCancelled(Init(configured), es);
    var s := After(Init(configured), es);
    assert |s.received[|s.outcomes|..]| == 0;
    assert OutcomeFits(s, i);
    if !s.outcomes[i].Skipped? {
      var mine := set k | 0 <= k < |s.produced| && s.produced[k].origin == Answerer(i, s.outcomes[i]);
      var at := if s.outcomes[i].Refused? then s.outcomes[i].at else s.workers[s.outcomes[i].worker].at;
      if s.outcomes[i].Started? {
        assert Honest(s, s.outcomes[i].worker) && ReportOf(s, s.outcomes[i].worker);
      }
      forall k | k in mine
        ensures k == at
      {
        assert HasProducer(s, k);
      }
      assert mine == {at};
    }
  }

  // ---------------------------------------------------------- what is reported

  lemma WorkerExtends(s: State, e: Event)
    requires Enabled(s, e) && e.OfWorker()
    ensures Extends(s, WorkerStep(s, e))
  {}

  lemma LoopExtends(s: State, e: Event)
    requires Enabled(s, e) && !e.OfWorker()
    ensures Extends(s, LoopStep(s, e))
  {
    if e.NextJob? {
      HandlingExtends(s);
    }
  }

  lemma HandlingExtends(s: State)
    requires s.loop.Handling?
    ensures Extends(s, HandleOne(s))
  {
    assert HandleOne(s).workers == s.workers;
  }

  lemma {:induction false} RunExtends(s: State, es: seq<Event>)
    requires IsRun(s, es)
    ensures Extends(s, After(s, es))
    decreases |es|
  {
    if es == [] {
    } else {
      if es[0].OfWorker() {
        WorkerExtends(s, es[0]);
      } else {
        LoopExtends(s, es[0]);
      }
      RunExtends(Next(s, es[0]), es[1..]);
    }
  }

  /** A run can be cut at any point. */
  lemma {:induction false} RunSplits(s: State, es: seq<Event>, k: nat)
    requires IsRun(s, es) && k <= |es|
    ensures IsRun(s, es[..k]) && IsRun(After(s, es[..k]), es[k..])
    ensures After(s, es) == After(After(s, es[..k]), es[k..])
    decreases |es|
  {
    if k == 0 {
      assert es[..0] == [] && es[0..] == es;
    } else {
      RunSplits(Next(s, es[0]), es[1..], k - 1);
      assert es[..k][1..] == es[1..][..k - 1] && es[k..] == es[1..][k - 1..];
    }
  }

  lemma AppendPuts(s: State, w: nat, exitCode: int)
    requires Enabled(s, Append(w, exitCode))
    ensures var t := Next(s, Append(w, exitCode));
      && t.produced == s.produced + [JobResult(s.workers[w].job, exitCode, Worker(w))]
      && t.pending == s.pending + [JobResult(s.workers[w].job, exitCode, Worker(w))]
      && w < |t.workers| && t.workers[w].job == s.workers[w].job
  {}

  /**
   The exit code a job ends with is the one that is reported: for every append
   in a run there is exactly one result of that goroutine, it carries that job
   and that code, and in a finished state it is delivered.
   */
  lemma ReportedAsEnded(configured: int, es: seq<Event>, k: nat, w: nat, exitCode: int)
    requires IsRun(Init(configured), es) && k < |es| && es[k] == Append(w, exitCode)
    ensures var s := After(Init(configured), es);
      var mine := set i | 0 <= i < |s.produced| && s.produced[i].origin == Worker(w);
      && w < |s.workers|
      && (exists i :: mine == {i} && s.produced[i] == JobResult(s.workers[w].job, exitCode, Worker(w)))
      && (Finished(s) ==> JobResult(s.workers[w].job, exitCode, Worker(w)) in s.delivered)
  {
    var init := Init(configured);
    RunSplits(init, es, k);
    var before, later := After(init, es[..k]), es[k..];
    assert later[0] == Append(w, exitCode);
    AppendPuts(before, w, exitCode);
    RunExtends(Next(before, later[0]), later[1..]);
    RunKeepsReports(init, es);
    var s, at := After(init, es), |before.produced|;
    assert s.produced[at] == JobResult(s.workers[w].job, exitCode, Worker(w));
    OnlyResult(s, at, w);
  }

  /** A goroutine has one result at most. */
  lemma OnlyResult(s: State, at: nat, w: nat)
    requires ResultsHaveProducers(s) && at < |s.produced| && s.produced[at].origin == Worker(w)
    ensures (set i | 0 <= i < |s.produced| && s.produced[i].origin == Worker(w)) == {at}
  {
    assert HasProducer(s, at);
    forall i | 0 <= i < |s.produced| && s.produced[i].origin == Worker(w)
      ensures i == at
    {
      assert HasProducer(s, i);
    }
  }

  // -------------------------------------------------------------- wake-up tokens

  function Count(es: seq<Event>, p: Event -> bool): (n: nat) {
    if es == [] then 0 else Count(es[1..], p) + One(p(es[0]))
  }

  function One(b: bool): (n: nat) { if b then 1 else 0 }

  const TAKES: Event -> bool := (e: Event) => e.TakeNudge?
  const NUDGES: Event -> bool := (e: Event) => e.NudgeLoop? || e.NudgeForRejection?
  const SIGNALS: Event -> bool := (e: Event) => e.TimerFires? || e.TakeNudge?
  const SNAPSHOTS: Event -> bool := (e: Event) => e.Snapshot?

  lemma {:induction false} TokensBalance(s: State, es: seq<Event>)
    requires IsRun(s, es)
    ensures Count(es, TAKES) + One(After(s, es).nudge) <= Count(es, NUDGES) + One(s.nudge)
    ensures Count(es, SNAPSHOTS) + One(After(s, es).loop.Woken?) <= Count(es, SIGNALS) + One(s.loop.Woken?)
    decreases |es|
  {
    if es == [] {
    } else {
      TokenStep(s, es[0]);
      SignalStep(s, es[0]);
      TokensBalance(Next(s, es[0]), es[1..]);
    }
  }

  lemma TokenStep(s: State, e: Event)
    requires Enabled(s, e)
    ensures One(TAKES(e)) + One(Next(s, e).nudge) <= One(NUDGES(e)) + One(s.nudge)
  {}

  lemma SignalStep(s: State, e: Event)
    requires Enabled(s, e)
    ensures One(SNAPSHOTS(e)) + One(Next(s, e).loop.Woken?) <= One(SIGNALS(e)) + One(s.loop.Woken?)
  {}

  /**
   The loop is never woken for nothing: in every run there are at most as many
   early wake-ups as nudges, and apart from the first no heartbeat without a
   timer or a nudge before it. So a failed send waits for the next signal.
   */
  lemma NoSpuriousWakeUp(configured: int, es: seq<Event>)
    requires IsRun(Init(configured), es)
    ensures Count(es, TAKES) <= Count(es, NUDGES)
    ensures Count(es, SNAPSHOTS) <= 1 + Count(es, SIGNALS)
  {
    TokensBalance(Init(configured), es);
  }

  ghost predicate NoTake(es: seq<Event>) {
    forall i :: 0 <= i < |es| ==> !es[i].TakeNudge?
  }

  /** Some nudge has no early wake-up after it. */
  ghost predicate NudgePending(es: seq<Event>) {
    exists i :: 0 <= i < |es| && NUDGES(es[i]) && NoTake(es[i + 1..])
  }

  lemma FirstOrLater(es: seq<Event>)
    requires es != []
    ensures NoTake(es) <==> !es[0].TakeNudge? && NoTake(es[1..])
    ensures NudgePending(es) <==> (NUDGES(es[0]) && NoTake(es[1..])) || NudgePending(es[1..])
  {
    var rest := es[1..];
    assert forall i :: 0 <= i < |rest| ==> rest[i] == es[i + 1] && rest[i + 1..] == es[i + 2..];
    if i :| 0 <= i < |es| && NUDGES(es[i]) && NoTake(es[i + 1..]) {
      assert i == 0 || (NUDGES(rest[i - 1]) && NoTake(rest[i..]));
    }
    if i :| 0 <= i < |rest| && NUDGES(rest[i]) && NoTake(rest[i + 1..]) {
      assert NUDGES(es[i + 1]) && NoTake(es[i + 2..]);
    }
  }

  lemma {:induction false} TokenFollows(s: State, es: seq<Event>)
    requires IsRun(s, es)
    ensures After(s, es).nudge <==> NudgePending(es) || (s.nudge && NoTake(es))
    decreases |es|
  {
    if es == [] {
    } else {
      FirstOrLater(es);
      TokenStays(s, es[0]);
      TokenFollows(Next(s, es[0]), es[1..]);
    }
  }

  lemma TokenStays(s: State, e: Event)
    requires Enabled(s, e)
    ensures Next(s, e).nudge <==> NUDGES(e) || (s.nudge && !e.TakeNudge?)
  {}

  /** A token is queued exactly when no early wake-up has come since the last nudge: nothing else takes it. */
  lemma TokenQueuedExactlyWhen(configured: int, es: seq<Event>)
    requires IsRun(Init(configured), es)
    ensures After(Init(configured), es).nudge <==> NudgePending(es)
  {
    TokenFollows(Init(configured), es);
  }

  /** A stopped loop stays stopped: it delivers, removes and starts nothing any more. */
  lemma {:induction false} StoppedIsFinal(s: State, es: seq<Event>)
    requires s.loop.Stopped? && IsRun(s, es)
    ensures var t := After(s, es);
      t.loop.Stopped? && t.delivered == s.delivered && t.removed == s.removed && |t.workers| == |s.workers|
    decreases |es|
  {
    if es == [] {
    } else {
      StoppedIsFinal(Next(s, es[0]), es[1..]);
    }
  }

  /** It stops exactly at the step that says so. */
  lemma StopsExactlyWhenTold(s: State, e: Event)
    requires Enabled(s, e) && !s.loop.Stopped?
    ensures Next(s, e).loop.Stopped? <==> e.StopLoop?
  {}

  /** Cancellation is never taken back, and only its own step brings it about. */
  lemma CancelledExactlyWhenTold(s: State, e: Event)
    requires Enabled(s, e)
    ensures Next(s, e).cancelled <==> s.cancelled || e.Cancel?
  {}
}
