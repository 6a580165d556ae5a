/**
 The concurrency guard of the privileged broker: a shared counter incremented
 before the limit is tested, and decremented by a refused or finished call.
 */
module BrokerGuard {

  const MAX_CONCURRENT: int := 2

  /** A call: not yet counted, executing, refused but still counted, or over. */
  datatype Call = Arriving | Executing | Refused | Over

  datatype State = State(inFlight: int, calls: seq<Call>)

  datatype Event = Arrive | Enter(call: nat) | Undo(call: nat) | Finish(call: nat)

  predicate Enabled(s: State, e: Event) {
    match e
    case Arrive => true
    case Enter(c) => c < |s.calls| && s.calls[c] == Arriving
    case Undo(c) => c < |s.calls| && s.calls[c] == Refused
    case Finish(c) => c < |s.calls| && s.calls[c] == Executing
  }

  /** The increment and the test of its result are one atomic step, the decrements others. */
  function Next(s: State, e: Event): (r: State)
    requires Enabled(s, e)
  {
    match e
    case Arrive => s.(calls := s.calls + [Arriving])
    case Enter(c) =>
      var n := s.inFlight + 1;
      State(n, s.calls[c := if n > MAX_CONCURRENT then Refused else Executing])
    case Undo(c) => State(s.inFlight - 1, s.calls[c := Over])
    case Finish(c) => State(s.inFlight - 1, s.calls[c := Over])
  }

  predicate IsRun(s: State, es: seq<Event>)
    decreases |es|
  {
    es != [] ==> Enabled(s, es[0]) && IsRun(Next(s, es[0]), es[1..])
  }

  function After(s: State, es: seq<Event>): (r: State)
    requires IsRun(s, es)
    decreases |es|
  {
    if es == [] then s else After(Next(s, es[0]), es[1..])
  }

  function Tally(calls: seq<Call>, kind: Call): (r: nat) {
    if calls == [] then 0 else
    Tally(calls[..|calls| - 1], kind) + (if calls[|calls| - 1] == kind then 1 else 0)
  }

  ghost predicate Inv(s: State) {
    && s.inFlight == Tally(s.calls, Executing) + Tally(s.calls, Refused)
    && Tally(s.calls, Executing) <= MAX_CONCURRENT
  }

  lemma {:induction false} TallyAfterUpdate(calls: seq<Call>, c: nat, to: Call, kind: Call)
    requires c < |calls|
    ensures Tally(calls[c := to], kind) + (if calls[c] == kind then 1 else 0)
         == Tally(calls, kind) + (if to == kind then 1 else 0)
  {
    var n := |calls| - 1;
    if c == n {
      assert calls[c := to][..n] == calls[..n];
    } else {
      assert calls[c := to][..n] == calls[..n][c := to];
      TallyAfterUpdate(calls[..n], c, to, kind);
    }
  }

  lemma StepKeepsInv(s: State, e: Event)
    requires Inv(s) && Enabled(s, e)
    ensures Inv(Next(s, e))
  {
    var t := Next(s, e);
    if e.Arrive? {
      assert t.calls[..|s.calls|] == s.calls;
    } else {
      TallyAfterUpdate(s.calls, e.call, t.calls[e.call], Executing);
      TallyAfterUpdate(s.calls, e.call, t.calls[e.call], Refused);
    }
  }

  lemma {:induction false} RunKeepsInv(s: State, es: seq<Event>)
    requires Inv(s) && IsRun(s, es)
    ensures Inv(After(s, es))
    decreases |es|
  {
    if es == [] {
    } else {
      StepKeepsInv(s, es[0]);
      RunKeepsInv(Next(s, es[0]), es[1..]);
    }
  }

  lemma {:induction false} NoneAmong(calls: seq<Call>, kind: Call)
    requires kind !in calls
    ensures Tally(calls, kind) == 0
  {
    if calls == [] {
    } else {
      NoneAmong(calls[..|calls| - 1], kind);
    }
  }

  /**
   In every interleaving at most two operations execute, the counter is the
   executing calls plus the refused ones still to undo their increment, and it
   is back to zero when none is active.
   */
  lemma GuardHolds(es: seq<Event>)
    requires IsRun(State(0, []), es)
    ensures var s := After(State(0, []), es);
      && Tally(s.calls, Executing) <= 2
      && s.inFlight == Tally(s.calls, Executing) + Tally(s.calls, Refused)
      && ((forall c :: 0 <= c < |s.calls| ==> s.calls[c] == Arriving || s.calls[c] == Over) ==> s.inFlight == 0)
  {
    RunKeepsInv(State(0, []), es);
    var s := After(State(0, []), es);
    if forall c :: 0 <= c < |s.calls| ==> s.calls[c] == Arriving || s.calls[c] == Over {
      NoneAmong(s.calls, Executing);
      NoneAmong(s.calls, Refused);
    }
  }

  /**
   A call is refused exactly when executing and refused calls together fill the
   limit, so it can be refused while fewer than two operations execute.
   */
  lemma RefusedExactlyWhen(es: seq<Event>, c: nat)
    requires IsRun(State(0, []), es) && Enabled(After(State(0, []), es), Enter(c))
    ensures var s := After(State(0, []), es);
      Next(s, Enter(c)).calls[c] == Refused <==>
        Tally(s.calls, Executing) + Tally(s.calls, Refused) >= 2
  {
    RunKeepsInv(State(0, []), es);
  }

  /** Four calls arrive; three enter, of which the third is refused; the first finishes. */
  const ARRIVALS: seq<Event> := [Arrive] + ([Arrive] + ([Arrive] + [Arrive]))
  const ENTRIES: seq<Event> := [Enter(0)] + ([Enter(1)] + ([Enter(2)] + [Finish(0)]))

  /** A run after which one operation executes, and yet the next call is refused. */
  lemma CanRefuseBelowLimit()
    ensures IsRun(State(0, []), ARRIVALS + ENTRIES)
    ensures var s := After(State(0, []), ARRIVALS + ENTRIES);
      && Tally(s.calls, Executing) == 1 && Enabled(s, Enter(3))
      && Next(s, Enter(3)).calls[3] == Refused
  {
    FourArrive();
    ThreeEnter();
    RunsCompose(State(0, []), ARRIVALS, ENTRIES);
    var crowded := [Over, Executing, Refused, Arriving];
    TallyAfterUpdate([Over, Over, Refused, Arriving], 1, Executing, Executing);
    assert [Over, Over, Refused, Arriving][1 := Executing] == crowded;
    NoneAmong([Over, Over, Refused, Arriving], Executing);
  }

  lemma StepThenRun(s: State, e: Event, es: seq<Event>)
    requires Enabled(s, e) && IsRun(Next(s, e), es)
    ensures IsRun(s, [e] + es) && After(s, [e] + es) == After(Next(s, e), es)
  {
    assert ([e] + es)[1..] == es;
  }

  lemma OneStep(s: State, e: Event)
    requires Enabled(s, e)
    ensures IsRun(s, [e]) && After(s, [e]) == Next(s, e)
  {
    assert [e][1..] == [];
  }

  lemma FourArrive()
    ensures IsRun(State(0, []), ARRIVALS)
    ensures After(State(0, []), ARRIVALS) == State(0, [Arriving, Arriving, Arriving, Arriving])
  {
    var s1, s2, s3 := State(0, [Arriving]), State(0, [Arriving, Arriving]), State(0, [Arriving, Arriving, Arriving]);
    var s4 := State(0, [Arriving, Arriving, Arriving, Arriving]);
    assert Next(s3, Arrive) == s4 && Next(s2, Arrive) == s3 && Next(s1, Arrive) == s2;
    assert Next(State(0, []), Arrive) == s1;
    OneStep(s3, Arrive);
    StepThenRun(s2, Arrive, [Arrive]);
    StepThenRun(s1, Arrive, [Arrive] + [Arrive]);
    StepThenRun(State(0, []), Arrive, [Arrive] + ([Arrive] + [Arrive]));
  }

  lemma ThreeEnter()
    ensures IsRun(State(0, [Arriving, Arriving, Arriving, Arriving]), ENTRIES)
    ensures After(State(0, [Arriving, Arriving, Arriving, Arriving]), ENTRIES)
         == State(2, [Over, Executing, Refused, Arriving])
  {
    var s0 := State(0, [Arriving, Arriving, Arriving, Arriving]);
    var s1 := State(1, [Executing, Arriving, Arriving, Arriving]);
    var s2 := State(2, [Executing, Executing, Arriving, Arriving]);
    var s3 := State(3, [Executing, Executing, Refused, Arriving]);
    assert Next(s3, Finish(0)) == State(2, [Over, Executing, Refused, Arriving]);
    assert Next(s2, Enter(2)) == s3 && Next(s1, Enter(1)) == s2 && Next(s0, Enter(0)) == s1;
    OneStep(s3, Finish(0));
    StepThenRun(s2, Enter(2), [Finish(0)]);
    StepThenRun(s1, Enter(1), [Enter(2)] + [Finish(0)]);
    StepThenRun(s0, Enter(0), [Enter(1)] + ([Enter(2)] + [Finish(0)]));
  }

  lemma {:induction false} RunsCompose(s: State, es: seq<Event>, more: seq<Event>)
    requires IsRun(s, es)
    ensures IsRun(s, es + more) <==> IsRun(After(s, es), more)
    ensures IsRun(s, es + more) ==> After(s, es + more) == After(After(s, es), more)
    decreases |es|
  {
    if es == [] {
      assert es + more == more;
    } else {
      assert (es + more)[1..] == es[1..] + more;
      RunsCompose(Next(s, es[0]), es[1..], more);
    }
  }

  // ------------------------------------------------------------- one call, once

  predicate IsOf(e: Event, c: nat) {
    match e
    case Arrive => false
    case Enter(d) => d == c
    case Undo(d) => d == c
    case Finish(d) => d == c
  }

  /** How many events of a run are steps of one call. */
  function StepsOf(es: seq<Event>, c: nat): (n: nat) {
    if es == [] then 0 else (if IsOf(es[0], c) then 1 else 0) + StepsOf(es[1..], c)
  }

  /** Steps a call has taken: none before it enters, two when it is over. */
  function Taken(s: State, c: nat): (n: nat) {
    if c >= |s.calls| then 0 else
    match s.calls[c]
    case Arriving => 0
    case Executing => 1
    case Refused => 1
    case Over => 2
  }

  lemma {:induction false} StepsAreTaken(s: State, es: seq<Event>, c: nat)
    requires IsRun(s, es)
    ensures Taken(After(s, es), c) == Taken(s, c) + StepsOf(es, c)
    decreases |es|
  {
    if es == [] {
    } else {
      StepsAreTaken(Next(s, es[0]), es[1..], c);
    }
  }

  /**
   No call is counted twice or comes back: in every run it takes one step until
   it executes or is refused and a second one, its last, when it ends.
   */
  lemma EachCallOnce(es: seq<Event>, c: nat)
    requires IsRun(State(0, []), es)
    ensures StepsOf(es, c) == Taken(After(State(0, []), es), c) <= 2
  {
    StepsAreTaken(State(0, []), es, c);
  }
}
