/**
 Whole runs of the job gate against one replay memory, under a clock that
 never goes back: how often one signed envelope can get past the signature and
 nonce stage, given that every insert prunes the memory.
 */
module ReplayWindow {
  import opened Common
  import opened Replay
  import opened JobGate

  /** One passage of a job through the gate; keys and policy may differ from call to call. */
  datatype Call = Call(agent: Agent, job: Job, readings: Readings)

  /** The readings of a call follow `from` and one another. */
  predicate InOrder(r: Readings, from: int) {
    from <= r.now <= r.envelope.insertAt <= r.envelope.pruneAt <= r.claim.insertAt <= r.claim.pruneAt
  }

  function End(r: Readings): (result: int) { r.claim.pruneAt }

  predicate ClockForward(calls: seq<Call>, from: int) {
    calls != [] ==> InOrder(calls[0].readings, from) && ClockForward(calls[1..], End(calls[0].readings))
  }

  function TableAfterCall(c: Call, t: Table): (r: Table) {
    Judge(c.agent, c.job, c.readings, t).table
  }

  function TableAfter(calls: seq<Call>, t: Table): (r: Table) {
    if calls == [] then t else TableAfter(calls[1..], TableAfterCall(calls[0], t))
  }

  function ClockAfter(calls: seq<Call>, from: int): (r: int) {
    if calls == [] then from else ClockAfter(calls[1..], End(calls[0].readings))
  }

  /** The call presents `e`, its signature and window hold, and its nonce is new. */
  predicate Passes(c: Call, t: Table, e: Envelope) {
    && c.agent.enforce && Bound(c.agent, c.job).None? && TheEnvelope(c.agent, c.job) == e
    && Verify(c.agent.codec, c.agent.verifier, e, c.agent.id, c.readings.now).None?
    && MarkResult(t, e.nonce, c.readings.envelope) == Fresh
  }

  /** Admission implies having passed that stage. */
  lemma AdmittedPasses(c: Call, t: Table)
    requires c.agent.enforce && Judge(c.agent, c.job, c.readings, t).rejected.None?
    ensures Bound(c.agent, c.job).None? && Passes(c, t, TheEnvelope(c.agent, c.job))
  {}

  /** 25 hours less 30 seconds: the longest lifetime the replay memory covers. */
  const COVERED_LIFETIME: int := 89_970

  // ------------------------------------------------------------- at most once

  /** The nonce is still remembered, or the clock is past its retention. */
  predicate Retained(t: Table, clock: int, nonce: string, seenAt: int) {
    (nonce in t && t[nonce].seenAt >= seenAt) || Unix(clock) > seenAt + RETENTION_SECONDS
  }

  lemma MarkRetains(t: Table, nonce: string, jobId: string, m: Marking, clock: int, mine: string, seenAt: int)
    requires Retained(t, clock, mine, seenAt) && clock <= m.insertAt <= m.pruneAt
    ensures Retained(MarkTable(t, nonce, jobId, m), m.pruneAt, mine, seenAt)
  {
    assert Unix(m.pruneAt - RETENTION_SECONDS * SECOND) == Unix(m.pruneAt) - RETENTION_SECONDS;
  }

  lemma LaterRetains(t: Table, clock: int, later: int, mine: string, seenAt: int)
    requires Retained(t, clock, mine, seenAt) && clock <= later
    ensures Retained(t, later, mine, seenAt)
  {}

  lemma GrantsRetain(c: Call, t: Table, clock: int, mine: string, seenAt: int)
    requires Bound(c.agent, c.job).None? && c.agent.verifier.Some?
    requires clock <= c.readings.claim.insertAt <= c.readings.claim.pruneAt
    requires Retained(t, clock, mine, seenAt)
    ensures Retained(AfterNonce(c.agent, c.job, c.readings, t).table, End(c.readings), mine, seenAt)
  {
    LaterRetains(t, clock, End(c.readings), mine, seenAt);
    if CLAIM_KEY in c.job.params {
      var claim := c.agent.codec.decodeClaim(c.job.params[CLAIM_KEY]);
      if claim.Some? {
        MarkRetains(t, ClaimNonce(claim.value), claim.value.jobId, c.readings.claim, clock, mine, seenAt);
      }
    }
  }

  lemma CallRetains(c: Call, t: Table, from: int, mine: string, seenAt: int)
    requires InOrder(c.readings, from) && Retained(t, from, mine, seenAt)
    ensures Retained(TableAfterCall(c, t), End(c.readings), mine, seenAt)
  {
    var r := c.readings;
    LaterRetains(t, from, End(r), mine, seenAt);
    if c.agent.enforce && Bound(c.agent, c.job).None? {
      var e := TheEnvelope(c.agent, c.job);
      if Verify(c.agent.codec, c.agent.verifier, e, c.agent.id, r.now).None? {
        var u := MarkTable(t, e.nonce, e.jobId, r.envelope);
        MarkRetains(t, e.nonce, e.jobId, r.envelope, from, mine, seenAt);
        LaterRetains(u, r.envelope.pruneAt, End(r), mine, seenAt);
        GrantsRetain(c, u, r.envelope.pruneAt, mine, seenAt);
      }
    }
  }

  lemma {:induction false} RunRetains(calls: seq<Call>, n: nat, t: Table, from: int, mine: string, seenAt: int)
    requires ClockForward(calls, from) && n <= |calls| && Retained(t, from, mine, seenAt)
    ensures Retained(TableAfter(calls[..n], t), ClockAfter(calls[..n], from), mine, seenAt)
  {
    if n == 0 {
    } else {
      CallRetains(calls[0], t, from, mine, seenAt);
      RunRetains(calls[1..], n - 1, TableAfterCall(calls[0], t), End(calls[0].readings), mine, seenAt);
      assert calls[..n][1..] == calls[1..][..n - 1];
    }
  }

  lemma PassingIsRemembered(c: Call, t: Table, from: int, e: Envelope)
    requires InOrder(c.readings, from) && Passes(c, t, e)
    ensures Retained(TableAfterCall(c, t), End(c.readings), e.nonce, Unix(c.readings.envelope.insertAt))
  {
    var r := c.readings;
    var seenAt := Unix(r.envelope.insertAt);
    var u := Inserted(t, e.nonce, e.jobId, r.envelope.insertAt);
    MarkRetains(u, e.nonce, e.jobId, r.envelope, r.envelope.insertAt, e.nonce, seenAt);
    assert MarkTable(u, e.nonce, e.jobId, r.envelope) == MarkTable(t, e.nonce, e.jobId, r.envelope);
    GrantsRetain(c, MarkTable(t, e.nonce, e.jobId, r.envelope), r.envelope.pruneAt, e.nonce, seenAt);
  }

  /** What is remembered after call `i` is still remembered before call `j`, or past its retention. */
  lemma {:induction false} RetainedBetween(calls: seq<Call>, t: Table, from: int, i: nat, j: nat,
                                          mine: string, seenAt: int)
    requires ClockForward(calls, from) && i < j < |calls|
    requires Retained(TableAfterCall(calls[i], TableAfter(calls[..i], t)), End(calls[i].readings), mine, seenAt)
    ensures Retained(TableAfter(calls[..j], t), ClockAfter(calls[..j], from), mine, seenAt)
  {
    var first, rest := calls[0], calls[1..];
    assert calls[..j][1..] == rest[..j - 1];
    if i > 0 {
      assert calls[..i][1..] == rest[..i - 1];
      RetainedBetween(rest, TableAfterCall(first, t), End(first.readings), i - 1, j - 1, mine, seenAt);
    } else {
      RunRetains(rest, j - 1, TableAfterCall(first, t), End(first.readings), mine, seenAt);
    }
  }

  lemma {:induction false} CallInOrder(calls: seq<Call>, n: nat, from: int)
    requires ClockForward(calls, from) && n < |calls|
    ensures InOrder(calls[n].readings, ClockAfter(calls[..n], from))
  {
    if n == 0 {
    } else {
      CallInOrder(calls[1..], n - 1, End(calls[0].readings));
      assert calls[..n][1..] == calls[1..][..n - 1];
    }
  }

  /**
   In every run, from any table, with any other jobs, claims, prunes and store
   failures in between: if one envelope passes at two positions, its lifetime
   exceeds 25 h - 30 s. So every envelope of at most that lifetime passes at
   most once.
   */
  lemma PassesAtMostOnce(calls: seq<Call>, t: Table, from: int, i: nat, j: nat, e: Envelope)
    requires ClockForward(calls, from) && i < j < |calls|
    requires Passes(calls[i], TableAfter(calls[..i], t), e)
    requires Passes(calls[j], TableAfter(calls[..j], t), e)
    ensures e.expiresAt - e.issuedAt > COVERED_LIFETIME
  {
    var seenAt := Unix(calls[i].readings.envelope.insertAt);
    CallInOrder(calls, i, from);
    PassingIsRemembered(calls[i], TableAfter(calls[..i], t), ClockAfter(calls[..i], from), e);
    RetainedBetween(calls, t, from, i, j, e.nonce, seenAt);
    CallInOrder(calls, j, from);
    PassingIsInWindow(calls[i], TableAfter(calls[..i], t), ClockAfter(calls[..i], from), e);
    ForgottenBeforePassing(calls[j], TableAfter(calls[..j], t), ClockAfter(calls[..j], from), e, seenAt);
  }

  lemma PassingIsInWindow(c: Call, t: Table, clock: int, e: Envelope)
    requires InOrder(c.readings, clock) && Passes(c, t, e)
    ensures e.issuedAt - CLOCK_SKEW <= Unix(c.readings.now) <= Unix(c.readings.envelope.insertAt)
  {}

  lemma ForgottenBeforePassing(c: Call, t: Table, clock: int, e: Envelope, seenAt: int)
    requires InOrder(c.readings, clock) && Retained(t, clock, e.nonce, seenAt) && Passes(c, t, e)
    ensures seenAt + RETENTION_SECONDS < Unix(c.readings.now) <= e.expiresAt
  {}

  // ---------------------------------------------------------- approval claims

  /** The replay memory between the envelope's nonce and the claim's. */
  function AfterEnvelope(c: Call, t: Table): (r: Table)
    requires Bound(c.agent, c.job).None?
  {
    var e := TheEnvelope(c.agent, c.job);
    MarkTable(t, e.nonce, e.jobId, c.readings.envelope)
  }

  /** The call gets as far as the claim, which is `claim`, and the claim is honoured. */
  ghost predicate HonoursClaim(c: Call, t: Table, claim: Claim) {
    && Bound(c.agent, c.job).None? && Passes(c, t, TheEnvelope(c.agent, c.job))
    && Required(c.agent.codec, c.job) <= SetOf(TheEnvelope(c.agent, c.job).requestedCapabilities)
    && CLAIM_KEY in c.job.params && c.agent.codec.decodeClaim(c.job.params[CLAIM_KEY]) == Some(claim)
    && ClaimHolds(c.agent, c.job, TheEnvelope(c.agent, c.job), c.readings, AfterEnvelope(c, t))
  }

  /** Admission of a job that carries a claim implies having honoured it. */
  lemma AdmittedHonoursClaim(c: Call, t: Table)
    requires c.agent.enforce && Judge(c.agent, c.job, c.readings, t).rejected.None?
    requires CLAIM_KEY in c.job.params
    ensures c.agent.codec.decodeClaim(c.job.params[CLAIM_KEY]).Some?
    ensures HonoursClaim(c, t, c.agent.codec.decodeClaim(c.job.params[CLAIM_KEY]).value)
  {
    AfterNonceDecides(c.agent, c.job, c.readings, AfterEnvelope(c, t));
  }

  /** An honoured claim's nonce was fresh, and its marking is the last thing done to the memory. */
  lemma HonouredLeaves(c: Call, t: Table, claim: Claim)
    requires HonoursClaim(c, t, claim)
    ensures c.readings.claim.fault.NoFault? && ClaimNonce(claim) !in AfterEnvelope(c, t)
    ensures TableAfterCall(c, t) ==
            MarkTable(AfterEnvelope(c, t), ClaimNonce(claim), claim.jobId, c.readings.claim)
  {
    ClaimDecides(c.agent, claim, TheEnvelope(c.agent, c.job), c.readings, AfterEnvelope(c, t));
    GrantsMark(c, AfterEnvelope(c, t), claim);
  }

  lemma GrantsMark(c: Call, t: Table, claim: Claim)
    requires Bound(c.agent, c.job).None? && c.agent.verifier.Some?
    requires var e := TheEnvelope(c.agent, c.job);
      && Required(c.agent.codec, c.job) <= SetOf(e.requestedCapabilities)
      && CLAIM_KEY in c.job.params && c.agent.codec.decodeClaim(c.job.params[CLAIM_KEY]) == Some(claim)
      && ClaimComplete(claim) && c.agent.codec.canonical(e.payload).Some?
      && ClaimBinds(c.agent.verifier.value, claim, e,
                    c.agent.codec.hash(c.agent.codec.canonical(e.payload).value), c.readings.now)
    ensures AfterNonce(c.agent, c.job, c.readings, t).table
         == MarkTable(t, ClaimNonce(claim), claim.jobId, c.readings.claim)
  {}

  lemma FreshMarkIsRemembered(t: Table, nonce: string, jobId: string, m: Marking)
    requires m.fault.NoFault? && nonce !in t && m.insertAt <= m.pruneAt
    ensures Retained(MarkTable(t, nonce, jobId, m), m.pruneAt, nonce, Unix(m.insertAt))
  {
    var v := Inserted(t, nonce, jobId, m.insertAt);
    MarkRetains(v, nonce, jobId, m, m.insertAt, nonce, Unix(m.insertAt));
    assert MarkTable(v, nonce, jobId, m) == MarkTable(t, nonce, jobId, m);
  }

  lemma HonouringIsRemembered(c: Call, t: Table, from: int, claim: Claim)
    requires InOrder(c.readings, from) && HonoursClaim(c, t, claim)
    ensures Retained(TableAfterCall(c, t), End(c.readings), ClaimNonce(claim), Unix(c.readings.claim.insertAt))
  {
    HonouredLeaves(c, t, claim);
    FreshMarkIsRemembered(AfterEnvelope(c, t), ClaimNonce(claim), claim.jobId, c.readings.claim);
  }

  lemma ForgottenBeforeHonoured(c: Call, t: Table, clock: int, claim: Claim, seenAt: int)
    requires InOrder(c.readings, clock) && Retained(t, clock, ClaimNonce(claim), seenAt)
    requires HonoursClaim(c, t, claim)
    ensures Unix(c.readings.envelope.pruneAt) > seenAt + RETENTION_SECONDS
  {
    var e := TheEnvelope(c.agent, c.job);
    MarkRetains(t, e.nonce, e.jobId, c.readings.envelope, clock, ClaimNonce(claim), seenAt);
  }

  /**
   Two calls honour one claim only if the second prunes more than 25 h after
   the first consumed it, whichever envelopes carry it.
   */
  lemma ClaimHonouredOncePerRetention(calls: seq<Call>, t: Table, from: int, i: nat, j: nat, claim: Claim)
    requires ClockForward(calls, from) && i < j < |calls|
    requires HonoursClaim(calls[i], TableAfter(calls[..i], t), claim)
    requires HonoursClaim(calls[j], TableAfter(calls[..j], t), claim)
    ensures Unix(calls[j].readings.envelope.pruneAt) > Unix(calls[i].readings.claim.insertAt) + RETENTION_SECONDS
  {
    var seenAt := Unix(calls[i].readings.claim.insertAt);
    CallInOrder(calls, i, from);
    HonouringIsRemembered(calls[i], TableAfter(calls[..i], t), ClockAfter(calls[..i], from), claim);
    RetainedBetween(calls, t, from, i, j, ClaimNonce(claim), seenAt);
    CallInOrder(calls, j, from);
    ForgottenBeforeHonoured(calls[j], TableAfter(calls[..j], t), ClockAfter(calls[..j], from), claim, seenAt);
  }

  // -------------------------------------------------------------------- tight

  /** All readings of a call at the same instant, nothing failing. */
  function AllAt(seconds: int): (r: Readings) {
    var m := Marking(seconds * SECOND, seconds * SECOND, NoFault, false);
    Readings(seconds * SECOND, m, m)
  }

  /** The envelope is presented as early as the skew allows, then twice just past its retention. */
  function LateReplay(a: Agent, job: Job): (r: seq<Call>)
    requires Bound(a, job).None?
  {
    var start := TheEnvelope(a, job).issuedAt - CLOCK_SKEW;
    [Call(a, job, AllAt(start)),
     Call(a, job, AllAt(start + RETENTION_SECONDS + 1)),
     Call(a, job, AllAt(start + RETENTION_SECONDS + 1))]
  }

  lemma LateReplayIsInOrder(a: Agent, job: Job)
    requires Bound(a, job).None?
    ensures ClockForward(LateReplay(a, job), (TheEnvelope(a, job).issuedAt - CLOCK_SKEW) * SECOND)
  {
    var calls := LateReplay(a, job);
    assert calls[1..] == [calls[1], calls[2]] && [calls[1], calls[2]][1..] == [calls[2]];
    assert ClockForward([calls[2]], End(calls[1].readings));
    assert ClockForward([calls[1], calls[2]], End(calls[0].readings));
  }

  lemma VerifyAt(a: Agent, e: Envelope, now: int, seconds: int)
    requires Verify(a.codec, a.verifier, e, a.id, now).None?
    requires e.issuedAt - CLOCK_SKEW <= seconds <= e.expiresAt
    ensures Verify(a.codec, a.verifier, e, a.id, seconds * SECOND).None?
  {}

  lemma GrantsKeepRecent(a: Agent, job: Job, seconds: int, t: Table, nonce: string)
    requires Bound(a, job).None? && a.verifier.Some? && nonce in t && t[nonce].seenAt == seconds
    ensures nonce in AfterNonce(a, job, AllAt(seconds), t).table
    ensures AfterNonce(a, job, AllAt(seconds), t).table[nonce].seenAt == seconds
  {
    assert Unix(seconds * SECOND - RETENTION_SECONDS * SECOND) == seconds - RETENTION_SECONDS;
  }

  /** Marking a nonce forgets a known one, be it the same, exactly when it is past its retention. */
  lemma MarkForgetsExactlyWhen(t: Table, other: string, id: string, mine: string, seconds: int)
    requires mine in t
    ensures mine !in MarkTable(t, other, id, AllAt(seconds).envelope)
       <==> seconds - t[mine].seenAt > RETENTION_SECONDS
  {
    assert Unix(seconds * SECOND - RETENTION_SECONDS * SECOND) == seconds - RETENTION_SECONDS;
  }

  /** Longer than that, the second presentation is refused but its own prune forgets the nonce. */
  lemma LateReplayPassesTwice(a: Agent, job: Job, now: int)
    requires a.enforce && Bound(a, job).None?
    requires Verify(a.codec, a.verifier, TheEnvelope(a, job), a.id, now).None?
    requires TheEnvelope(a, job).expiresAt - TheEnvelope(a, job).issuedAt > COVERED_LIFETIME
    ensures Passes(LateReplay(a, job)[0], map[], TheEnvelope(a, job))
    ensures Passes(LateReplay(a, job)[2], TableAfter(LateReplay(a, job)[..2], map[]), TheEnvelope(a, job))
  {
    var e, calls := TheEnvelope(a, job), LateReplay(a, job);
    var start := e.issuedAt - CLOCK_SKEW;
    var late := start + RETENTION_SECONDS + 1;
    VerifyAt(a, e, now, start);
    VerifyAt(a, e, now, late);
    FirstPresentation(a, job, start, map[]);
    var t := TableAfterCall(calls[0], map[]);
    SecondPresentation(a, job, late, t);
    FirstPresentation(a, job, late, TableAfterCall(calls[1], t));
    assert calls[..2] == [calls[0], calls[1]];
    TableAfterTwo(calls[0], calls[1], map[]);
  }

  /** A nonce that is not in the table passes, and is in it afterwards. */
  lemma FirstPresentation(a: Agent, job: Job, seconds: int, t: Table)
    requires a.enforce && Bound(a, job).None? && TheEnvelope(a, job).nonce !in t
    requires Verify(a.codec, a.verifier, TheEnvelope(a, job), a.id, seconds * SECOND).None?
    ensures var c, e := Call(a, job, AllAt(seconds)), TheEnvelope(a, job);
      && Passes(c, t, e)
      && e.nonce in TableAfterCall(c, t) && TableAfterCall(c, t)[e.nonce].seenAt == seconds
  {
    var e := TheEnvelope(a, job);
    var u := MarkTable(t, e.nonce, e.jobId, AllAt(seconds).envelope);
    assert e.nonce in u && u[e.nonce].seenAt == seconds by {
      assert Unix(seconds * SECOND - RETENTION_SECONDS * SECOND) == seconds - RETENTION_SECONDS;
    }
    GrantsKeepRecent(a, job, seconds, u, e.nonce);
  }

  /** A nonce that is in the table is refused, and forgotten if it is past its retention. */
  lemma SecondPresentation(a: Agent, job: Job, seconds: int, t: Table)
    requires a.enforce && Bound(a, job).None? && TheEnvelope(a, job).nonce in t
    requires Verify(a.codec, a.verifier, TheEnvelope(a, job), a.id, seconds * SECOND).None?
    ensures var c, e := Call(a, job, AllAt(seconds)), TheEnvelope(a, job);
      && !Passes(c, t, e)
      && (e.nonce !in TableAfterCall(c, t) <==> seconds - t[e.nonce].seenAt > RETENTION_SECONDS)
  {
    var e := TheEnvelope(a, job);
    MarkForgetsExactlyWhen(t, e.nonce, e.jobId, e.nonce, seconds);
  }

  lemma TableAfterTwo(c1: Call, c2: Call, t: Table)
    ensures TableAfter([c1, c2], t) == TableAfterCall(c2, TableAfterCall(c1, t))
  {
    assert [c1, c2][1..] == [c2] && [c2][1..] == [];
    assert TableAfter([c2], TableAfterCall(c1, t)) == TableAfterCall(c2, TableAfterCall(c1, t));
  }

  /** Some run, from an empty table, lets the job's envelope past the stage at two positions. */
  ghost predicate CanPassTwice(a: Agent, job: Job)
    requires Bound(a, job).None?
  {
    exists calls: seq<Call>, from: int, i: nat, j: nat ::
      PassesAt(calls, from, i, j, TheEnvelope(a, job))
  }

  ghost predicate PassesAt(calls: seq<Call>, from: int, i: nat, j: nat, e: Envelope) {
    && ClockForward(calls, from) && i < j < |calls|
    && Passes(calls[i], TableAfter(calls[..i], map[]), e)
    && Passes(calls[j], TableAfter(calls[..j], map[]), e)
  }

  /**
   The bound is tight, for every job whose envelope is valid at some time: it
   can pass twice in some run exactly when its lifetime exceeds 25 h - 30 s.
   */
  lemma ReplayableExactlyWhen(a: Agent, job: Job, now: int)
    requires a.enforce && Bound(a, job).None?
    requires Verify(a.codec, a.verifier, TheEnvelope(a, job), a.id, now).None?
    ensures CanPassTwice(a, job) <==>
            TheEnvelope(a, job).expiresAt - TheEnvelope(a, job).issuedAt > COVERED_LIFETIME
  {
    var e := TheEnvelope(a, job);
    if CanPassTwice(a, job) {
      var calls: seq<Call>, from: int, i: nat, j: nat :| PassesAt(calls, from, i, j, e);
      PassesAtMostOnce(calls, map[], from, i, j, e);
    }
    if e.expiresAt - e.issuedAt > COVERED_LIFETIME {
      LateReplayIsInOrder(a, job);
      LateReplayPassesTwice(a, job, now);
      var calls := LateReplay(a, job);
      assert calls[..0] == [];
      assert PassesAt(calls, (e.issuedAt - CLOCK_SKEW) * SECOND, 0, 2, e);
    }
  }

  // ------------------------------------------------------ one claim, two jobs

  /** At that second the job meets every check up to its claim, freshness of the two nonces aside. */
  ghost predicate ReadyWithClaim(a: Agent, job: Job, claim: Claim, seconds: int) {
    && a.enforce && Bound(a, job).None? && a.verifier.Some?
    && var e := TheEnvelope(a, job);
       && Verify(a.codec, a.verifier, e, a.id, seconds * SECOND).None?
       && Required(a.codec, job) <= SetOf(e.requestedCapabilities)
       && CLAIM_KEY in job.params && a.codec.decodeClaim(job.params[CLAIM_KEY]) == Some(claim)
       && ClaimComplete(claim)
       && ClaimBinds(a.verifier.value, claim, e, a.codec.hash(a.codec.canonical(e.payload).value), seconds * SECOND)
       && ClaimSigned(a.codec, a.verifier.value, claim)
  }

  /** Then freshness alone decides: the claim is looked up after the envelope's own mark and prune. */
  lemma FreshnessDecides(a: Agent, job: Job, claim: Claim, seconds: int, t: Table)
    requires ReadyWithClaim(a, job, claim, seconds)
    ensures var c := Call(a, job, AllAt(seconds));
      HonoursClaim(c, t, claim) <==> TheEnvelope(a, job).nonce !in t && ClaimNonce(claim) !in AfterEnvelope(c, t)
  {}

  /** A fresh call leaves the claim in the table, whatever the policy then says. */
  lemma HonouredTable(a: Agent, job: Job, claim: Claim, seconds: int, t: Table)
    requires ReadyWithClaim(a, job, claim, seconds) && TheEnvelope(a, job).nonce !in t
    ensures var c := Call(a, job, AllAt(seconds));
      TableAfterCall(c, t) == MarkTable(AfterEnvelope(c, t), ClaimNonce(claim), claim.jobId, c.readings.claim)
  {}

  /**
   The retention of claims is tight. Take any two jobs with different envelope
   nonces that carry one signed, binding claim, the first ready at s1 and the
   second at s2. Both calls honour the claim exactly when s2 is more than 25 h
   past s1: then the second call's own envelope prunes the claim's nonce.
   */
  lemma ClaimHonouredTwiceExactlyWhen(a1: Agent, job1: Job, s1: int, a2: Agent, job2: Job, s2: int, claim: Claim)
    requires ReadyWithClaim(a1, job1, claim, s1) && ReadyWithClaim(a2, job2, claim, s2) && s1 <= s2
    requires TheEnvelope(a1, job1).nonce != TheEnvelope(a2, job2).nonce
    requires ClaimNonce(claim) !in {TheEnvelope(a1, job1).nonce, TheEnvelope(a2, job2).nonce}
    ensures ClockForward([Call(a1, job1, AllAt(s1)), Call(a2, job2, AllAt(s2))], s1 * SECOND)
    ensures HonoursClaim(Call(a1, job1, AllAt(s1)), map[], claim)
    ensures HonoursClaim(Call(a2, job2, AllAt(s2)), TableAfterCall(Call(a1, job1, AllAt(s1)), map[]), claim)
       <==> s2 - s1 > RETENTION_SECONDS
  {
    TwoInOrder(Call(a1, job1, AllAt(s1)), Call(a2, job2, AllAt(s2)), s1 * SECOND);
    HonouredFirst(a1, job1, s1, claim);
    HonouredAgainExactlyWhen(a2, job2, s2, claim, TableAfterCall(Call(a1, job1, AllAt(s1)), map[]));
  }

  lemma HonouredFirst(a: Agent, job: Job, seconds: int, claim: Claim)
    requires ReadyWithClaim(a, job, claim, seconds) && ClaimNonce(claim) != TheEnvelope(a, job).nonce
    ensures var c := Call(a, job, AllAt(seconds));
      && HonoursClaim(c, map[], claim)
      && TableAfterCall(c, map[]).Keys == {TheEnvelope(a, job).nonce, ClaimNonce(claim)}
      && TableAfterCall(c, map[])[ClaimNonce(claim)].seenAt == seconds
  {
    FreshnessDecides(a, job, claim, seconds, map[]);
    HonouredTable(a, job, claim, seconds, map[]);
    TwoMarks(TheEnvelope(a, job).nonce, TheEnvelope(a, job).jobId, ClaimNonce(claim), claim.jobId, seconds);
  }

  lemma HonouredAgainExactlyWhen(a: Agent, job: Job, seconds: int, claim: Claim, t: Table)
    requires ReadyWithClaim(a, job, claim, seconds) && TheEnvelope(a, job).nonce !in t && ClaimNonce(claim) in t
    ensures HonoursClaim(Call(a, job, AllAt(seconds)), t, claim)
       <==> seconds - t[ClaimNonce(claim)].seenAt > RETENTION_SECONDS
  {
    FreshnessDecides(a, job, claim, seconds, t);
    MarkForgetsExactlyWhen(t, TheEnvelope(a, job).nonce, TheEnvelope(a, job).jobId, ClaimNonce(claim), seconds);
  }

  lemma TwoInOrder(c1: Call, c2: Call, from: int)
    requires InOrder(c1.readings, from) && InOrder(c2.readings, End(c1.readings))
    ensures ClockForward([c1, c2], from)
  {
    assert [c1, c2][1..] == [c2] && [c2][1..] == [];
    assert ClockForward([c2], End(c1.readings));
  }

  lemma TwoMarks(n1: string, id1: string, n2: string, id2: string, seconds: int)
    ensures var m := AllAt(seconds).claim;
      var t := MarkTable(MarkTable(map[], n1, id1, m), n2, id2, m);
      t.Keys == {n1, n2} && t[n2].seenAt == seconds
  {
    assert Unix(seconds * SECOND - RETENTION_SECONDS * SECOND) == seconds - RETENTION_SECONDS;
  }
}
