/**
 Why the gate rejects a job, and what it leaves in the replay memory: each
 reason with its exact condition in terms of the raw fields. The reason
 travels back to the fleet, so which check is reported first matters.
 */
module GateReasons {
  import opened Common
  import opened Replay
  import opened Capabilities
  import opened StepScan
  import opened JobGate

  /** The envelope as it was sent, if it can be decoded. */
  function Sent(a: Agent, job: Job): (e: Option<Envelope>) {
    if "_envelope" in job.params then a.codec.decodeEnvelope(job.params["_envelope"]) else None
  }

  /** The envelope is there, can be decoded, and is whole. */
  ghost predicate Readable(a: Agent, job: Job) {
    Sent(a, job).Some? && WholeEnvelope(Sent(a, job).value)
  }

  /** The four structural reasons and the unknown job type, for the parameters that will run. */
  lemma StructuralReasons(a: Agent, job: Job, outer: map<string, Value>)
    requires IsOuter(job.params, outer)
    ensures Bound(a, job) == Some(UnsignedJob) <==> "_envelope" !in job.params
    ensures Bound(a, job) == Some(MalformedEnvelope) <==> "_envelope" in job.params && !Readable(a, job)
    ensures Bound(a, job) == Some(MalformedParams) <==> Readable(a, job) && !HasCanonical(a.codec, outer)
    ensures Bound(a, job) == Some(PayloadMismatch) <==>
            (Readable(a, job) && HasCanonical(a.codec, outer)
             && !PayloadIs(a.codec, Sent(a, job).value.payload, outer))
    ensures Bound(a, job) == Some(UnknownCapability) <==>
            (Readable(a, job) && PayloadIs(a.codec, Sent(a, job).value.payload, outer) && job.jobType !in REGISTRY)
    ensures Bound(a, job).None? <==>
            (Readable(a, job) && PayloadIs(a.codec, Sent(a, job).value.payload, outer) && job.jobType in REGISTRY)
  {
    OuterIsUnique(job.params, outer);
    if ENVELOPE_KEY in job.params {
      ParsedExactlyWhen(a.codec, job.params[ENVELOPE_KEY]);
      if Readable(a, job) {
        WantedIsCanonical(a.codec, Sent(a, job).value.payload, outer);
      }
    }
  }

  /** Trusted key, then window, then agent: what is checked before the signature. */
  ghost predicate InWindow(e: Envelope, now: int) {
    e.issuedAt - 30 <= Unix(now) <= e.expiresAt
  }

  ghost predicate ForThisAgent(a: Agent, e: Envelope) {
    a.id == "" || e.agentId == a.id
  }

  ghost predicate HasKeys(a: Agent) {
    a.verifier.Some? && a.verifier.value.byVersion.Keys != {}
  }

  /** The reasons of the signature stage; all of them leave the replay memory alone. */
  lemma SignatureReasons(a: Agent, e: Envelope, now: int)
    ensures var why, bytes := Verify(a.codec, a.verifier, e, a.id, now), a.codec.envelopeBytes(e);
      && (why == Some(UnknownSigner) <==> HasKeys(a) && !Trusts(a.verifier, e.keyVersion))
      && (why == Some(Expired) <==> Trusts(a.verifier, e.keyVersion) && Unix(now) > e.expiresAt)
      && (why == Some(NotYetValid) <==>
            Trusts(a.verifier, e.keyVersion) && Unix(now) <= e.expiresAt && Unix(now) < e.issuedAt - 30)
      && (why == Some(WrongAgent) <==>
            Trusts(a.verifier, e.keyVersion) && InWindow(e, now) && !ForThisAgent(a, e))
      && (why == Some(MalformedBytes) <==>
            Trusts(a.verifier, e.keyVersion) && InWindow(e, now) && ForThisAgent(a, e) && bytes.None?)
      && (why == Some(BadSignature) <==>
            || !HasKeys(a)
            || (&& Trusts(a.verifier, e.keyVersion) && InWindow(e, now) && ForThisAgent(a, e) && bytes.Some?
                && !SignedBy(a.codec, a.verifier.value, e.keyVersion, bytes, e.signature)))
      && (why.None? <==> SignedAndInDate(a, e, now))
  {
    if a.verifier.Some? {
      assert a.verifier.value.byVersion.Keys == {} <==> a.verifier.value.byVersion == map[];
    }
  }

  /** The reasons for refusing a single capability. */
  lemma RefusalReasons(policy: Option<LocalPolicy>, c: string, now: int, approved: set<string>)
    ensures var why := Refusal(policy, c, now, approved);
      && (why == Some(PolicyMissing) <==> IsHighRisk(c) && policy.None?)
      && (why == Some(PolicyStale) <==>
            IsHighRisk(c) && policy.Some? && now - policy.value.receivedAt > 86_400_000_000_000)
      && (why == Some(CapabilityDisabled) <==>
            && IsHighRisk(c) && policy.Some? && now - policy.value.receivedAt <= 86_400_000_000_000
            && (c in policy.value.capabilities ==> !policy.value.capabilities[c].enabled))
      && (why == Some(ApprovalRequired) <==>
            && IsHighRisk(c) && policy.Some? && now - policy.value.receivedAt <= 86_400_000_000_000
            && c in policy.value.capabilities && policy.value.capabilities[c].enabled
            && policy.value.capabilities[c].requireApproval && c !in approved)
      && (why.None? <==> (IsHighRisk(c) ==> PolicyPermits(policy, c, now, c in approved)))
  {
    NeedsPolicyIsHighRisk(c);
  }

  /** The reason given for a request is that of the first capability that is refused. */
  lemma {:induction false} FirstRefusalIsReported(policy: Option<LocalPolicy>, capabilities: seq<string>, now: int,
                                                 approved: set<string>, i: nat)
    requires i < |capabilities| && Refusal(policy, capabilities[i], now, approved).Some?
    requires forall k :: 0 <= k < i ==> Refusal(policy, capabilities[k], now, approved).None?
    ensures Evaluate(policy, capabilities, now, approved) == Refusal(policy, capabilities[i], now, approved)
  {
    if i == 0 {
    } else {
      assert Refusal(policy, capabilities[0], now, approved).None?;
      FirstRefusalIsReported(policy, capabilities[1..], now, approved, i - 1);
    }
  }

  /** The claim as it was sent, if it can be decoded. */
  function SentClaim(a: Agent, job: Job): (c: Option<Claim>) {
    if "_approval_claim" in job.params then a.codec.decodeClaim(job.params["_approval_claim"]) else None
  }

  /** The claim gets as far as having its nonce looked up. */
  ghost predicate ClaimIsLookedUp(a: Agent, job: Job, e: Envelope, now: int) {
    && CoversJob(a.codec, job, e.requestedCapabilities)
    && SentClaim(a, job).Some? && WholeClaim(SentClaim(a, job).value)
    && ClaimIsFor(a, SentClaim(a, job).value, e, now)
  }

  /** The reasons after the envelope's nonce; the claim's nonce is consumed exactly when the claim is for this job. */
  lemma GrantReasons(a: Agent, job: Job, r: Readings, t: Table)
    requires Bound(a, job).None? && a.verifier.Some?
    ensures var e, v := TheEnvelope(a, job), AfterNonce(a, job, r, t);
      && (v.rejected == Some(CapabilityGap) <==> !CoversJob(a.codec, job, e.requestedCapabilities))
      && (v.rejected == Some(ApprovalMalformed) <==>
            CoversJob(a.codec, job, e.requestedCapabilities) && !ClaimReads(a, job))
      && (v.rejected == Some(ApprovalInvalid) <==>
            CoversJob(a.codec, job, e.requestedCapabilities) && ClaimReads(a, job) && !ClaimHolds(a, job, e, r, t))
      && (CoversJob(a.codec, job, e.requestedCapabilities) && ClaimHolds(a, job, e, r, t) ==>
            v.rejected == Evaluate(a.policy, e.requestedCapabilities, r.now, ApprovedByClaim(a, job)))
      && v.table == (if ClaimIsLookedUp(a, job, e, r.now)
                     then MarkTable(t, "claim:" + SentClaim(a, job).value.nonce, SentClaim(a, job).value.jobId, r.claim)
                     else t)
  {
    var e := TheEnvelope(a, job);
    CoversDecides(a.codec, job, e.requestedCapabilities);
    if SentClaim(a, job).Some? {
      ClaimDecides(a, SentClaim(a, job).value, e, r, t);
    }
    PolicyReasonsOnly(a.policy, e.requestedCapabilities, r.now, ApprovedByClaim(a, job));
  }

  lemma {:induction false} PolicyReasonsOnly(policy: Option<LocalPolicy>, capabilities: seq<string>, now: int,
                                            approved: set<string>)
    ensures Evaluate(policy, capabilities, now, approved)
         in {None, Some(PolicyMissing), Some(PolicyStale), Some(CapabilityDisabled), Some(ApprovalRequired)}
  {
    if capabilities == [] {
    } else {
      PolicyReasonsOnly(policy, capabilities[1..], now, approved);
    }
  }

  /**
   The stages in their order. Nothing is consumed before the signature stage is
   passed; from then on the envelope's nonce is, whatever comes of the job.
   */
  lemma StagesInOrder(a: Agent, job: Job, r: Readings, t: Table)
    requires a.enforce
    ensures var v := Judge(a, job, r, t);
      && (Bound(a, job).Some? ==> v == Verdict(Bound(a, job), t))
      && (Bound(a, job).None? ==>
            var e := TheEnvelope(a, job);
            && e == Sent(a, job).value
            && (!SignedAndInDate(a, e, r.now) ==>
                  v == Verdict(Verify(a.codec, a.verifier, e, a.id, r.now), t))
            && (SignedAndInDate(a, e, r.now) ==>
                  var u := MarkTable(t, e.nonce, e.jobId, r.envelope);
                  && (!r.envelope.fault.NoFault? ==> v == Verdict(Some(ReplayStoreError), u))
                  && (r.envelope.fault.NoFault? && e.nonce in t ==> v == Verdict(Some(DuplicateJob), u))
                  && (r.envelope.fault.NoFault? && e.nonce !in t ==> v == AfterNonce(a, job, r, u))))
  {
    BoundDecides(a, job);
    if Bound(a, job).None? {
      VerifyDecides(a, TheEnvelope(a, job), r.now);
    }
  }
}
