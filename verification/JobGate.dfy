/**
 The gate every job passes before it is dispatched: envelope structure,
 payload binding, signature and validity window, replay memory, capability
 coverage, approval claim and local policy, in that order.

 Encoding, hashing and signature checking are the functions of a `Codec`;
 nothing is assumed about them.
 */
module JobGate {
  import opened Common
  import opened Replay
  import opened Capabilities
  import opened StepScan

  type Bytes = string
  type Key = string
  type Value = string

  datatype Envelope = Envelope(
    jobId: string, agentId: string, jobType: string, payload: Bytes,
    issuedAt: int, expiresAt: int, nonce: string,
    requestedCapabilities: seq<string>, keyVersion: Option<int>, signature: string)

  datatype Claim = Claim(
    approvalId: string, jobId: string, jobHash: string, targetAgentId: string,
    capabilities: seq<string>, issuedAt: int, expiresAt: int, nonce: string,
    keyVersion: Option<int>, signature: string)

  datatype Codec = Codec(
    decodeEnvelope: Value -> Option<Envelope>,
    decodeClaim: Value -> Option<Claim>,
    encodeParams: map<string, Value> -> Option<Bytes>,
    canonical: Bytes -> Option<Bytes>,
    envelopeBytes: Envelope -> Option<Bytes>,
    claimBytes: Claim -> Option<Bytes>,
    verifies: (Key, Bytes, string) -> bool,
    hash: Bytes -> string,
    asJson: Value -> Option<Json>,
    escape: char -> string,
    fold: char -> char)

  datatype Verifier = Verifier(byVersion: map<int, Key>, retired: set<int>)

  datatype Rule = Rule(enabled: bool, requireApproval: bool)

  /** The cached policy, with the clock reading at which it arrived. */
  datatype LocalPolicy = LocalPolicy(capabilities: map<string, Rule>, receivedAt: int)

  /** 24 hours, in nanoseconds. */
  const MAX_POLICY_AGE: int := 86_400 * SECOND

  /** Tolerated drift of the issuing clock, in seconds. */
  const CLOCK_SKEW: int := 30

  datatype Agent = Agent(
    enforce: bool, id: string, verifier: Option<Verifier>, policy: Option<LocalPolicy>, codec: Codec)

  datatype Job = Job(jobId: string, jobType: string, params: map<string, Value>)

  /** The readings of one passage through the gate. */
  datatype Readings = Readings(now: int, envelope: Marking, claim: Marking)

  datatype Rejection =
    | UnsignedJob | MalformedEnvelope | MalformedParams | PayloadMismatch | UnknownCapability
    | BadSignature | UnknownSigner | Expired | NotYetValid | WrongAgent | MalformedBytes
    | ReplayStoreError | DuplicateJob | CapabilityGap | ApprovalMalformed | ApprovalInvalid
    | PolicyMissing | PolicyStale | CapabilityDisabled | ApprovalRequired

  const ENVELOPE_KEY: string := "_envelope"
  const CLAIM_KEY: string := "_approval_claim"
  const STEPS_KEY: string := "steps"

  /** The text the capability scan gets: the steps of a workflow job as they are serialised, if they can be. */
  function StepsJson(codec: Codec, job: Job): (r: string) {
    if job.jobType != "WORKFLOW_STEPS" then ""
    else if STEPS_KEY !in job.params then Marshal(Null, codec.escape)
    else match codec.asJson(job.params[STEPS_KEY])
      case None => ""
      case Some(steps) => Marshal(steps, codec.escape)
  }

  function Required(codec: Codec, job: Job): (r: set<string>) {
    RequiredCapabilities(job.jobType, StepsJson(codec, job), codec.fold)
  }

  // ---------------------------------------------------------------- envelope

  predicate EnvelopeComplete(e: Envelope) {
    && e.jobId != "" && e.agentId != "" && e.jobType != "" && e.nonce != ""
    && e.issuedAt != 0 && e.expiresAt != 0 && e.signature != ""
    && e.expiresAt > e.issuedAt
  }

  function ParseEnvelope(codec: Codec, raw: Value): (r: Option<Envelope>) {
    var e := codec.decodeEnvelope(raw);
    if e.Some? && EnvelopeComplete(e.value) then e else None
  }

  /** The parameters that will run: all but the two transport keys. */
  function OuterParams(params: map<string, Value>): (r: map<string, Value>) {
    map k | k in params && k != ENVELOPE_KEY && k != CLAIM_KEY :: params[k]
  }

  /** The canonical bytes of the parameters that will run. */
  function WantedBytes(codec: Codec, outer: map<string, Value>): (r: Option<Bytes>) {
    if outer == map[] then Some("{}") else
    match codec.encodeParams(outer)
    case None => None
    case Some(b) => codec.canonical(b)
  }

  function KeyOf(version: Option<int>): (r: int) {
    match version case None => 1 case Some(v) => v
  }

  function Verify(codec: Codec, verifier: Option<Verifier>, e: Envelope, agentId: string, now: int)
    : (r: Option<Rejection>)
  {
    if verifier.None? || verifier.value.byVersion == map[] then Some(BadSignature) else
    var v, version := verifier.value, KeyOf(e.keyVersion);
    if version !in v.byVersion || version in v.retired then Some(UnknownSigner)
    else if Unix(now) > e.expiresAt then Some(Expired)
    else if Unix(now) + CLOCK_SKEW < e.issuedAt then Some(NotYetValid)
    else if agentId != "" && e.agentId != agentId then Some(WrongAgent)
    else match codec.envelopeBytes(e)
      case None => Some(MalformedBytes)
      case Some(b) => if codec.verifies(v.byVersion[version], b, e.signature) then None else Some(BadSignature)
  }

  // ------------------------------------------------------------------- claim

  predicate ClaimComplete(c: Claim) {
    && c.approvalId != "" && c.jobId != "" && c.jobHash != "" && c.nonce != ""
    && c.signature != "" && c.expiresAt != 0 && c.issuedAt != 0
  }

  /** The claim binds this job, these capabilities and this agent, and is in date. */
  predicate ClaimBinds(verifier: Verifier, c: Claim, e: Envelope, jobHash: string, now: int) {
    && KeyOf(c.keyVersion) in verifier.byVersion && KeyOf(c.keyVersion) !in verifier.retired
    && Unix(now) <= c.expiresAt
    && c.jobId == e.jobId && c.jobHash == jobHash
    && (e.agentId == "" || c.targetAgentId == e.agentId)
    && forall need :: need in e.requestedCapabilities ==> need in c.capabilities
  }

  predicate ClaimSigned(codec: Codec, verifier: Verifier, c: Claim)
    requires KeyOf(c.keyVersion) in verifier.byVersion
  {
    var b := codec.claimBytes(c);
    b.Some? && codec.verifies(verifier.byVersion[KeyOf(c.keyVersion)], b.value, c.signature)
  }

  function ClaimNonce(c: Claim): (r: string) { "claim:" + c.nonce }

  // ------------------------------------------------------------------ policy

  predicate NeedsPolicy(capability: string) { RiskTier(RiskOf(capability)) >= 2 }

  /** Why a capability is refused, if it is. */
  function Refusal(policy: Option<LocalPolicy>, capability: string, now: int, approved: set<string>)
    : (r: Option<Rejection>)
  {
    if !NeedsPolicy(capability) then None
    else if policy.None? then Some(PolicyMissing)
    else if now - policy.value.receivedAt > MAX_POLICY_AGE then Some(PolicyStale)
    else if capability !in policy.value.capabilities then Some(CapabilityDisabled)
    else if !policy.value.capabilities[capability].enabled then Some(CapabilityDisabled)
    else if policy.value.capabilities[capability].requireApproval && capability !in approved then Some(ApprovalRequired)
    else None
  }

  /** The first refusal in the order of the request. */
  function Evaluate(policy: Option<LocalPolicy>, capabilities: seq<string>, now: int, approved: set<string>)
    : (r: Option<Rejection>)
  {
    if capabilities == [] then None else
    var first := Refusal(policy, capabilities[0], now, approved);
    if first.Some? then first else Evaluate(policy, capabilities[1..], now, approved)
  }

  function SetOf(s: seq<string>): (r: set<string>) { set x | x in s }

  // ------------------------------------------------------------------ verdict

  datatype Verdict = Verdict(rejected: Option<Rejection>, table: Table)

  function Reject(why: Rejection, t: Table): (r: Verdict) { Verdict(Some(why), t) }

  /** Structure and payload binding: everything before the first look at the clock. */
  function Bound(a: Agent, job: Job): (r: Option<Rejection>) {
    if ENVELOPE_KEY !in job.params then Some(UnsignedJob) else
    var e := ParseEnvelope(a.codec, job.params[ENVELOPE_KEY]);
    if e.None? then Some(MalformedEnvelope) else
    var want := WantedBytes(a.codec, OuterParams(job.params));
    if want.None? then Some(MalformedParams)
    else if a.codec.canonical(e.value.payload) != want then Some(PayloadMismatch)
    else if job.jobType !in REGISTRY then Some(UnknownCapability)
    else None
  }

  function TheEnvelope(a: Agent, job: Job): (e: Envelope)
    requires Bound(a, job).None?
    ensures EnvelopeComplete(e)
  {
    ParseEnvelope(a.codec, job.params[ENVELOPE_KEY]).value
  }

  /** What remains once the envelope's nonce is consumed. */
  function AfterNonce(a: Agent, job: Job, r: Readings, t: Table): (result: Verdict)
    requires Bound(a, job).None? && a.verifier.Some?
  {
    var e, v := TheEnvelope(a, job), a.verifier.value;
    if !(Required(a.codec, job) <= SetOf(e.requestedCapabilities)) then
      Reject(CapabilityGap, t)
    else if CLAIM_KEY !in job.params then
      Verdict(Evaluate(a.policy, e.requestedCapabilities, r.now, {}), t)
    else
      var decoded := a.codec.decodeClaim(job.params[CLAIM_KEY]);
      if decoded.None? || !ClaimComplete(decoded.value) then Reject(ApprovalMalformed, t) else
      var c := decoded.value;
      var jobHash := a.codec.hash(a.codec.canonical(e.payload).value);
      if !ClaimBinds(v, c, e, jobHash, r.now) then Reject(ApprovalInvalid, t) else
      var u := MarkTable(t, ClaimNonce(c), c.jobId, r.claim);
      if MarkResult(t, ClaimNonce(c), r.claim) != Fresh || !ClaimSigned(a.codec, v, c) then Reject(ApprovalInvalid, u)
      else Verdict(Evaluate(a.policy, e.requestedCapabilities, r.now, SetOf(c.capabilities)), u)
  }

  /** The whole gate: why a job is rejected, if it is, and the replay table afterwards. */
  function Judge(a: Agent, job: Job, r: Readings, t: Table): (result: Verdict) {
    if !a.enforce then
      if ENVELOPE_KEY in job.params && ParseEnvelope(a.codec, job.params[ENVELOPE_KEY]).None? then
        Reject(MalformedEnvelope, t)
      else Verdict(None, t)
    else if Bound(a, job).Some? then Verdict(Bound(a, job), t) else
    var e := TheEnvelope(a, job);
    var bad := Verify(a.codec, a.verifier, e, a.id, r.now);
    if bad.Some? then Verdict(bad, t) else
    var u := MarkTable(t, e.nonce, e.jobId, r.envelope);
    match MarkResult(t, e.nonce, r.envelope)
    case StoreError => Reject(ReplayStoreError, u)
    case Duplicate => Reject(DuplicateJob, u)
    case Fresh => AfterNonce(a, job, r, u)
  }

  // -------------------------------------------------------------- main result

  // What follows states each check from the raw fields, with the numbers and
  // names written out, and calls none of the functions the gate is made of.

  /** Every field the gate needs is there, and the window is not empty. */
  ghost predicate WholeEnvelope(e: Envelope) {
    && "" !in {e.jobId, e.agentId, e.jobType, e.nonce, e.signature}
    && 0 !in {e.issuedAt, e.expiresAt} && e.issuedAt < e.expiresAt
  }

  ghost predicate WholeClaim(c: Claim) {
    && "" !in {c.approvalId, c.jobId, c.jobHash, c.nonce, c.signature}
    && 0 !in {c.issuedAt, c.expiresAt}
  }

  /** `outer` holds the parameters that will run: every one but the two that carry envelope and claim. */
  ghost predicate IsOuter(params: map<string, Value>, outer: map<string, Value>) {
    && outer.Keys == params.Keys - {"_envelope", "_approval_claim"}
    && forall k :: k in outer ==> outer[k] == params[k]
  }

  /** There is a canonical form of the parameters: `{}` when there are none. */
  ghost predicate HasCanonical(codec: Codec, outer: map<string, Value>) {
    outer.Keys == {} || (codec.encodeParams(outer).Some? && codec.canonical(codec.encodeParams(outer).value).Some?)
  }

  /** The payload is, canonically, those parameters. */
  ghost predicate PayloadIs(codec: Codec, payload: Bytes, outer: map<string, Value>) {
    && HasCanonical(codec, outer)
    && codec.canonical(payload) ==
         (if outer.Keys == {} then Some("{}") else codec.canonical(codec.encodeParams(outer).value))
  }

  /** The signed request covers exactly what will run. */
  ghost predicate PayloadIsBound(a: Agent, job: Job, e: Envelope) {
    forall outer :: IsOuter(job.params, outer) ==> PayloadIs(a.codec, e.payload, outer)
  }

  /** The key version, which is 1 if none is given, is known and not retired. */
  ghost predicate Trusts(v: Option<Verifier>, keyVersion: Option<int>) {
    v.Some? && match keyVersion
      case None => 1 in v.value.byVersion && 1 !in v.value.retired
      case Some(n) => n in v.value.byVersion && n !in v.value.retired
  }

  ghost predicate SignedBy(codec: Codec, v: Verifier, keyVersion: Option<int>, bytes: Option<Bytes>,
                           signature: string)
  {
    bytes.Some? && match keyVersion
      case None => 1 in v.byVersion && codec.verifies(v.byVersion[1], bytes.value, signature)
      case Some(n) => n in v.byVersion && codec.verifies(v.byVersion[n], bytes.value, signature)
  }

  /** A trusted, unretired key signed it for this agent, and the clock is inside its window, 30 s early allowed. */
  ghost predicate SignedAndInDate(a: Agent, e: Envelope, now: int) {
    && Trusts(a.verifier, e.keyVersion)
    && e.issuedAt - 30 <= Unix(now) <= e.expiresAt
    && (a.id == "" || e.agentId == a.id)
    && SignedBy(a.codec, a.verifier.value, e.keyVersion, a.codec.envelopeBytes(e), e.signature)
  }

  /** What the steps of a workflow job need, in terms of what they mention. */
  ghost predicate CoversSteps(codec: Codec, steps: Json, requested: seq<string>) {
    forall t :: t in STEP_TYPES
      && (|| Mentions(steps, t, codec.fold, codec.escape)
          || (t == "command" && forall u :: u in OTHER_TYPES ==> !Mentions(steps, u, codec.fold, codec.escape)))
      ==> StepCapability(t).value in requested
  }

  /** The request names the capability of the job type, or those of the steps. */
  ghost predicate CoversJob(codec: Codec, job: Job, requested: seq<string>) {
    if job.jobType != "WORKFLOW_STEPS" then job.jobType in REGISTRY ==> REGISTRY[job.jobType].name in requested
    else if "steps" !in job.params then CoversSteps(codec, Null, requested)
    else match codec.asJson(job.params["steps"])
      case None => "EXEC_BASH" in requested
      case Some(steps) => CoversSteps(codec, steps, requested)
  }

  /** The claim is for this job, payload, agent and request, from a trusted key, and not expired. */
  ghost predicate ClaimIsFor(a: Agent, c: Claim, e: Envelope, now: int) {
    && Trusts(a.verifier, c.keyVersion)
    && Unix(now) <= c.expiresAt
    && c.jobId == e.jobId
    && a.codec.canonical(e.payload).Some? && c.jobHash == a.codec.hash(a.codec.canonical(e.payload).value)
    && (e.agentId == "" || c.targetAgentId == e.agentId)
    && forall need :: need in e.requestedCapabilities ==> need in c.capabilities
  }

  /** Its nonce, kept apart from those of envelopes, is fresh, and the signature is right. */
  ghost predicate ClaimCounts(a: Agent, c: Claim, r: Readings, t: Table) {
    && r.claim.fault.NoFault? && "claim:" + c.nonce !in t
    && a.verifier.Some? && SignedBy(a.codec, a.verifier.value, c.keyVersion, a.codec.claimBytes(c), c.signature)
  }

  /** No claim was sent, or one that can be read. */
  ghost predicate ClaimReads(a: Agent, job: Job) {
    "_approval_claim" in job.params ==>
      var c := a.codec.decodeClaim(job.params["_approval_claim"]);
      c.Some? && WholeClaim(c.value)
  }

  /** No claim was sent, or a complete, binding, unused and signed one. */
  ghost predicate ClaimHolds(a: Agent, job: Job, e: Envelope, r: Readings, t: Table) {
    "_approval_claim" in job.params ==>
      var c := a.codec.decodeClaim(job.params["_approval_claim"]);
      c.Some? && WholeClaim(c.value) && ClaimIsFor(a, c.value, e, r.now) && ClaimCounts(a, c.value, r, t)
  }

  /** The capability is approved by the claim that was sent. */
  ghost predicate Approves(a: Agent, job: Job, capability: string) {
    && "_approval_claim" in job.params
    && a.codec.decodeClaim(job.params["_approval_claim"]).Some?
    && capability in a.codec.decodeClaim(job.params["_approval_claim"]).value.capabilities
  }

  ghost function ApprovedByClaim(a: Agent, job: Job): (r: set<string>) {
    if CLAIM_KEY in job.params && a.codec.decodeClaim(job.params[CLAIM_KEY]).Some?
    then SetOf(a.codec.decodeClaim(job.params[CLAIM_KEY]).value.capabilities) else {}
  }

  /** The capabilities that need a rule of the local policy. */
  ghost predicate IsHighRisk(c: string) { RiskOf(c) == Some(HIGH) || RiskOf(c) == Some(CRITICAL) }

  /** The policy is there, no older than 24 hours, enables the capability, and has the approval it asks for. */
  ghost predicate PolicyPermits(policy: Option<LocalPolicy>, c: string, now: int, approved: bool) {
    && policy.Some? && now - policy.value.receivedAt <= 86_400_000_000_000
    && c in policy.value.capabilities && policy.value.capabilities[c].enabled
    && (policy.value.capabilities[c].requireApproval ==> approved)
  }

  /** Every HIGH or CRITICAL capability has a fresh, enabled rule, and the approval it asks for. */
  ghost predicate PolicyAllows(policy: Option<LocalPolicy>, capabilities: seq<string>, now: int,
                               approved: set<string>)
  {
    forall c :: c in capabilities && IsHighRisk(c) ==> PolicyPermits(policy, c, now, c in approved)
  }

  ghost predicate Admissible(a: Agent, job: Job, r: Readings, t: Table) {
    && "_envelope" in job.params
    && var sent := a.codec.decodeEnvelope(job.params["_envelope"]);
       && sent.Some?
       && var e := sent.value;
          && WholeEnvelope(e)
          && PayloadIsBound(a, job, e)
          && job.jobType in REGISTRY
          && SignedAndInDate(a, e, r.now)
          && r.envelope.fault.NoFault? && e.nonce !in t
          && CoversJob(a.codec, job, e.requestedCapabilities)
          && ClaimHolds(a, job, e, r, MarkTable(t, e.nonce, e.jobId, r.envelope))
          && forall c :: c in e.requestedCapabilities && IsHighRisk(c) ==>
               PolicyPermits(a.policy, c, r.now, Approves(a, job, c))
  }

  /** A capability is high risk exactly when it is one of seven. */
  lemma HighRiskExactly(c: string)
    ensures NeedsPolicy(c) <==> IsHighRisk(c)
    ensures IsHighRisk(c) <==>
            c in {"PACKAGE_MANAGEMENT", "SECURITY_REMEDIATION", "FIREWALL_CONFIGURATION", "REBOOT_HOST",
                  "EXEC_BASH", "EXEC_ANSIBLE", "PLUGIN_INSTALL"}
  {}

  lemma NeedsPolicyIsHighRisk(c: string)
    ensures NeedsPolicy(c) <==> IsHighRisk(c)
  {}

  /** There is one way only to leave the two keys out. */
  lemma OuterIsUnique(params: map<string, Value>, outer: map<string, Value>)
    requires IsOuter(params, outer)
    ensures outer == OuterParams(params)
  {}

  lemma OuterIsOuter(params: map<string, Value>)
    ensures IsOuter(params, OuterParams(params))
  {}

  lemma WantedIsCanonical(codec: Codec, payload: Bytes, outer: map<string, Value>)
    ensures WantedBytes(codec, outer).Some? <==> HasCanonical(codec, outer)
    ensures PayloadIs(codec, payload, outer) <==>
            WantedBytes(codec, outer).Some? && codec.canonical(payload) == WantedBytes(codec, outer)
  {
    assert outer.Keys == {} <==> outer == map[];
  }

  lemma BindingIsDecided(a: Agent, job: Job, e: Envelope)
    ensures PayloadIsBound(a, job, e) <==>
            var want := WantedBytes(a.codec, OuterParams(job.params));
            want.Some? && a.codec.canonical(e.payload) == want
  {
    OuterIsOuter(job.params);
    WantedIsCanonical(a.codec, e.payload, OuterParams(job.params));
    forall outer | IsOuter(job.params, outer)
      ensures outer == OuterParams(job.params)
    {
      OuterIsUnique(job.params, outer);
    }
  }

  lemma ParsedExactlyWhen(codec: Codec, raw: Value)
    ensures ParseEnvelope(codec, raw).Some? <==>
            codec.decodeEnvelope(raw).Some? && WholeEnvelope(codec.decodeEnvelope(raw).value)
    ensures ParseEnvelope(codec, raw).Some? ==> ParseEnvelope(codec, raw) == codec.decodeEnvelope(raw)
  {}

  /** Up to the payload: which of the structural checks fails first, if any. */
  lemma BoundDecides(a: Agent, job: Job)
    ensures Bound(a, job).None? <==>
            && "_envelope" in job.params && a.codec.decodeEnvelope(job.params["_envelope"]).Some?
            && var e := a.codec.decodeEnvelope(job.params["_envelope"]).value;
               WholeEnvelope(e) && PayloadIsBound(a, job, e) && job.jobType in REGISTRY
    ensures Bound(a, job).None? ==> TheEnvelope(a, job) == a.codec.decodeEnvelope(job.params["_envelope"]).value
  {
    if ENVELOPE_KEY in job.params {
      ParsedExactlyWhen(a.codec, job.params[ENVELOPE_KEY]);
      if ParseEnvelope(a.codec, job.params[ENVELOPE_KEY]).Some? {
        BindingIsDecided(a, job, ParseEnvelope(a.codec, job.params[ENVELOPE_KEY]).value);
      }
    }
  }

  lemma StepsAreCovered(codec: Codec, steps: Json, requested: seq<string>)
    ensures CoversSteps(codec, steps, requested)
       <==> StepCapabilities(Marshal(steps, codec.escape), codec.fold) <= SetOf(requested)
  {
    var json := Marshal(steps, codec.escape);
    forall t | t in STEP_TYPES
      ensures StepCapability(t).value in StepCapabilities(json, codec.fold)
         <==> (|| Mentions(steps, t, codec.fold, codec.escape)
               || (t == "command" && forall u :: u in OTHER_TYPES ==> !Mentions(steps, u, codec.fold, codec.escape)))
    {
      DemandedExactlyWhenMentioned(steps, t, codec.escape, codec.fold);
    }
  }

  lemma EmptyTextDemandsBash(codec: Codec, steps: Json)
    requires Marshal(steps, codec.escape) == ""
    ensures StepCapabilities("", codec.fold) == {"EXEC_BASH"}
  {
    forall u | u in STEP_TYPES
      ensures !Finds("", codec.fold, u)
    {}
    assert DemandedTypes("", codec.fold) == {"command"};
  }

  lemma CoversDecides(codec: Codec, job: Job, requested: seq<string>)
    requires job.jobType in REGISTRY
    ensures CoversJob(codec, job, requested) <==> Required(codec, job) <= SetOf(requested)
  {
    if job.jobType == "WORKFLOW_STEPS" {
      var steps := if STEPS_KEY in job.params then codec.asJson(job.params[STEPS_KEY]) else Some(Null);
      if steps.Some? {
        StepsAreCovered(codec, steps.value, requested);
        if Marshal(steps.value, codec.escape) == "" {
          EmptyTextDemandsBash(codec, steps.value);
        }
      }
    }
  }

  lemma ClaimDecides(a: Agent, c: Claim, e: Envelope, r: Readings, t: Table)
    requires a.verifier.Some? && a.codec.canonical(e.payload).Some?
    ensures ClaimComplete(c) <==> WholeClaim(c)
    ensures ClaimBinds(a.verifier.value, c, e, a.codec.hash(a.codec.canonical(e.payload).value), r.now)
       <==> ClaimIsFor(a, c, e, r.now)
    ensures ClaimIsFor(a, c, e, r.now) ==>
              (ClaimCounts(a, c, r, t) <==>
                MarkResult(t, ClaimNonce(c), r.claim) == Fresh && ClaimSigned(a.codec, a.verifier.value, c))
  {}

  lemma RefusalDecides(policy: Option<LocalPolicy>, c: string, now: int, approved: set<string>)
    ensures Refusal(policy, c, now, approved).None? <==>
            (IsHighRisk(c) ==> PolicyPermits(policy, c, now, c in approved))
  {
    NeedsPolicyIsHighRisk(c);
  }

  lemma {:induction false} EvaluateDecidesPolicy(policy: Option<LocalPolicy>, capabilities: seq<string>, now: int,
                                                approved: set<string>)
    ensures Evaluate(policy, capabilities, now, approved).None? <==> PolicyAllows(policy, capabilities, now, approved)
  {
    if capabilities == [] {
    } else {
      RefusalDecides(policy, capabilities[0], now, approved);
      EvaluateDecidesPolicy(policy, capabilities[1..], now, approved);
      assert capabilities == [capabilities[0]] + capabilities[1..];
    }
  }

  lemma AfterNonceDecides(a: Agent, job: Job, r: Readings, t: Table)
    requires Bound(a, job).None? && a.verifier.Some?
    ensures var e := TheEnvelope(a, job);
      AfterNonce(a, job, r, t).rejected.None? <==>
        && CoversJob(a.codec, job, e.requestedCapabilities)
        && ClaimHolds(a, job, e, r, t)
        && forall c :: c in e.requestedCapabilities && IsHighRisk(c) ==>
             PolicyPermits(a.policy, c, r.now, Approves(a, job, c))
  {
    var e := TheEnvelope(a, job);
    CoversDecides(a.codec, job, e.requestedCapabilities);
    if CLAIM_KEY in job.params && a.codec.decodeClaim(job.params[CLAIM_KEY]).Some? {
      ClaimDecides(a, a.codec.decodeClaim(job.params[CLAIM_KEY]).value, e, r, t);
    }
    EvaluateDecidesPolicy(a.policy, e.requestedCapabilities, r.now, ApprovedByClaim(a, job));
    assert forall c :: c in ApprovedByClaim(a, job) <==> Approves(a, job, c);
  }

  lemma VerifyDecides(a: Agent, e: Envelope, now: int)
    ensures Verify(a.codec, a.verifier, e, a.id, now).None? <==> SignedAndInDate(a, e, now)
  {}

  /** Under enforcement a job is admitted exactly when all the checks hold. */
  lemma AdmittedExactlyWhen(a: Agent, job: Job, r: Readings, t: Table)
    requires a.enforce
    ensures Judge(a, job, r, t).rejected.None? <==> Admissible(a, job, r, t)
  {
    BoundDecides(a, job);
    if Bound(a, job).None? {
      var e := TheEnvelope(a, job);
      VerifyDecides(a, e, r.now);
      if Verify(a.codec, a.verifier, e, a.id, r.now).None? {
        AfterNonceDecides(a, job, r, MarkTable(t, e.nonce, e.jobId, r.envelope));
      }
    }
  }

  /** Without enforcement only an envelope that is there and cannot be read is rejected, and no nonce is consumed. */
  lemma ObservedExactlyWhen(a: Agent, job: Job, r: Readings, t: Table)
    requires !a.enforce
    ensures var v := Judge(a, job, r, t);
      && v.table == t
      && v.rejected == (
           if "_envelope" in job.params
              && !(a.codec.decodeEnvelope(job.params["_envelope"]).Some?
                   && WholeEnvelope(a.codec.decodeEnvelope(job.params["_envelope"]).value))
           then Some(MalformedEnvelope) else None)
  {
    if ENVELOPE_KEY in job.params {
      ParsedExactlyWhen(a.codec, job.params[ENVELOPE_KEY]);
    }
  }

  /**
   Whatever steps the parameters of an admitted workflow job hold, the signed
   request names the capability of each step the executor can dispatch.
   */
  lemma AdmittedWorkflowIsCovered(a: Agent, job: Job, r: Readings, t: Table,
                                  steps: seq<Json>, i: nat, stepType: string)
    requires a.enforce && Judge(a, job, r, t).rejected.None?
    requires job.jobType == "WORKFLOW_STEPS" && "steps" in job.params
    requires a.codec.asJson(job.params["steps"]) == Some(List(steps))
    requires i < |steps| && HasType(steps[i], stepType) && StepCapability(stepType).Some?
    ensures "_envelope" in job.params && a.codec.decodeEnvelope(job.params["_envelope"]).Some?
    ensures StepCapability(stepType).value
         in a.codec.decodeEnvelope(job.params["_envelope"]).value.requestedCapabilities
  {
    AdmittedCovers(a, job, r, t);
    var e := a.codec.decodeEnvelope(job.params["_envelope"]).value;
    CoveredStep(a.codec, steps, i, stepType, e.requestedCapabilities);
  }

  lemma AdmittedCovers(a: Agent, job: Job, r: Readings, t: Table)
    requires a.enforce && Judge(a, job, r, t).rejected.None?
    ensures "_envelope" in job.params && a.codec.decodeEnvelope(job.params["_envelope"]).Some?
    ensures CoversJob(a.codec, job, a.codec.decodeEnvelope(job.params["_envelope"]).value.requestedCapabilities)
  {
    AdmittedExactlyWhen(a, job, r, t);
  }

  lemma CoveredStep(codec: Codec, steps: seq<Json>, i: nat, stepType: string, requested: seq<string>)
    requires CoversSteps(codec, List(steps), requested)
    requires i < |steps| && HasType(steps[i], stepType) && StepCapability(stepType).Some?
    ensures StepCapability(stepType).value in requested
  {
    StepTypesAreLowerCase(stepType);
    TypeIsMentioned(steps, i, stepType, codec.fold, codec.escape);
  }

  // --------------------------------------------------- the gate as it is run

  /** Walks the parameters, in any order, and copies all but the transport keys. */
  method CopyOuter(params: map<string, Value>) returns (outer: map<string, Value>)
    ensures outer.Keys == params.Keys - {"_envelope", "_approval_claim"}
    ensures forall k :: k in outer ==> outer[k] == params[k]
    ensures outer == OuterParams(params)
  {
    outer := map[];
    var left := params.Keys;
    while left != {}
      invariant left <= params.Keys
      invariant outer == map k | k in params && k !in left && k != ENVELOPE_KEY && k != CLAIM_KEY :: params[k]
      decreases left
    {
      var k :| k in left;
      if k != ENVELOPE_KEY && k != CLAIM_KEY {
        outer := outer[k := params[k]];
      }
      left := left - {k};
    }
  }

  /** The required capabilities that the request lacks. */
  method MissingCapabilities(requested: seq<string>, required: set<string>) returns (missing: set<string>)
    ensures forall c :: c in missing <==> c in required && c !in requested
  {
    var have: set<string> := {};
    for i := 0 to |requested|
      invariant have == SetOf(requested[..i])
    {
      have := have + {requested[i]};
      assert requested[..i + 1] == requested[..i] + [requested[i]];
    }
    assert requested[..|requested|] == requested;
    missing := {};
    var left := required;
    while left != {}
      invariant left <= required
      invariant missing == (required - left) - have
      decreases left
    {
      var c :| c in left;
      if c !in have {
        missing := missing + {c};
      }
      left := left - {c};
    }
  }

  method EvaluateAuthorizations(policy: Option<LocalPolicy>, capabilities: seq<string>, now: int, approved: set<string>)
    returns (why: Option<Rejection>)
    ensures why == Evaluate(policy, capabilities, now, approved)
    ensures why.None? <==> PolicyAllows(policy, capabilities, now, approved)
  {
    EvaluateDecidesPolicy(policy, capabilities, now, approved);
    for i := 0 to |capabilities|
      invariant Evaluate(policy, capabilities, now, approved) == Evaluate(policy, capabilities[i..], now, approved)
    {
      var c := capabilities[i];
      var risk := RiskFor(c);
      if RiskTier(risk) < 2 {
        continue;
      }
      if policy.None? {
        return Some(PolicyMissing);
      }
      if now - policy.value.receivedAt > MAX_POLICY_AGE {
        return Some(PolicyStale);
      }
      if c !in policy.value.capabilities || !policy.value.capabilities[c].enabled {
        return Some(CapabilityDisabled);
      }
      if policy.value.capabilities[c].requireApproval && c !in approved {
        return Some(ApprovalRequired);
      }
    }
    return None;
  }

  /** Checks a claim; its nonce is consumed before its signature is looked at. */
  method VerifyApprovalClaim(a: Agent, c: Claim, e: Envelope, jobHash: string, replay: ReplayStore, r: Readings)
    returns (ok: bool)
    requires a.verifier.Some?
    modifies replay
    ensures var v := a.verifier.value;
      if !ClaimBinds(v, c, e, jobHash, r.now) then !ok && replay.seen == old(replay.seen)
      else
        && replay.seen == MarkTable(old(replay.seen), ClaimNonce(c), c.jobId, r.claim)
        && (ok <==> MarkResult(old(replay.seen), ClaimNonce(c), r.claim) == Fresh && ClaimSigned(a.codec, v, c))
  {
    var v, version := a.verifier.value, KeyOf(c.keyVersion);
    if version !in v.byVersion || version in v.retired || Unix(r.now) > c.expiresAt
       || c.jobId != e.jobId || c.jobHash != jobHash || (e.agentId != "" && c.targetAgentId != e.agentId) {
      return false;
    }
    var missing := MissingCapabilities(c.capabilities, SetOf(e.requestedCapabilities));
    if missing != {} {
      var need :| need in missing;
      assert need in e.requestedCapabilities && need !in c.capabilities;
      return false;
    }
    forall need | need in e.requestedCapabilities
      ensures need in c.capabilities
    {
      assert need !in missing;
    }
    var marked := replay.MarkSeen(ClaimNonce(c), c.jobId, r.claim);
    if marked != Fresh {
      return false;
    }
    var b := a.codec.claimBytes(c);
    return b.Some? && a.codec.verifies(v.byVersion[version], b.value, c.signature);
  }

  /** The checks after the envelope's nonce: capability coverage, claim, policy. */
  method CheckGrants(a: Agent, job: Job, e: Envelope, replay: ReplayStore, r: Readings)
    returns (rejected: Option<Rejection>)
    requires Bound(a, job).None? && a.verifier.Some? && e == TheEnvelope(a, job)
    modifies replay
    ensures rejected == AfterNonce(a, job, r, old(replay.seen)).rejected
    ensures replay.seen == AfterNonce(a, job, r, old(replay.seen)).table
  {
    var required := Required(a.codec, job);
    var missing := MissingCapabilities(e.requestedCapabilities, required);
    if missing != {} {
      return Some(CapabilityGap);
    }
    assert required <= SetOf(e.requestedCapabilities);
    var approved: set<string> := {};
    if CLAIM_KEY in job.params {
      var claim := a.codec.decodeClaim(job.params[CLAIM_KEY]);
      if claim.None? || !ClaimComplete(claim.value) {
        return Some(ApprovalMalformed);
      }
      var ok := VerifyApprovalClaim(a, claim.value, e, a.codec.hash(a.codec.canonical(e.payload).value), replay, r);
      if !ok {
        return Some(ApprovalInvalid);
      }
      approved := SetOf(claim.value.capabilities);
    }
    rejected := EvaluateAuthorizations(a.policy, e.requestedCapabilities, r.now, approved);
  }

  /** The whole gate, on the replay memory itself. */
  method ValidateAndAuthorize(a: Agent, job: Job, replay: ReplayStore, r: Readings)
    returns (rejected: Option<Rejection>)
    modifies replay
    ensures rejected == Judge(a, job, r, old(replay.seen)).rejected
    ensures replay.seen == Judge(a, job, r, old(replay.seen)).table
  {
    if ENVELOPE_KEY !in job.params {
      return if a.enforce then Some(UnsignedJob) else None;
    }
    var parsed := ParseEnvelope(a.codec, job.params[ENVELOPE_KEY]);
    if parsed.None? {
      return Some(MalformedEnvelope);
    }
    if !a.enforce {
      return None;
    }
    var e := parsed.value;
    var outer := CopyOuter(job.params);
    var want := WantedBytes(a.codec, outer);
    if want.None? {
      return Some(MalformedParams);
    }
    if a.codec.canonical(e.payload) != want {
      return Some(PayloadMismatch);
    }
    if job.jobType !in REGISTRY {
      return Some(UnknownCapability);
    }
    var bad := Verify(a.codec, a.verifier, e, a.id, r.now);
    if bad.Some? {
      return bad;
    }
    var marked := replay.MarkSeen(e.nonce, e.jobId, r.envelope);
    if marked.StoreError? {
      return Some(ReplayStoreError);
    }
    if marked.Duplicate? {
      return Some(DuplicateJob);
    }
    rejected := CheckGrants(a, job, e, replay, r);
  }
}
