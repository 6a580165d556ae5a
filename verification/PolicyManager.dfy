/**
 Desired-state policy: verify an envelope, apply it to the running collectors,
 probe their health, and only then commit it to the store; and what that
 guarantees over whole sequences of processes, crashes and restarts.
 */
module PolicyManager {
  import opened Common
  import opened PolicyDisk

  datatype Policy = Policy(name: string, collectors: map<string, bool>)

  /** Hashing, key and signature checks and parsing are given. */
  datatype Crypto = Crypto(
    hash: Bytes -> string,
    keyIsValid: string -> bool,
    decodeSignature: string -> Option<Bytes>,
    verifies: (string, Bytes, Bytes) -> bool,
    parse: Bytes -> Option<Policy>)

  datatype Envelope = Envelope(policyId: string, version: int, hash: string, signature: string, keyId: string)

  datatype VerifyResult = Accepted(policy: Policy) | BadHash | BadSignature | UnknownSigner | Downgrade | Duplicate

  /** The pipeline: hash, pinned key, signature, version, schema. */
  function Check(c: Crypto, current: int, payload: Bytes, env: Envelope, trusted: map<string, string>)
    : (r: VerifyResult)
  {
    if c.hash(payload) != env.hash then BadHash
    else if env.keyId !in trusted || !c.keyIsValid(trusted[env.keyId]) then UnknownSigner
    else
      var sig := c.decodeSignature(env.signature);
      if sig.None? || !c.verifies(trusted[env.keyId], payload, sig.value) then BadSignature
      else if env.version < current then Downgrade
      else if env.version == current then Duplicate
      else match c.parse(payload)
        case None => BadHash
        case Some(p) => Accepted(p)
  }

  ghost predicate Genuine(c: Crypto, payload: Bytes, env: Envelope, trusted: map<string, string>) {
    && c.hash(payload) == env.hash
    && env.keyId in trusted && c.keyIsValid(trusted[env.keyId])
    && c.decodeSignature(env.signature).Some?
    && c.verifies(trusted[env.keyId], payload, c.decodeSignature(env.signature).value)
  }

  /** The key is pinned and can be read. */
  ghost predicate Pinned(c: Crypto, env: Envelope, trusted: map<string, string>) {
    env.keyId in trusted && c.keyIsValid(trusted[env.keyId])
  }

  /** The signature can be decoded and is that of the key over these bytes. */
  ghost predicate Signed(c: Crypto, payload: Bytes, env: Envelope, trusted: map<string, string>)
    requires env.keyId in trusted
  {
    c.decodeSignature(env.signature).Some?
    && c.verifies(trusted[env.keyId], payload, c.decodeSignature(env.signature).value)
  }

  /**
   Every verdict with its exact condition. A document is accepted exactly when it
   is genuine, well formed and newer than the start version; a duplicate is a
   genuine one of just that version.
   */
  lemma AcceptedExactlyWhen(c: Crypto, current: int, payload: Bytes, env: Envelope, trusted: map<string, string>)
    ensures var why := Check(c, current, payload, env, trusted);
      && (why.Accepted? <==> Genuine(c, payload, env, trusted) && env.version > current && c.parse(payload).Some?)
      && (why.Accepted? ==> c.parse(payload) == Some(why.policy))
      && (why == Duplicate <==> Genuine(c, payload, env, trusted) && env.version == current)
      && (why == Downgrade <==> Genuine(c, payload, env, trusted) && env.version < current)
      && (why == UnknownSigner <==> c.hash(payload) == env.hash && !Pinned(c, env, trusted))
      && (why == BadSignature <==>
            c.hash(payload) == env.hash && Pinned(c, env, trusted) && !Signed(c, payload, env, trusted))
      && (why == BadHash <==>
            || c.hash(payload) != env.hash
            || (Genuine(c, payload, env, trusted) && env.version > current && c.parse(payload).None?))
  {}

  /** The collectors a policy leaves on, from the pristine list. */
  function FilterRegistry(registry: seq<string>, enabled: map<string, bool>): (r: seq<string>) {
    if registry == [] then [] else
    var rest := FilterRegistry(registry[1..], enabled);
    if registry[0] in enabled && enabled[registry[0]] then [registry[0]] + rest else rest
  }

  method Filter(registry: seq<string>, enabled: map<string, bool>) returns (out: seq<string>)
    ensures out == FilterRegistry(registry, enabled)
  {
    out := [];
    for i := 0 to |registry|
      invariant out + FilterRegistry(registry[i..], enabled) == FilterRegistry(registry, enabled)
    {
      var c := registry[i];
      if c in enabled && enabled[c] {
        out := out + [c];
      }
    }
  }

  /** Filtering keeps exactly the enabled collectors of the list. */
  lemma {:induction false} FilterKeepsEnabled(registry: seq<string>, enabled: map<string, bool>)
    ensures forall c :: c in FilterRegistry(registry, enabled) <==> c in registry && c in enabled && enabled[c]
  {
    if registry == [] {
    } else {
      FilterKeepsEnabled(registry[1..], enabled);
      assert registry == [registry[0]] + registry[1..];
    }
  }

  /** It goes through the list from left to right, keeping or leaving out each collector by itself. */
  lemma {:induction false} FilterSplits(xs: seq<string>, ys: seq<string>, enabled: map<string, bool>, c: string)
    ensures FilterRegistry(xs + ys, enabled) == FilterRegistry(xs, enabled) + FilterRegistry(ys, enabled)
    ensures FilterRegistry([c], enabled) == (if c in enabled && enabled[c] then [c] else [])
  {
    if xs == [] {
      assert xs + ys == ys;
    } else {
      assert (xs + ys)[1..] == xs[1..] + ys;
      FilterSplits(xs[1..], ys, enabled, c);
    }
  }

  /** What the fleet sends, and what the host's collectors answer while it is handled. */
  datatype Offer = Offer(payload: Bytes, env: Envelope, deploymentId: string, snapshots: set<string>, cancelled: bool)

  datatype Verdict = Applied | Refused(why: VerifyResult) | Malformed | ApplyFailed

  datatype Report = Report(policyId: string, version: int, verdict: Verdict, deploymentId: string)

  predicate Complete(o: Offer) {
    o.payload != "" && o.env.hash != "" && o.env.signature != "" && o.env.version > 0
  }

  /** The probe: some enabled collector has a snapshot, unless the agent is stopping. */
  ghost predicate Healthy(p: Policy, o: Offer) {
    o.cancelled || exists d :: d in p.collectors && p.collectors[d] && d in o.snapshots
  }

  function MetaOf(p: Policy, env: Envelope): (r: StoredMeta) {
    StoredMeta(p.name, env.version, env.hash, env.signature, env.keyId)
  }

  /** What the stored files can be after an offer: untouched, or part or all of one commit. */
  ghost predicate Handles(c: Crypto, m: MetaCodec, trusted: map<string, string>, current: int,
                          before: Live, o: Offer, after: Live)
  {
    || after == before
    || (&& Complete(o)
        && Check(c, current, o.payload, o.env, trusted).Accepted?
        && Healthy(Check(c, current, o.payload, o.env, trusted).policy, o)
        && CommitEffect(before, after, o.payload,
                        m.encode(MetaOf(Check(c, current, o.payload, o.env, trusted).policy, o.env))))
  }

  class DesiredPolicyManager {
    const disk: Disk
    const crypto: Crypto
    const codec: MetaCodec
    const trusted: map<string, string>
    const baseRegistry: seq<string>
    /** Read from the store once, when the process starts. */
    const current: int
    /** The collectors the runner runs at present. */
    var registry: seq<string>
    var report: Option<Report>
    /** The process has died in a crash. */
    var dead: bool

    constructor (disk: Disk, crypto: Crypto, codec: MetaCodec, trusted: map<string, string>, baseRegistry: seq<string>,
                 current: int)
      ensures this.disk == disk && this.crypto == crypto && this.codec == codec && this.trusted == trusted
      ensures this.current == current && this.baseRegistry == this.registry == baseRegistry && !dead && report == None
    {
      this.disk := disk;
      this.crypto := crypto;
      this.codec := codec;
      this.trusted := trusted;
      this.baseRegistry := baseRegistry;
      this.registry := baseRegistry;
      this.current := current;
      this.report := None;
      this.dead := false;
    }

    /** Probes the enabled collectors in any order until one answers. */
    method HealthCheck(p: Policy, o: Offer) returns (ok: bool)
      ensures ok <==> Healthy(p, o)
    {
      if o.cancelled {
        return true;
      }
      var left := set d | d in p.collectors && p.collectors[d];
      while left != {}
        invariant forall d :: d in left ==> d in p.collectors && p.collectors[d]
        invariant forall d :: d in p.collectors && p.collectors[d] && d in o.snapshots ==> d in left
        decreases left
      {
        var d :| d in left;
        if d in o.snapshots {
          return true;
        }
        left := left - {d};
      }
      return false;
    }

    /** Stage, apply, health check, commit. */
    method Apply(p: Policy, o: Offer) returns (r: Outcome)
      requires disk.Settled() && crypto.parse(o.payload) == Some(p)
      modifies this`registry, disk
      ensures disk.Settled() && registry == FilterRegistry(baseRegistry, p.collectors)
      ensures var before, after := old(LiveOf(disk.files)), LiveOf(disk.files);
        if !Healthy(p, o) then r.Failed? && after == before
        else
          && CommitEffect(before, after, o.payload, codec.encode(MetaOf(p, o.env)))
          && (r.Done? ==> HoldsDocument(o, p))
          && (Smooth(old(disk.fates)) ==> r.Done?)
      ensures r.Crashed? ==> !Smooth(old(disk.fates))
    {
      registry := Filter(baseRegistry, p.collectors);
      var healthy := HealthCheck(p, o);
      if !healthy {
        return Failed;
      }
      r := disk.Commit(o.payload, MetaOf(p, o.env), codec);
    }

    method HandleEnvelope(o: Offer)
      requires disk.Settled() && !dead
      modifies this`registry, this`report, this`dead, disk
      ensures disk.Settled()
      ensures Handles(crypto, codec, trusted, current, old(LiveOf(disk.files)), o, LiveOf(disk.files))
      ensures !WillApply(o) ==>
                !dead && registry == old(registry) && LiveOf(disk.files) == old(LiveOf(disk.files))
      ensures WillApply(o) ==>
                registry == FilterRegistry(baseRegistry, crypto.parse(o.payload).value.collectors)
      ensures dead ==> !Smooth(old(disk.fates))
      ensures !dead ==> report.Some? && report.value.policyId == o.env.policyId
                        && report.value.version == o.env.version && report.value.deploymentId == o.deploymentId
      ensures !dead ==> (report.value.verdict == Malformed <==> IsMalformed(o))
      ensures !dead && !IsMalformed(o) && !Genuine(crypto, o.payload, o.env, trusted) ==>
                report.value.verdict.Refused?
      ensures !dead && !IsMalformed(o) && Genuine(crypto, o.payload, o.env, trusted) && o.env.version < current ==>
                report.value.verdict == Refused(Downgrade)
      ensures !dead && report.value.verdict.Refused? ==>
                report.value.verdict.why == Check(crypto, current, o.payload, o.env, trusted)
      ensures !dead && report.value.verdict == ApplyFailed ==>
                WillApply(o) && !(Healthy(crypto.parse(o.payload).value, o) && Smooth(old(disk.fates)))
      ensures !dead && report.value.verdict == Applied ==>
                || IsRepeated(o)
                || (&& WillApply(o) && Healthy(crypto.parse(o.payload).value, o)
                    && HoldsDocument(o, crypto.parse(o.payload).value))
      ensures Smooth(old(disk.fates)) ==>
                !dead
                && (report.value.verdict == Applied <==>
                      IsRepeated(o) || (WillApply(o) && Healthy(crypto.parse(o.payload).value, o)))
    {
      AcceptedExactlyWhen(crypto, current, o.payload, o.env, trusted);
      if !Complete(o) {
        report := Some(Report(o.env.policyId, o.env.version, Malformed, o.deploymentId));
        return;
      }
      var res := Check(crypto, current, o.payload, o.env, trusted);
      match res {
        case Duplicate =>
          report := Some(Report(o.env.policyId, o.env.version, Applied, o.deploymentId));
        case Accepted(p) =>
          var r := Apply(p, o);
          if r.Crashed? {
            dead := true;
          } else {
            var verdict := if r.Done? then Applied else ApplyFailed;
            report := Some(Report(o.env.policyId, o.env.version, verdict, o.deploymentId));
          }
        case why =>
          report := Some(Report(o.env.policyId, o.env.version, Refused(why), o.deploymentId));
      }
    }

    /** Something the envelope must have is missing. */
    ghost predicate IsMalformed(o: Offer) {
      o.payload == "" || o.env.hash == "" || o.env.signature == "" || o.env.version <= 0
    }

    /** A genuine document of the version the process started from. */
    ghost predicate IsRepeated(o: Offer) {
      !IsMalformed(o) && Genuine(crypto, o.payload, o.env, trusted) && o.env.version == current
    }

    /** A genuine, parsable document of a newer version. */
    ghost predicate WillApply(o: Offer) {
      && !IsMalformed(o) && Genuine(crypto, o.payload, o.env, trusted) && o.env.version > current
      && crypto.parse(o.payload).Some?
    }

    /** The store holds exactly the offered document. */
    ghost predicate HoldsDocument(o: Offer, p: Policy)
      reads disk
    {
      LiveOf(disk.files) ==
        Live(Some(o.payload),
             Some(codec.encode(StoredMeta(p.name, o.env.version, o.env.hash, o.env.signature, o.env.keyId))))
    }
  }

  /**
   Starts a process: the verifier's version is what the store says now, or zero
   when it cannot be read. No process comes of a start during which the power goes.
   */
  method Start(disk: Disk, crypto: Crypto, codec: MetaCodec, trusted: map<string, string>, baseRegistry: seq<string>)
    returns (m: DesiredPolicyManager, r: Outcome)
    requires disk.Settled()
    modifies disk
    ensures disk.Settled() && LiveOf(disk.files) == LiveOf(old(disk.files))
    ensures fresh(m) && m.disk == disk && m.crypto == crypto && m.codec == codec && m.trusted == trusted
    ensures m.current == VersionRead(codec, LiveOf(disk.files), !r.Done?)
    ensures m.baseRegistry == m.registry == baseRegistry && !m.dead
  {
    var current;
    current, r := disk.CurrentVersion(codec);
    m := new DesiredPolicyManager(disk, crypto, codec, trusted, baseRegistry, current);
  }
}
