/**
 Successive processes of the agent over one policy store. A process reads the
 stored version once, handles offers, and ends at any point, by a restart or by
 a crash in the middle of a commit.
 */
module PolicyHistory {
  import opened Common
  import opened PolicyDisk
  import opened PolicyManager

  datatype World = World(crypto: Crypto, codec: MetaCodec, trusted: map<string, string>)

  /** `states[i]` are the live files before offer `i`; the last is what the next process finds. */
  datatype Process = Process(readFailed: bool, offers: seq<Offer>, states: seq<Live>)

  /** The version a process starts from. */
  function StartVersion(w: World, p: Process): (r: int)
    requires p.states != []
  {
    VersionRead(w.codec, p.states[0], p.readFailed)
  }

  ghost predicate IsProcess(w: World, p: Process) {
    && |p.states| == |p.offers| + 1
    && forall i :: 0 <= i < |p.offers| ==>
         Handles(w.crypto, w.codec, w.trusted, StartVersion(w, p), p.states[i], p.offers[i], p.states[i + 1])
  }

  function Last(p: Process): (r: Live)
    requires p.states != []
  {
    p.states[|p.states| - 1]
  }

  ghost predicate IsHistory(w: World, ps: seq<Process>) {
    && (forall k :: 0 <= k < |ps| ==> IsProcess(w, ps[k]))
    && (forall k :: 0 < k < |ps| ==> Last(ps[k - 1]) == ps[k].states[0])
  }

  /** Metadata is never without a payload and always decodes; true of an empty store. */
  ghost predicate Coherent(w: World, live: Live) {
    live.meta.Some? ==> live.payload.Some? && w.codec.decode(live.meta.value).Some?
  }

  lemma ProcessGrows(w: World, p: Process, o: Offer, after: Live)
    requires IsProcess(w, p)
    requires Handles(w.crypto, w.codec, w.trusted, StartVersion(w, p), Last(p), o, after)
    ensures IsProcess(w, Process(p.readFailed, p.offers + [o], p.states + [after]))
  {}

  /** One process on a real disk: it starts, handles offers, and stops early if the power goes. */
  method RunProcess(disk: Disk, w: World, baseRegistry: seq<string>, offers: seq<Offer>)
    returns (life: Option<Process>)
    requires disk.Settled()
    modifies disk
    ensures disk.Settled()
    ensures life.None? ==> LiveOf(disk.files) == LiveOf(old(disk.files))
    ensures life.Some? ==>
              && IsProcess(w, life.value) && life.value.offers <= offers
              && life.value.states[0] == LiveOf(old(disk.files)) && Last(life.value) == LiveOf(disk.files)
  {
    var m, started := Start(disk, w.crypto, w.codec, w.trusted, baseRegistry);
    if started.Crashed? {
      return None;
    }
    var p := Process(started.Failed?, [], [LiveOf(disk.files)]);
    var i := 0;
    while i < |offers| && !m.dead
      invariant i <= |offers| && p.offers == offers[..i] && p.readFailed == started.Failed?
      invariant disk.Settled() && IsProcess(w, p)
      invariant p.states[0] == LiveOf(old(disk.files)) && Last(p) == LiveOf(disk.files)
      decreases |offers| - i
    {
      m.HandleEnvelope(offers[i]);
      ProcessGrows(w, p, offers[i], LiveOf(disk.files));
      p := Process(p.readFailed, p.offers + [offers[i]], p.states + [LiveOf(disk.files)]);
      i := i + 1;
    }
    return Some(p);
  }

  /** Any number of starts, one after the other, whatever each start and each write meets. */
  method RunHistory(disk: Disk, w: World, baseRegistry: seq<string>, batches: seq<seq<Offer>>)
    returns (ps: seq<Process>)
    requires disk.Settled()
    modifies disk
    ensures disk.Settled() && IsHistory(w, ps) && |ps| <= |batches|
    ensures ps == [] ==> LiveOf(disk.files) == LiveOf(old(disk.files))
    ensures ps != [] ==>
              ps[0].states[0] == LiveOf(old(disk.files)) && Last(ps[|ps| - 1]) == LiveOf(disk.files)
  {
    ps := [];
    for i := 0 to |batches|
      invariant disk.Settled() && IsHistory(w, ps) && |ps| <= i
      invariant ps == [] ==> LiveOf(disk.files) == LiveOf(old(disk.files))
      invariant ps != [] ==>
                  ps[0].states[0] == LiveOf(old(disk.files)) && Last(ps[|ps| - 1]) == LiveOf(disk.files)
    {
      var life := RunProcess(disk, w, baseRegistry, batches[i]);
      if life.Some? {
        ps := ps + [life.value];
      }
    }
  }

  // --------------------------------------------------------- within a process

  /** One offer keeps the files coherent and the stored version no lower than the start version. */
  lemma HandlingKeepsFloor(w: World, current: int, before: Live, o: Offer, after: Live)
    requires RoundTrips(w.codec) && Coherent(w, before)
    requires Handles(w.crypto, w.codec, w.trusted, current, before, o, after)
    ensures Coherent(w, after)
    ensures VersionOf(w.codec, before) >= current ==> VersionOf(w.codec, after) >= current
    ensures after.meta != before.meta ==> VersionOf(w.codec, after) == o.env.version > current
  {
    AcceptedExactlyWhen(w.crypto, current, o.payload, o.env, w.trusted);
    var checked := Check(w.crypto, current, o.payload, o.env, w.trusted);
    if checked.Accepted? {
      var m := MetaOf(checked.policy, o.env);
      assert w.codec.decode(w.codec.encode(m)) == Some(m);
    }
  }

  /** From a start that could be read, or from zero, the stored version stays at or above the start version. */
  lemma {:induction false} ProcessKeepsFloor(w: World, p: Process, i: nat)
    requires RoundTrips(w.codec) && IsProcess(w, p) && Coherent(w, p.states[0]) && i < |p.states|
    requires !p.readFailed || VersionOf(w.codec, p.states[0]) >= 0
    ensures Coherent(w, p.states[i]) && VersionOf(w.codec, p.states[i]) >= StartVersion(w, p)
  {
    if i == 0 {
    } else {
      ProcessKeepsFloor(w, p, i - 1);
      HandlingKeepsFloor(w, StartVersion(w, p), p.states[i - 1], p.offers[i - 1], p.states[i]);
    }
  }

  lemma {:induction false} ProcessStaysCoherent(w: World, p: Process, i: nat)
    requires RoundTrips(w.codec) && IsProcess(w, p) && Coherent(w, p.states[0]) && i < |p.states|
    ensures Coherent(w, p.states[i])
  {
    if i == 0 {
    } else {
      ProcessStaysCoherent(w, p, i - 1);
      HandlingKeepsFloor(w, StartVersion(w, p), p.states[i - 1], p.offers[i - 1], p.states[i]);
    }
  }

  lemma {:induction false} HistoryStaysCoherent(w: World, ps: seq<Process>, k: nat)
    requires RoundTrips(w.codec) && IsHistory(w, ps) && k < |ps| && Coherent(w, ps[0].states[0])
    ensures Coherent(w, ps[k].states[0])
  {
    if k == 0 {
    } else {
      HistoryStaysCoherent(w, ps, k - 1);
      ProcessStaysCoherent(w, ps[k - 1], |ps[k - 1].states| - 1);
    }
  }

  // ------------------------------------------------------------- main results

  /**
   Across any number of processes, offers, failed writes and crashes in the
   middle of a commit: as long as the files can be read at each start, the
   version a process starts from never decreases.
   */
  lemma {:induction false} StartsNeverDecrease(w: World, ps: seq<Process>, k: nat, l: nat)
    requires RoundTrips(w.codec) && IsHistory(w, ps) && k <= l < |ps|
    requires Coherent(w, ps[0].states[0])
    requires forall j :: 0 <= j < |ps| ==> !ps[j].readFailed
    ensures StartVersion(w, ps[k]) <= StartVersion(w, ps[l])
    decreases l - k
  {
    if k == l {
    } else {
      HistoryStaysCoherent(w, ps, k);
      ProcessKeepsFloor(w, ps[k], |ps[k].states| - 1);
      StartsNeverDecrease(w, ps, k + 1, l);
    }
  }

  /** Whatever replaces the metadata is the offered version, above the one the process started from. */
  lemma EveryCommitExceedsStart(w: World, ps: seq<Process>, k: nat, i: nat)
    requires RoundTrips(w.codec) && IsHistory(w, ps) && k < |ps| && i < |ps[k].offers|
    requires Coherent(w, ps[0].states[0])
    requires ps[k].states[i + 1].meta != ps[k].states[i].meta
    ensures VersionOf(w.codec, ps[k].states[i + 1]) == ps[k].offers[i].env.version > StartVersion(w, ps[k])
  {
    HistoryStaysCoherent(w, ps, k);
    ProcessStaysCoherent(w, ps[k], i);
    HandlingKeepsFloor(w, StartVersion(w, ps[k]), ps[k].states[i], ps[k].offers[i], ps[k].states[i + 1]);
  }

  /**
   Starts never decrease exactly when no start that could not read the files
   comes after one from a positive version.
   */
  lemma StartsNeverDecreaseExactlyWhen(w: World, ps: seq<Process>)
    requires RoundTrips(w.codec) && IsHistory(w, ps)
    requires ps != [] ==> Coherent(w, ps[0].states[0]) && VersionOf(w.codec, ps[0].states[0]) >= 0
    ensures (forall k, l :: 0 <= k <= l < |ps| ==> StartVersion(w, ps[k]) <= StartVersion(w, ps[l]))
       <==> (forall k, l :: 0 <= k < l < |ps| && ps[l].readFailed ==> StartVersion(w, ps[k]) <= 0)
  {
    if forall k, l :: 0 <= k < l < |ps| && ps[l].readFailed ==> StartVersion(w, ps[k]) <= 0 {
      forall k, l | 0 <= k <= l < |ps|
        ensures StartVersion(w, ps[k]) <= StartVersion(w, ps[l])
      {
        StartsClimb(w, ps, k, l);
      }
    }
  }

  lemma {:induction false} HistoryStaysAboveZero(w: World, ps: seq<Process>, k: nat)
    requires RoundTrips(w.codec) && IsHistory(w, ps) && k < |ps|
    requires Coherent(w, ps[0].states[0]) && VersionOf(w.codec, ps[0].states[0]) >= 0
    ensures VersionOf(w.codec, ps[k].states[0]) >= 0
  {
    if k == 0 {
    } else {
      HistoryStaysAboveZero(w, ps, k - 1);
      HistoryStaysCoherent(w, ps, k - 1);
      ProcessKeepsFloor(w, ps[k - 1], |ps[k - 1].states| - 1);
    }
  }

  lemma {:induction false} StartsClimb(w: World, ps: seq<Process>, k: nat, l: nat)
    requires RoundTrips(w.codec) && IsHistory(w, ps) && k <= l < |ps|
    requires Coherent(w, ps[0].states[0]) && VersionOf(w.codec, ps[0].states[0]) >= 0
    requires forall k, l :: 0 <= k < l < |ps| && ps[l].readFailed ==> StartVersion(w, ps[k]) <= 0
    ensures StartVersion(w, ps[k]) <= StartVersion(w, ps[l])
  {
    if k == l {
    } else {
      StartsClimb(w, ps, k, l - 1);
      HistoryStaysAboveZero(w, ps, l - 1);
      HistoryStaysCoherent(w, ps, l - 1);
      ProcessKeepsFloor(w, ps[l - 1], |ps[l - 1].states| - 1);
    }
  }

  /** Offer `n` of process `j` came before moment `i` of process `k`. */
  predicate Earlier(ps: seq<Process>, j: nat, n: nat, k: nat, i: nat) {
    j < |ps| && n < |ps[j].offers| && (j < k || (j == k && n < i))
  }

  /** The payload was there from the start, or is one whole genuine document offered earlier. */
  ghost predicate PayloadHasSource(w: World, ps: seq<Process>, k: nat, i: nat)
    requires k < |ps| && ps[0].states != [] && i < |ps[k].states|
  {
    || ps[k].states[i].payload == ps[0].states[0].payload
    || exists j: nat, n: nat :: Earlier(ps, j, n, k, i) && HoldsPayload(w, ps[j].offers[n], ps[k].states[i].payload)
  }

  /** The metadata was there from the start, or is the whole record of one document offered earlier. */
  ghost predicate MetaHasSource(w: World, ps: seq<Process>, k: nat, i: nat)
    requires k < |ps| && ps[0].states != [] && i < |ps[k].states|
  {
    || ps[k].states[i].meta == ps[0].states[0].meta
    || exists j: nat, n: nat :: Earlier(ps, j, n, k, i) && HoldsMeta(w, ps[j].offers[n], ps[k].states[i].meta)
  }

  ghost predicate GenuineOffer(w: World, o: Offer) {
    Genuine(w.crypto, o.payload, o.env, w.trusted) && w.crypto.parse(o.payload).Some?
  }

  ghost predicate HoldsPayload(w: World, o: Offer, payload: Option<Bytes>) {
    GenuineOffer(w, o) && payload == Committed(w, o).payload
  }

  ghost predicate HoldsMeta(w: World, o: Offer, meta: Option<Bytes>) {
    GenuineOffer(w, o) && meta == Committed(w, o).meta
  }

  /** What one offer changes, it changes to its own whole document or record. */
  lemma ChangesAreWhole(w: World, current: int, before: Live, o: Offer, after: Live)
    requires Handles(w.crypto, w.codec, w.trusted, current, before, o, after)
    ensures after.payload == before.payload || HoldsPayload(w, o, after.payload)
    ensures after.meta == before.meta || HoldsMeta(w, o, after.meta)
  {
    AcceptedExactlyWhen(w.crypto, current, o.payload, o.env, w.trusted);
  }

  /**
   At every moment of every history each live file holds one whole document:
   the first one, or what a genuine offer made earlier puts there. Torn bytes
   never show, whatever they would decode to.
   */
  lemma {:induction false} LiveFilesAreWhole(w: World, ps: seq<Process>, k: nat, i: nat)
    requires IsHistory(w, ps) && k < |ps| && i < |ps[k].states|
    ensures PayloadHasSource(w, ps, k, i) && MetaHasSource(w, ps, k, i)
    decreases k, i
  {
    if i > 0 {
      LiveFilesAreWhole(w, ps, k, i - 1);
      ChangesAreWhole(w, StartVersion(w, ps[k]), ps[k].states[i - 1], ps[k].offers[i - 1], ps[k].states[i]);
      SourcesStay(w, ps, k, i - 1, k, i);
      assert Earlier(ps, k, i - 1, k, i);
    } else if k > 0 {
      LiveFilesAreWhole(w, ps, k - 1, |ps[k - 1].states| - 1);
      SourcesStay(w, ps, k - 1, |ps[k - 1].states| - 1, k, 0);
    }
  }

  /** A file that is the same at a later moment has the same source. */
  lemma SourcesStay(w: World, ps: seq<Process>, k: nat, i: nat, k': nat, i': nat)
    requires IsHistory(w, ps) && k < |ps| && i < |ps[k].states| && k' < |ps| && i' < |ps[k'].states|
    requires k < k' || (k == k' && i <= i')
    ensures PayloadHasSource(w, ps, k, i) && ps[k'].states[i'].payload == ps[k].states[i].payload ==>
              PayloadHasSource(w, ps, k', i')
    ensures MetaHasSource(w, ps, k, i) && ps[k'].states[i'].meta == ps[k].states[i].meta ==>
              MetaHasSource(w, ps, k', i')
  {
    assert forall j: nat, n: nat :: Earlier(ps, j, n, k, i) ==> Earlier(ps, j, n, k', i');
  }

  // ------------------------------------------------- where the guarantee ends

  /**
   A genuine version below the one stored when the process started is refused,
   all through that process, exactly when the files could be read at the start;
   otherwise the process starts from zero and accepts it.
   */
  lemma DowngradeRefusedExactlyWhenRead(w: World, live: Live, readFailed: bool, o: Offer)
    requires Genuine(w.crypto, o.payload, o.env, w.trusted) && w.crypto.parse(o.payload).Some?
    requires 0 < o.env.version < VersionOf(w.codec, live)
    ensures var r := Check(w.crypto, VersionRead(w.codec, live, readFailed), o.payload, o.env, w.trusted);
      (r == Downgrade <==> !readFailed) && (r.Accepted? <==> readFailed)
  {}

  /** The files after a complete commit of an accepted offer. */
  function Committed(w: World, o: Offer): (r: Live)
    requires w.crypto.parse(o.payload).Some?
  {
    Live(Some(o.payload), Some(w.codec.encode(MetaOf(w.crypto.parse(o.payload).value, o.env))))
  }

  /** An offer any process starting below its version would commit. */
  ghost predicate Committable(w: World, o: Offer) {
    && Complete(o) && Genuine(w.crypto, o.payload, o.env, w.trusted) && w.crypto.parse(o.payload).Some?
    && Healthy(w.crypto.parse(o.payload).value, o)
  }

  lemma CommittableIsHandled(w: World, current: int, before: Live, o: Offer)
    requires Committable(w, o) && o.env.version > current
    ensures Handles(w.crypto, w.codec, w.trusted, current, before, o, Committed(w, o))
    ensures RoundTrips(w.codec) ==> VersionOf(w.codec, Committed(w, o)) == o.env.version
  {
    AcceptedExactlyWhen(w.crypto, current, o.payload, o.env, w.trusted);
    var m := MetaOf(w.crypto.parse(o.payload).value, o.env);
    if RoundTrips(w.codec) {
      assert w.codec.decode(w.codec.encode(m)) == Some(m);
    }
  }

  /** Commit a version, restart, restart with a read error and commit a lower one, restart. */
  function HistoryWithReadError(w: World, high: Offer, low: Offer): (r: seq<Process>)
    requires w.crypto.parse(high.payload).Some? && w.crypto.parse(low.payload).Some?
  {
    [Process(false, [high], [Live(None, None), Committed(w, high)]),
     Process(false, [], [Committed(w, high)]),
     Process(true, [low], [Committed(w, high), Committed(w, low)]),
     Process(false, [], [Committed(w, low)])]
  }

  /** One start that cannot read the store is enough for a later process to start from a lower version. */
  lemma ReadErrorLetsStartsDecrease(w: World, high: Offer, low: Offer)
    requires RoundTrips(w.codec) && Committable(w, high) && Committable(w, low)
    requires low.env.version < high.env.version
    ensures IsHistory(w, HistoryWithReadError(w, high, low))
    ensures Coherent(w, HistoryWithReadError(w, high, low)[0].states[0])
    ensures var ps := HistoryWithReadError(w, high, low);
      StartVersion(w, ps[3]) < StartVersion(w, ps[1])
  {
    CommittableIsHandled(w, 0, Live(None, None), high);
    CommittableIsHandled(w, 0, Committed(w, high), low);
  }

  /**
   An offer lowers the stored version exactly when it replaces the metadata by
   one of a version above the start version and below the stored one.
   */
  lemma VersionDropsExactlyWhen(w: World, p: Process, i: nat)
    requires RoundTrips(w.codec) && IsProcess(w, p) && Coherent(w, p.states[0]) && i < |p.offers|
    ensures VersionOf(w.codec, p.states[i + 1]) < VersionOf(w.codec, p.states[i]) <==>
              && p.states[i + 1].meta != p.states[i].meta
              && StartVersion(w, p) < p.offers[i].env.version < VersionOf(w.codec, p.states[i])
  {
    ProcessStaysCoherent(w, p, i);
    HandlingKeepsFloor(w, StartVersion(w, p), p.states[i], p.offers[i], p.states[i + 1]);
  }

  /** What can be told before: the offers that can lower the stored version, if all writes succeed. */
  lemma OfferCanLowerExactlyWhen(w: World, current: int, before: Live, o: Offer)
    requires RoundTrips(w.codec) && Coherent(w, before)
    ensures (exists after :: Handles(w.crypto, w.codec, w.trusted, current, before, o, after)
                             && VersionOf(w.codec, after) < VersionOf(w.codec, before)) <==>
            Committable(w, o) && current < o.env.version < VersionOf(w.codec, before)
  {
    if Committable(w, o) && current < o.env.version < VersionOf(w.codec, before) {
      CommittableIsHandled(w, current, before, o);
      assert VersionOf(w.codec, Committed(w, o)) < VersionOf(w.codec, before);
    }
    forall after | Handles(w.crypto, w.codec, w.trusted, current, before, o, after)
                   && VersionOf(w.codec, after) < VersionOf(w.codec, before)
      ensures Committable(w, o) && current < o.env.version < VersionOf(w.codec, before)
    {
      HandlingKeepsFloor(w, current, before, o, after);
      AcceptedExactlyWhen(w.crypto, current, o.payload, o.env, w.trusted);
    }
  }

  /**
   Inside one process the stored version can go down: the verifier compares
   with the start version only, so both offers are committed, the lower last.
   */
  lemma VersionsCanDropInsideAProcess(w: World, start: Live, high: Offer, low: Offer)
    requires RoundTrips(w.codec) && Committable(w, high) && Committable(w, low)
    requires VersionOf(w.codec, start) < low.env.version < high.env.version
    ensures var p := Process(false, [high, low], [start, Committed(w, high), Committed(w, low)]);
      IsProcess(w, p) && VersionOf(w.codec, p.states[2]) < VersionOf(w.codec, p.states[1])
  {
    var current := VersionOf(w.codec, start);
    CommittableIsHandled(w, current, start, high);
    CommittableIsHandled(w, current, Committed(w, high), low);
  }
}
