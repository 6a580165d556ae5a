/**
 The replay memory of the agent: a table of consumed nonces, pruned on every
 insert. Clock readings are nanoseconds; the table stores whole seconds.
 */
module Replay {
  import opened Common

  /** 25 hours, in seconds. */
  const RETENTION_SECONDS: int := 90_000

  /** Whole seconds of a clock reading. */
  function Unix(ns: int): (seconds: int) { ns / SECOND }

  lemma UnixIsFloor(ns: int)
    ensures Unix(ns) * 1_000_000_000 <= ns < (Unix(ns) + 1) * 1_000_000_000
  {}

  datatype Seen = Seen(jobId: string, seenAt: int)

  type Table = map<string, Seen>

  /** What can go wrong with the insert: before it took effect, or when its outcome is read back. */
  datatype InsertFault = NoFault | ExecFails | CountFails

  datatype Marked = Fresh | Duplicate | StoreError

  /** One marking: the readings its insert and its prune take, and their failures. */
  datatype Marking = Marking(insertAt: int, pruneAt: int, fault: InsertFault, pruneFails: bool)

  function Inserted(t: Table, nonce: string, jobId: string, at: int): (r: Table) {
    if nonce in t then t else t[nonce := Seen(jobId, Unix(at))]
  }

  function Pruned(t: Table, cutoff: int): (r: Table) {
    map n | n in t && t[n].seenAt >= Unix(cutoff) :: t[n]
  }

  function MarkResult(t: Table, nonce: string, m: Marking): (r: Marked) {
    if !m.fault.NoFault? then StoreError else if nonce in t then Duplicate else Fresh
  }

  /** The table after marking a nonce; a failed insert skips the prune. */
  function MarkTable(t: Table, nonce: string, jobId: string, m: Marking): (r: Table) {
    match m.fault
    case ExecFails => t
    case CountFails => Inserted(t, nonce, jobId, m.insertAt)
    case NoFault =>
      var u := Inserted(t, nonce, jobId, m.insertAt);
      if m.pruneFails then u else Pruned(u, m.pruneAt - RETENTION_SECONDS * SECOND)
  }

  /** What the insert leaves: a known row as it was, a new one with its job and second. */
  lemma InsertedRows(t: Table, nonce: string, jobId: string, at: int, n: string)
    ensures n in Inserted(t, nonce, jobId, at) <==> n in t || n == nonce
    ensures n in t ==> Inserted(t, nonce, jobId, at)[n] == t[n]
    ensures nonce !in t ==> Inserted(t, nonce, jobId, at)[nonce] == Seen(jobId, Unix(at))
  {}

  /**
   What a marking leaves, row by row: nothing changes if the insert fails;
   otherwise the nonce is there, and unless the prune fails or the outcome could
   not be read, only rows of the last 25 hours are.
   */
  lemma MarkedRows(t: Table, nonce: string, jobId: string, m: Marking, n: string)
    ensures var u := MarkTable(t, nonce, jobId, m);
      var row := if n in t then Some(t[n]) else if n == nonce then Some(Seen(jobId, Unix(m.insertAt))) else None;
      && (m.fault.ExecFails? ==> u == t)
      && (!m.fault.ExecFails? && (m.fault.CountFails? || m.pruneFails) ==>
            (if row.Some? then n in u && u[n] == row.value else n !in u))
      && (m.fault.NoFault? && !m.pruneFails ==>
            (if row.Some? && row.value.seenAt >= Unix(m.pruneAt) - 90_000 then n in u && u[n] == row.value
             else n !in u))
  {
    assert Unix(m.pruneAt - RETENTION_SECONDS * SECOND) == Unix(m.pruneAt) - 90_000;
  }

  class ReplayStore {
    var seen: Table

    constructor ()
      ensures seen == map[]
    {
      seen := map[];
    }

    /** INSERT OR IGNORE; the affected-row count tells a new nonce from a known one. */
    method MarkJobSeen(nonce: string, jobId: string, m: Marking) returns (r: Marked)
      modifies this
      ensures seen == if m.fault.ExecFails? then old(seen) else Inserted(old(seen), nonce, jobId, m.insertAt)
      ensures r == MarkResult(old(seen), nonce, m)
      ensures r.Fresh? <==> m.fault.NoFault? && nonce !in old(seen)
      ensures r.Duplicate? <==> m.fault.NoFault? && nonce in old(seen)
    {
      if m.fault.ExecFails? {
        return StoreError;
      }
      var rows := 0;
      if nonce !in seen {
        seen := seen[nonce := Seen(jobId, Unix(m.insertAt))];
        rows := 1;
      }
      if m.fault.CountFails? {
        return StoreError;
      }
      return if rows == 1 then Fresh else Duplicate;
    }

    /** DELETE of the entries seen before the cutoff. */
    method PruneSeenJobs(cutoff: int)
      modifies this
      ensures seen == Pruned(old(seen), cutoff)
      ensures forall n :: n in seen <==> n in old(seen) && Unix(cutoff) <= old(seen)[n].seenAt
      ensures forall n :: n in seen ==> seen[n] == old(seen)[n]
    {
      seen := map n | n in seen && !(seen[n].seenAt < Unix(cutoff)) :: seen[n];
    }

    method MarkSeen(nonce: string, jobId: string, m: Marking) returns (r: Marked)
      modifies this
      ensures seen == MarkTable(old(seen), nonce, jobId, m)
      ensures r == MarkResult(old(seen), nonce, m)
    {
      r := MarkJobSeen(nonce, jobId, m);
      if r.StoreError? {
        return;
      }
      if !m.pruneFails {
        PruneSeenJobs(m.pruneAt - RETENTION_SECONDS * SECOND);
      }
    }
  }
}
