/**
 The policy store of the agent on a disk that can fail or lose power at every
 file operation. A rename is atomic; what was written and not synced may turn
 into anything when the power goes.
 */
module PolicyDisk {
  import opened Common

  type Bytes = string
  type Path = string

  const PAYLOAD: Path := "policy.json"
  const META: Path := "policy.meta"

  function Tmp(path: Path): (r: Path) { path + ".tmp" }

  /**
   What a file operation meets. A failing or interrupted write leaves `partial`
   bytes behind; a crash turns every unsynced file into `garbage`.
   */
  datatype Fate =
    | Works
    | Breaks(partial: nat)
    | Crashes(partial: nat, garbage: Path -> Bytes)

  datatype Outcome = Done | Failed | Crashed

  datatype StoredMeta = StoredMeta(policyId: string, version: int, hash: string, signature: string, keyId: string)

  datatype MetaCodec = MetaCodec(encode: StoredMeta -> Bytes, decode: Bytes -> Option<StoredMeta>)

  /** Whole encoded documents decode to what was encoded; of torn ones nothing is known. */
  ghost predicate RoundTrips(codec: MetaCodec) {
    forall m :: codec.decode(codec.encode(m)) == Some(m)
  }

  type Files = map<Path, Bytes>

  /** The two files the agent reads back. */
  datatype Live = Live(payload: Option<Bytes>, meta: Option<Bytes>)

  function FileAt(files: Files, path: Path): (r: Option<Bytes>) {
    if path in files then Some(files[path]) else None
  }

  function LiveOf(files: Files): (r: Live) {
    Live(FileAt(files, PAYLOAD), FileAt(files, META))
  }

  /** No coming operation fails. */
  predicate Smooth(fates: seq<Fate>) {
    forall i :: 0 <= i < |fates| ==> fates[i].Works?
  }

  class Disk {
    var files: Files
    var unsynced: set<Path>
    /** What the coming operations meet; past its end they all work. */
    var fates: seq<Fate>

    /** The live files are whole and on stable storage. */
    ghost predicate Settled()
      reads this
    {
      PAYLOAD !in unsynced && META !in unsynced
    }

    method NextFate() returns (f: Fate)
      modifies this`fates
      ensures f == (if old(fates) == [] then Works else old(fates)[0])
      ensures fates == (if old(fates) == [] then [] else old(fates)[1..])
    {
      if fates == [] {
        return Works;
      }
      f := fates[0];
      fates := fates[1..];
    }

    method LosePower(garbage: Path -> Bytes)
      modifies this`files, this`unsynced
      ensures unsynced == {} && files.Keys == old(files.Keys)
      ensures forall p :: p in files && p !in old(unsynced) ==> files[p] == old(files[p])
    {
      files := map p | p in files :: if p in unsynced then garbage(p) else files[p];
      unsynced := {};
    }

    /** Opens for writing, creating or truncating. */
    method Create(path: Path) returns (r: Outcome)
      modifies this
      ensures OnlyTouches(old(files), old(unsynced), path, files) && unsynced <= old(unsynced) + {path}
      ensures r.Done? ==> path in files && path in unsynced
      ensures Smooth(old(fates)) ==> r.Done? && Smooth(fates)
    {
      var f := NextFate();
      match f {
        case Works =>
          files := files[path := ""];
          unsynced := unsynced + {path};
          return Done;
        case Breaks(_) =>
          return Failed;
        case Crashes(_, garbage) =>
          LosePower(garbage);
          return Crashed;
      }
    }

    method Write(path: Path, data: Bytes) returns (r: Outcome)
      requires path in files && path in unsynced
      modifies this
      ensures OnlyTouches(old(files), old(unsynced), path, files) && unsynced <= old(unsynced)
      ensures r.Done? ==> FileAt(files, path) == Some(data)
      ensures Smooth(old(fates)) ==> r.Done? && Smooth(fates)
    {
      var f := NextFate();
      match f {
        case Works =>
          files := files[path := data];
          return Done;
        case Breaks(partial) =>
          files := files[path := data[..if partial < |data| then partial else |data|]];
          return Failed;
        case Crashes(partial, garbage) =>
          files := files[path := data[..if partial < |data| then partial else |data|]];
          LosePower(garbage);
          return Crashed;
      }
    }

    method Sync(path: Path) returns (r: Outcome)
      modifies this
      ensures OnlyTouches(old(files), old(unsynced), path, files) && unsynced <= old(unsynced)
      ensures r.Done? ==> FileAt(files, path) == FileAt(old(files), path) && path !in unsynced
      ensures Smooth(old(fates)) ==> r.Done? && Smooth(fates)
    {
      var f := NextFate();
      match f {
        case Works =>
          unsynced := unsynced - {path};
          return Done;
        case Breaks(_) =>
          return Failed;
        case Crashes(_, garbage) =>
          LosePower(garbage);
          return Crashed;
      }
    }

    method Close(path: Path) returns (r: Outcome)
      modifies this
      ensures OnlyTouches(old(files), old(unsynced), path, files) && unsynced <= old(unsynced)
      ensures r.Done? ==> FileAt(files, path) == FileAt(old(files), path)
      ensures Smooth(old(fates)) ==> r.Done? && Smooth(fates)
    {
      var f := NextFate();
      match f {
        case Works =>
          return Done;
        case Breaks(_) =>
          return Failed;
        case Crashes(_, garbage) =>
          LosePower(garbage);
          return Crashed;
      }
    }

    method Rename(from: Path, to: Path) returns (r: Outcome)
      requires from in files && from != to
      modifies this
      ensures r.Done? ==> files == old(files)[to := old(files)[from]] - {from}
      ensures r.Done? ==> unsynced == (old(unsynced) - {from, to}) + (if from in old(unsynced) then {to} else {})
      ensures !r.Done? ==> OnlyTouches(old(files), old(unsynced), from, files) && unsynced <= old(unsynced)
      ensures Smooth(old(fates)) ==> r.Done? && Smooth(fates)
    {
      var f := NextFate();
      match f {
        case Works =>
          files := files[to := files[from]] - {from};
          unsynced := (unsynced - {from, to}) + (if from in unsynced then {to} else {});
          return Done;
        case Breaks(_) =>
          return Failed;
        case Crashes(_, garbage) =>
          LosePower(garbage);
          return Crashed;
      }
    }

    /** Writes a temporary file, syncs it, and renames it over the live one. */
    method AtomicWrite(path: Path, data: Bytes) returns (r: Outcome)
      requires path == PAYLOAD || path == META
      requires Settled()
      modifies this
      ensures Settled()
      ensures r.Done? ==> FileAt(files, path) == Some(data)
      ensures !r.Done? ==> FileAt(files, path) == FileAt(old(files), path)
      ensures forall p :: (p == PAYLOAD || p == META) && p != path ==> FileAt(files, p) == FileAt(old(files), p)
      ensures Smooth(old(fates)) ==> r.Done? && Smooth(fates)
    {
      NamesAreDistinct();
      var tmp := Tmp(path);
      r := Create(tmp);
      if !r.Done? {
        return;
      }
      r := Write(tmp, data);
      if r.Failed? {
        var closed := Close(tmp);
        return if closed.Crashed? then Crashed else Failed;
      }
      if r.Crashed? {
        return;
      }
      r := Sync(tmp);
      if r.Failed? {
        var closed := Close(tmp);
        return if closed.Crashed? then Crashed else Failed;
      }
      if r.Crashed? {
        return;
      }
      r := Close(tmp);
      if !r.Done? {
        return;
      }
      r := Rename(tmp, path);
    }

    /** Promotes a staged document: payload first, then its metadata. */
    method Commit(payload: Bytes, meta: StoredMeta, codec: MetaCodec) returns (r: Outcome)
      requires Settled()
      modifies this
      ensures Settled()
      ensures CommitEffect(LiveOf(old(files)), LiveOf(files), payload, codec.encode(meta))
      ensures r.Done? ==> LiveOf(files) == Live(Some(payload), Some(codec.encode(meta)))
      ensures Smooth(old(fates)) ==> r.Done? && Smooth(fates)
    {
      NamesAreDistinct();
      r := AtomicWrite(PAYLOAD, payload);
      if !r.Done? {
        return;
      }
      r := AtomicWrite(META, codec.encode(meta));
    }

    /** Reads a file back; a read error is told apart from a missing file, and from losing power. */
    method ReadFile(path: Path) returns (content: Option<Bytes>, r: Outcome)
      requires Settled()
      modifies this
      ensures Settled() && LiveOf(files) == LiveOf(old(files))
      ensures path == PAYLOAD || path == META ==> content == if r.Done? then FileAt(files, path) else None
      ensures Smooth(old(fates)) ==> r.Done? && Smooth(fates)
    {
      var f := NextFate();
      match f {
        case Works =>
          return FileAt(files, path), Done;
        case Breaks(_) =>
          return None, Failed;
        case Crashes(_, garbage) =>
          LosePower(garbage);
          return None, Crashed;
      }
    }

    /** The version the verifier starts from; every way of not reading it gives zero. */
    method CurrentVersion(codec: MetaCodec) returns (version: int, r: Outcome)
      requires Settled()
      modifies this
      ensures Settled() && LiveOf(files) == LiveOf(old(files))
      ensures version == VersionRead(codec, LiveOf(files), !r.Done?)
      ensures version ==
              if r.Done? && PAYLOAD in files && META in files && codec.decode(files[META]).Some?
              then codec.decode(files[META]).value.version else 0
      ensures Smooth(old(fates)) ==> r.Done? && Smooth(fates)
    {
      var payload, meta;
      payload, r := ReadFile(PAYLOAD);
      if payload.None? {
        return 0, r;
      }
      meta, r := ReadFile(META);
      if meta.None? {
        return 0, r;
      }
      var decoded := codec.decode(meta.value);
      return if decoded.Some? then decoded.value.version else 0, Done;
    }
  }

  /** Apart from `path`, and from files that were unsynced before, everything is as it was. */
  ghost predicate OnlyTouches(before: Files, unsynced: set<Path>, path: Path, after: Files) {
    forall p :: p !in unsynced && p != path ==> FileAt(after, p) == FileAt(before, p)
  }

  lemma NamesAreDistinct()
    ensures PAYLOAD != META && Tmp(PAYLOAD) != PAYLOAD && Tmp(PAYLOAD) != META
    ensures Tmp(META) != PAYLOAD && Tmp(META) != META
  {
    assert |PAYLOAD| == 11 && |META| == 11 && |Tmp(PAYLOAD)| == 15 && |Tmp(META)| == 15;
    assert PAYLOAD[7] != META[7];
  }

  /** Both files old, or the payload new and the metadata old, or both new. */
  ghost predicate CommitEffect(before: Live, after: Live, payload: Bytes, meta: Bytes) {
    || after == before
    || after == Live(Some(payload), before.meta)
    || after == Live(Some(payload), Some(meta))
  }

  /** The version the live files stand for. */
  function VersionOf(codec: MetaCodec, live: Live): (r: int) {
    if live.payload.None? || live.meta.None? then 0 else
    var m := codec.decode(live.meta.value);
    if m.Some? then m.value.version else 0
  }

  function VersionRead(codec: MetaCodec, live: Live, readFailed: bool): (r: int) {
    if readFailed then 0 else VersionOf(codec, live)
  }
}
