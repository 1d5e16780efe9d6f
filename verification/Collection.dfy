/**
 The run protocol across the raw store and the run table: every stored object is
 recorded in the run's manifest, the manifest is published, and only then the run is
 closed with the manifest's hash.
 */
module Collection {
  import opened Wrappers
  import opened RawStore
  import opened RawManifests
  import opened RunLifecycle
  import Projections

  datatype CollectError = PutFailed | Interrupted | BadEntry | HashMismatch | ManifestFailed | RunFailed

  /** What one collector process holds: the store, the database, and its manifest so far. */
  datatype State = State(files: Files, database: Database, manifest: RawManifest)

  // ---------- storing one payload ----------

  /** Put, then record the returned metadata, then compare with the adapter's hash. */
  function StoreRaw(s: State, key: string, data: seq<Byte>, metadata: Metadata, logicalKey: string, expectedHash: string, steps: nat): (State, Result<string, CollectError>)
  {
    var files := AfterPut(s.files, key, data, metadata, steps);
    var reply := ReplyOf(s.files, key, data, metadata, steps);
    if reply.None? then (s.(files := files), Err(CollectError.Interrupted))
    else if reply.value.Err? then (s.(files := files), Err(PutFailed))
    else
      var stored := reply.value.value;
      var entry := EntryFor(logicalKey, key, stored);
      if !ValidEntry(entry) then (s.(files := files), Err(CollectError.BadEntry))
      else
        var recorded := s.(files := files, manifest := s.manifest.(entries := s.manifest.entries + [entry]));
        (recorded, if expectedHash == "" || expectedHash != stored.sha256 then Err(HashMismatch) else Ok(stored.sha256))
  }

  // ---------- closing the run ----------

  function Closing(m: Metrics, hash: string): Metrics { m.(manifestHash := hash) }

  /** Publish the manifest; only when that succeeded, finalize the run with its hash. */
  function Finish(c: Codec, s: State, r: Request, steps: nat, fault: Fault): (State, Result<(), CollectError>)
    requires r.Finalize?
  {
    var (files, published) := Publish(c, s.files, s.manifest, r.run.startedAt, steps);
    if published.Err? then (s.(files := files), Err(ManifestFailed))
    else
      var outcome := ApplyFinalize(s.database, r.(metrics := Closing(r.metrics, published.value.0)), fault);
      (s.(files := files, database := outcome.db), if outcome.reply.Some? then Ok(()) else Err(RunFailed))
  }

  class Collector {
    const codec: Codec
    var store: FileRawStore
    var repository: Repository
    var manifest: RawManifest

    function Contents(): State
      reads this, store, repository
    {
      State(store.files, repository.Contents(), manifest)
    }

    constructor (codec: Codec, store: FileRawStore, repository: Repository, source: string, runId: string)
      ensures this.codec == codec && this.store == store && this.repository == repository
      ensures manifest == RawManifest(VERSION, source, runId, [])
    {
      this.codec, this.store, this.repository := codec, store, repository;
      manifest := RawManifest(VERSION, source, runId, []);
    }

    method StorePayload(key: string, data: seq<Byte>, metadata: Metadata, logicalKey: string, expectedHash: string, steps: nat) returns (r: Result<string, CollectError>)
      modifies this`manifest, store
      ensures store == old(store) && repository == old(repository)
      ensures (Contents(), r) == StoreRaw(old(Contents()), key, data, metadata, logicalKey, expectedHash, steps)
    {
      hide AfterPut, ReplyOf, ValidEntry;
      var reply := store.Put(key, data, metadata, steps);
      if reply.None? {
        return Err(CollectError.Interrupted);
      }
      if reply.value.Err? {
        return Err(PutFailed);
      }
      var stored := reply.value.value;
      var entry := EntryFor(logicalKey, key, stored);
      if !ValidEntry(entry) {
        return Err(CollectError.BadEntry);
      }
      manifest := manifest.(entries := manifest.entries + [entry]);
      if expectedHash == "" || expectedHash != stored.sha256 {
        return Err(HashMismatch);
      }
      return Ok(stored.sha256);
    }

    method FinishRun(request: Request, steps: nat, fault: Fault) returns (r: Result<(), CollectError>)
      requires request.Finalize?
      modifies store, repository`runs, repository`prices, repository`macros
      ensures (Contents(), r) == Finish(codec, old(Contents()), request, steps, fault)
    {
      hide AfterPut, ReplyOf, ApplyFinalize, Sha256, Marshal, ManifestKey;
      var key, bytes := ManifestKey(manifest.source, manifest.ingestionRunId), Marshal(codec, manifest);
      if key.None? || bytes.None? {
        return Err(ManifestFailed);
      }
      var reply := store.Put(key.value, bytes.value, PublishMetadata(manifest, request.run.startedAt), steps);
      if reply.None? || reply.value.Err? {
        return Err(ManifestFailed);
      }
      if reply.value.value.sha256 != Sha256(bytes.value) || reply.value.value.size != |bytes.value| {
        return Err(ManifestFailed);
      }
      var closed := repository.FinalizeRun(request.(metrics := Closing(request.metrics, Sha256(bytes.value))), fault);
      return if closed.Some? then Ok(()) else Err(RunFailed);
    }
  }

  // ---------- the hash of a closed run loads ----------

  /** Every recorded entry is backed by the store, in UTC, and the store is sound for the keys in use. */
  ghost predicate Backed(s: State, keys: set<string>)
  {
    && Sound(s.files, keys)
    && (forall e :: e in s.manifest.entries ==> ObjectMatches(s.files, e))
    && (forall i :: 0 <= i < |s.manifest.entries| ==> s.manifest.entries[i].fetchedAt.zone == 0 && s.manifest.entries[i].attributes.Some?)
  }

  lemma PutExtends(files: Files, key: string, data: seq<Byte>, metadata: Metadata, steps: nat)
    ensures Extends(files, AfterPut(files, key, data, metadata, steps))
  {
    hide AfterPut;
    forall path | path in files
      ensures path in AfterPut(files, key, data, metadata, steps) && AfterPut(files, key, data, metadata, steps)[path] == files[path]
    {
      PutAddsOnly(files, key, data, metadata, steps, path);
    }
  }

  lemma ObjectKept(files: Files, later: Files, e: Entry)
    requires Extends(files, later) && ObjectMatches(files, e)
    ensures ObjectMatches(later, e)
  {
    GetKept(files, later, e.objectKey);
    hide Get, Sha256;
  }

  /** Storing a payload, however far it gets, keeps every entry backed. */
  lemma StoreRawKeepsBacked(s: State, keys: set<string>, key: string, data: seq<Byte>, metadata: Metadata, logicalKey: string, expectedHash: string, steps: nat)
    requires Backed(s, keys) && Separate(keys) && key in keys
    ensures Backed(StoreRaw(s, key, data, metadata, logicalKey, expectedHash, steps).0, keys)
    ensures Extends(s.files, StoreRaw(s, key, data, metadata, logicalKey, expectedHash, steps).0.files)
  {
    PutKeepsSound(s.files, keys, Event(key, data, metadata, steps));
    PutExtends(s.files, key, data, metadata, steps);
    var after := AfterPut(s.files, key, data, metadata, steps);
    var reply := ReplyOf(s.files, key, data, metadata, steps);
    if reply.Some? && reply.value.Ok? {
      PutBacksEntry(s.files, keys, logicalKey, key, data, metadata, steps);
    }
    hide AfterPut, ReplyOf, Sound, ObjectMatches, Extends, ValidEntry;
    forall e | e in s.manifest.entries ensures ObjectMatches(after, e) {
      ObjectKept(s.files, after, e);
    }
  }

  /**
   A run closed by its collector names a manifest that loads: at that moment and at
   every later state of the store, the hash in the run's row is the hash of the
   manifest found under the run's key, and every object listed there is intact.
   */
  lemma ClosedRunLoads(c: Codec, s: State, keys: set<string>, r: Request, steps: nat, fault: Fault, later: Files)
    requires r.Finalize? && Faithful(c) && Backed(s, keys)
    requires ManifestKey(s.manifest.source, s.manifest.ingestionRunId).Some? && ManifestKey(s.manifest.source, s.manifest.ingestionRunId).value in keys
    requires Finish(c, s, r, steps, fault).1.Ok?
    requires Extends(Finish(c, s, r, steps, fault).0.files, later)
    ensures var after, key := Finish(c, s, r, steps, fault).0.database, ManifestKey(s.manifest.source, s.manifest.ingestionRunId).value;
            && r.run.id in after.runs && !after.runs[r.run.id].status.Active()
            && exists hash :: after.runs[r.run.id].manifestHash == Projections.Nullable(hash) && Load(c, later, key) == Ok((Canonical(s.manifest), hash))
  {
    UtcNeverTies(s.manifest.entries);
    var (files, published) := Publish(c, s.files, s.manifest, r.run.startedAt, steps);
    PublishExtends(c, s.files, s.manifest, r.run.startedAt, steps);
    LoadAfterPublish(c, s.files, keys, s.manifest, r.run.startedAt, steps, later);
    hide Publish, Load, Sound, ObjectMatches, Extends, UpsertUnder, LineageValid;
    var hash := published.value.0;
    assert Finish(c, s, r, steps, fault).0.database.runs[r.run.id].manifestHash == Projections.Nullable(hash);
  }

  lemma PublishExtends(c: Codec, files: Files, m: RawManifest, fetchedAt: int, steps: nat)
    ensures Extends(files, Publish(c, files, m, fetchedAt, steps).0)
    ensures Publish(c, files, m, fetchedAt, steps).1.Ok? ==> Some(Publish(c, files, m, fetchedAt, steps).1.value.1) == ManifestKey(m.source, m.ingestionRunId)
  {
    var key, bytes := ManifestKey(m.source, m.ingestionRunId), Marshal(c, m);
    if key.Some? && bytes.Some? {
      PutExtends(files, key.value, bytes.value, PublishMetadata(m, fetchedAt), steps);
    }
    hide AfterPut, ReplyOf, Marshal, ManifestKey, Sha256;
  }

  /** A collector that stops between the two steps leaves the run active and the database untouched. */
  lemma StoppedBetweenLeavesRunOpen(c: Codec, s: State, r: Request, steps: nat, fault: Fault)
    requires r.Finalize? && IsActiveRun(s.database, r.run)
    ensures var after := Finish(c, s, r, steps, fault).0.database;
            after != s.database ==> Publish(c, s.files, s.manifest, r.run.startedAt, steps).1.Ok? && !IsActiveRun(after, r.run)
  {
    hide UpsertUnder, Publish;
  }
}
