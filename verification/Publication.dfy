/**
 Publication of one normalized partition: a content-named part is renamed into
 place, then a manifest rename commits it. The reader trusts the manifest only
 and re-checks everything the manifest lists.
 */
module Publication {
  import opened Wrappers
  import opened Manifests

  datatype FileData<T> = RowData(rows: seq<T>) | ManifestData(manifest: Manifest<T>) | Incomplete

  /** One partition directory, file by file. */
  type Directory<T(==)> = map<FileName<T>, FileData<T>>

  type Identity = map<string, string>

  datatype Lineage = Lineage(source: string, dataSourceId: string, ingestionRunId: string, normalizerVersion: string)

  /** What the generic writer needs to know of a row type. */
  datatype Dataset<!T> = Dataset(
    key: T -> string,        // natural key
    valid: T -> bool,        // stored-row validator
    belongs: T -> bool,      // row matches the partition identity
    repair: T -> T,          // defaults applied to rows read from older parts
    lineage: T -> Lineage)

  // ---------- keys ----------

  function KeysOf<T>(d: Dataset<T>, rows: seq<T>): set<string>
  {
    set i | 0 <= i < |rows| :: d.key(rows[i])
  }

  ghost predicate DistinctKeys<T>(d: Dataset<T>, rows: seq<T>)
  {
    forall i, j :: 0 <= i < j < |rows| ==> d.key(rows[i]) != d.key(rows[j])
  }

  function Repaired<T>(d: Dataset<T>, rows: seq<T>): (r: seq<T>)
    ensures |r| == |rows|
    ensures forall i :: 0 <= i < |rows| ==> r[i] == d.repair(rows[i])
  {
    seq(|rows|, i requires 0 <= i < |rows| => d.repair(rows[i]))
  }

  predicate Readable<T>(d: Dataset<T>, row: T) { d.valid(row) && d.belongs(row) }

  predicate AllReadable<T>(d: Dataset<T>, rows: seq<T>)
  {
    forall i :: 0 <= i < |rows| ==> Readable(d, rows[i])
  }

  // ---------- the reader ----------

  predicate IsPart<T>(name: FileName<T>) { name.PartFile? }

  predicate HasParts<T(==)>(dir: Directory<T>)
  {
    exists name | name in dir :: IsPart(name)
  }

  /** The rows one listed part contributes, or nothing when the file does not check out. */
  function PartRows<T(==)>(d: Dataset<T>, dir: Directory<T>, part: ManifestPart<T>): Option<seq<T>>
  {
    if part.path in dir && dir[part.path].RowData? then
      var stored := dir[part.path].rows;
      var rows := Repaired(d, stored);
      if Sha256(stored) == part.sha256 && |stored| == part.rowCount && AllReadable(d, rows) then Some(rows) else None
    else None
  }

  function Gather<T(==)>(d: Dataset<T>, dir: Directory<T>, parts: seq<ManifestPart<T>>): Option<seq<T>>
  {
    if parts == [] then Some([])
    else
      var front := Gather(d, dir, parts[..|parts| - 1]);
      var last := PartRows(d, dir, parts[|parts| - 1]);
      if front.Some? && last.Some? then Some(front.value + last.value) else None
  }

  datatype ReadError = MigrationRequired

  /** The committed rows of a partition, in part order. */
  ghost function ReadCommitted<T>(d: Dataset<T>, dir: Directory<T>, identity: Identity): Result<seq<T>, ReadError>
  {
    if LegacyFile in dir then Err(MigrationRequired)
    else if ManifestFile !in dir then
      if HasParts(dir) then Err(MigrationRequired) else Ok([])
    else if !dir[ManifestFile].ManifestData? then Err(MigrationRequired)
    else
      var m := dir[ManifestFile].manifest;
      var rows := Gather(d, dir, m.parts);
      if ValidManifest(m) && m.partition == identity && rows.Some? && DistinctKeys(d, rows.value) && |rows.value| == m.rowCount
      then Ok(rows.value) else Err(MigrationRequired)
  }

  lemma {:induction false} GatherPrefix<T>(d: Dataset<T>, dir: Directory<T>, parts: seq<ManifestPart<T>>, n: nat)
    requires n <= |parts| && Gather(d, dir, parts).Some?
    ensures Gather(d, dir, parts[..n]).Some?
    ensures Gather(d, dir, parts[..n]).value <= Gather(d, dir, parts).value
    decreases |parts|
  {
    if n == |parts| {
      assert parts[..n] == parts;
    } else {
      GatherPrefix(d, dir, parts[..|parts| - 1], n);
      assert parts[..|parts| - 1][..n] == parts[..n];
    }
  }

  lemma {:induction false} GatherCount<T>(d: Dataset<T>, dir: Directory<T>, parts: seq<ManifestPart<T>>)
    requires Gather(d, dir, parts).Some?
    ensures |Gather(d, dir, parts).value| == TotalRows(parts)
    decreases |parts|
  {
    if parts != [] {
      GatherCount(d, dir, parts[..|parts| - 1]);
    }
  }

  /** Appends the rows of one part, unless one of their keys was already seen. */
  method AbsorbRows<T(==)>(d: Dataset<T>, before: seq<T>, seenBefore: set<string>, part: seq<T>)
    returns (ok: bool, rows: seq<T>, seen: set<string>)
    requires DistinctKeys(d, before) && seenBefore == KeysOf(d, before)
    ensures rows <= before + part
    ensures ok <==> DistinctKeys(d, before + part)
    ensures ok ==> rows == before + part && seen == KeysOf(d, rows)
  {
    rows, seen := before, seenBefore;
    var i := 0;
    while i < |part|
      invariant 0 <= i <= |part|
      invariant rows == before + part[..i] <= before + part
      invariant DistinctKeys(d, rows) && seen == KeysOf(d, rows)
    {
      var key := d.key(part[i]);
      if key in seen {
        assert (before + part)[|rows|] == part[i];
        return false, rows, seen;
      }
      seen := seen + {key};
      rows := rows + [part[i]];
      i := i + 1;
    }
    return true, rows, seen;
  }

  lemma PrefixKeys<T>(d: Dataset<T>, a: seq<T>, b: seq<T>)
    requires a <= b && DistinctKeys(d, b)
    ensures DistinctKeys(d, a)
  {
  }

  /** The part loop: every part re-hashed, re-counted and re-validated, every key seen once. */
  method GatherDistinct<T(==)>(d: Dataset<T>, dir: Directory<T>, parts: seq<ManifestPart<T>>) returns (r: Option<seq<T>>)
    ensures r == var all := Gather(d, dir, parts); if all.Some? && DistinctKeys(d, all.value) then all else None
  {
    var rows: seq<T>, seen: set<string> := [], {};
    var p := 0;
    while p < |parts|
      invariant 0 <= p <= |parts|
      invariant Gather(d, dir, parts[..p]) == Some(rows)
      invariant DistinctKeys(d, rows) && seen == KeysOf(d, rows)
    {
      hide PartRows, DistinctKeys, KeysOf;
      assert parts[..p + 1][..p] == parts[..p];
      ghost var whole := Gather(d, dir, parts);
      if whole.Some? {
        GatherPrefix(d, dir, parts, p + 1);
      }
      var partRows := PartRows(d, dir, parts[p]);
      if partRows.None? {
        return None;
      }
      if whole.Some? && DistinctKeys(d, whole.value) {
        PrefixKeys(d, rows + partRows.value, whole.value);
      }
      var ok;
      ok, rows, seen := AbsorbRows(d, rows, seen, partRows.value);
      if !ok {
        return None;
      }
      p := p + 1;
    }
    assert parts[..|parts|] == parts;
    return Some(rows);
  }

  /** The reader: envelope and manifest checks, then the parts, then the total. */
  method ReadPartition<T(==)>(d: Dataset<T>, dir: Directory<T>, identity: Identity)
    returns (r: Result<seq<T>, ReadError>)
    ensures r == ReadCommitted(d, dir, identity)
  {
    hide Gather, DistinctKeys, ValidManifest;
    if LegacyFile in dir {
      return Err(MigrationRequired);
    }
    if ManifestFile !in dir {
      return if HasParts(dir) then Err(MigrationRequired) else Ok([]);
    }
    if !dir[ManifestFile].ManifestData? {
      return Err(MigrationRequired);
    }
    var m := dir[ManifestFile].manifest;
    var ok := ValidateManifest(m);
    if !ok || m.partition != identity {
      return Err(MigrationRequired);
    }
    var rows := GatherDistinct(d, dir, m.parts);
    return if rows.Some? && |rows.value| == m.rowCount then Ok(rows.value) else Err(MigrationRequired);
  }

  // ---------- the stages a publication passes through ----------

  /** What a reader can see: temporary files never count. */
  function Visible<T(==)>(dir: Directory<T>): Directory<T>
  {
    map name | name in dir && !name.TempFile? :: dir[name]
  }

  lemma {:induction false} GatherAgrees<T>(d: Dataset<T>, a: Directory<T>, b: Directory<T>, parts: seq<ManifestPart<T>>)
    requires forall i :: 0 <= i < |parts| ==>
               (parts[i].path in a <==> parts[i].path in b) && (parts[i].path in a ==> a[parts[i].path] == b[parts[i].path])
    ensures Gather(d, a, parts) == Gather(d, b, parts)
    decreases |parts|
  {
    if parts != [] {
      GatherAgrees(d, a, b, parts[..|parts| - 1]);
    }
  }

  /** Orphan temporary files, whatever they hold, never change what is read. */
  lemma ReadIgnoresTemporaries<T>(d: Dataset<T>, dir: Directory<T>, identity: Identity)
    ensures ReadCommitted(d, Visible(dir), identity) == ReadCommitted(d, dir, identity)
  {
    var v := Visible(dir);
    if HasParts(dir) {
      var name :| name in dir && IsPart(name);
      assert name in v;
    }
    if ManifestFile in dir && dir[ManifestFile].ManifestData? && ValidManifest(dir[ManifestFile].manifest) {
      GatherAgrees(d, v, dir, dir[ManifestFile].manifest.parts);
    }
  }

  function PartFor<T>(delta: seq<T>): ManifestPart<T>
  {
    ManifestPart(PartFile(Sha256(delta)), Sha256(delta), |delta|)
  }

  function PreviousParts<T(==)>(dir: Directory<T>): seq<ManifestPart<T>>
  {
    if ManifestFile in dir && dir[ManifestFile].ManifestData? then dir[ManifestFile].manifest.parts else []
  }

  function NextManifest<T(==)>(dir: Directory<T>, identity: Identity, delta: seq<T>, total: nat, lineage: Lineage, gitCommit: string): Manifest<T>
  {
    Manifest(MANIFEST_VERSION, SCHEMA_VERSION, lineage.normalizerVersion, gitCommit,
             lineage.source, lineage.dataSourceId, lineage.ingestionRunId,
             identity, total, PreviousParts(dir) + [PartFor(delta)])
  }

  /** Visible directory after no rename (0), after the part rename (1), after the manifest rename (2). */
  function Stage<T(==)>(dir: Directory<T>, delta: seq<T>, next: Manifest<T>, k: nat): Directory<T>
    requires k <= 2
  {
    var named := Visible(dir)[PartFile(Sha256(delta)) := RowData(delta)];
    if k == 0 then Visible(dir) else if k == 1 then named else named[ManifestFile := ManifestData(next)]
  }

  /** What the writer guarantees about the rows it is about to append. */
  ghost predicate Appendable<T>(d: Dataset<T>, existing: seq<T>, delta: seq<T>)
  {
    && delta != []
    && (forall i :: 0 <= i < |delta| ==> d.repair(delta[i]) == delta[i])
    && DistinctKeys(d, existing + delta)
    && |existing + delta| <= MAX_INT
  }

  ghost predicate ValidLineage(lineage: Lineage, identity: Identity)
  {
    && lineage.normalizerVersion != "" && lineage.source != ""
    && IsUuid(lineage.dataSourceId) && IsUuid(lineage.ingestionRunId)
    && ValidIdentity(identity) && identity["source"] == lineage.source
  }

  lemma ListedRowsAreRead<T>(d: Dataset<T>, dir: Directory<T>, parts: seq<ManifestPart<T>>, i: nat, delta: seq<T>)
    requires Gather(d, dir, parts).Some? && i < |parts| && delta != []
    requires parts[i].path in dir ==> ContentNamed(parts)
    requires Repaired(d, delta) == delta
    ensures parts[i].path == PartFor(delta).path ==> delta[0] in Gather(d, dir, parts).value
  {
    GatherPrefix(d, dir, parts, i + 1);
    assert parts[..i + 1][..i] == parts[..i];
    if parts[i].path == PartFor(delta).path {
      var front, all := Gather(d, dir, parts[..i]).value, Gather(d, dir, parts).value;
      assert PartRows(d, dir, parts[i]) == Some(delta);
      assert front + delta <= all;
      assert all[|front|] == delta[0];
    }
  }

  lemma NewRowIsNew<T>(d: Dataset<T>, existing: seq<T>, delta: seq<T>)
    requires DistinctKeys(d, existing + delta) && delta != []
    ensures delta[0] !in existing
  {
    forall i | 0 <= i < |existing| ensures existing[i] != delta[0] {
      assert (existing + delta)[i] == existing[i] && (existing + delta)[|existing|] == delta[0];
    }
  }

  /** A part already listed cannot have the new part's name: it would hold the new rows already. */
  lemma NewPartIsFresh<T>(d: Dataset<T>, dir: Directory<T>, identity: Identity, delta: seq<T>)
    requires ReadCommitted(d, dir, identity).Ok?
    requires Appendable(d, ReadCommitted(d, dir, identity).value, delta)
    ensures forall i :: 0 <= i < |PreviousParts(dir)| ==> PreviousParts(dir)[i].path != PartFor(delta).path
  {
    var parts := PreviousParts(dir);
    NewRowIsNew(d, ReadCommitted(d, dir, identity).value, delta);
    assert Repaired(d, delta) == delta;
    forall i | 0 <= i < |parts| ensures parts[i].path != PartFor(delta).path {
      ListedRowsAreRead(d, dir, parts, i, delta);
    }
  }

  /** Manifest validation inside a publication cannot fail. */
  lemma NextManifestValid<T>(d: Dataset<T>, dir: Directory<T>, identity: Identity, delta: seq<T>, lineage: Lineage, gitCommit: string)
    requires ReadCommitted(d, dir, identity).Ok?
    requires Appendable(d, ReadCommitted(d, dir, identity).value, delta)
    requires ValidLineage(lineage, identity) && ValidGitCommit(gitCommit)
    ensures ValidManifest(NextManifest(dir, identity, delta, |ReadCommitted(d, dir, identity).value + delta|, lineage, gitCommit))
  {
    hide ReadCommitted, PreviousParts, IsUuid, ValidGitCommit, ValidIdentity, ContentNamed, DistinctPaths, TotalRows, DistinctKeys;
    NewPartIsFresh(d, dir, identity, delta);
    ListedPartsValid(d, dir, identity);
    PartAdded(PreviousParts(dir), delta);
  }

  lemma ListedPartsValid<T>(d: Dataset<T>, dir: Directory<T>, identity: Identity)
    requires ReadCommitted(d, dir, identity).Ok?
    ensures ContentNamed(PreviousParts(dir)) && DistinctPaths(PreviousParts(dir))
    ensures TotalRows(PreviousParts(dir)) == |ReadCommitted(d, dir, identity).value|
  {
    hide DistinctKeys, Gather, TotalRows, HasParts, ValidEnvelope;
    NoRows<T>();
  }

  lemma NoRows<T>()
    ensures TotalRows<T>([]) == 0
  {
  }

  lemma PartAdded<T>(parts: seq<ManifestPart<T>>, delta: seq<T>)
    ensures TotalRows(parts + [PartFor(delta)]) == TotalRows(parts) + |delta|
    ensures ContentNamed(parts) ==> ContentNamed(parts + [PartFor(delta)])
    ensures DistinctPaths(parts) && (forall i :: 0 <= i < |parts| ==> parts[i].path != PartFor(delta).path) ==> DistinctPaths(parts + [PartFor(delta)])
  {
    var next := parts + [PartFor(delta)];
    assert next[..|next| - 1] == parts;
  }

  /** Once the part is in place the earlier parts still hold what they held. */
  lemma EarlierPartsKept<T>(d: Dataset<T>, dir: Directory<T>, identity: Identity, delta: seq<T>, next: Manifest<T>, k: nat)
    requires ReadCommitted(d, dir, identity).Ok? && 1 <= k <= 2
    requires Appendable(d, ReadCommitted(d, dir, identity).value, delta)
    requires PartFor(delta).path in dir ==> dir[PartFor(delta).path] == RowData(delta)
    ensures Gather(d, Stage(dir, delta, next, k), PreviousParts(dir)) == Gather(d, dir, PreviousParts(dir))
    ensures PartRows(d, Stage(dir, delta, next, k), PartFor(delta)) == if AllReadable(d, delta) then Some(delta) else None
  {
    NewPartIsFresh(d, dir, identity, delta);
    var stage := Stage(dir, delta, next, k);
    assert Repaired(d, delta) == delta;
    assert stage[PartFor(delta).path] == RowData(delta);
    forall i | 0 <= i < |PreviousParts(dir)|
      ensures (PreviousParts(dir)[i].path in stage <==> PreviousParts(dir)[i].path in dir)
      ensures PreviousParts(dir)[i].path in stage ==> stage[PreviousParts(dir)[i].path] == dir[PreviousParts(dir)[i].path]
    {
      assert PreviousParts(dir)[i].path.PartFile?;
    }
    hide Stage, ReadCommitted, PartRows;
    GatherAgrees(d, stage, dir, PreviousParts(dir));
  }

  /** Between the renames: as before, unless there is no manifest yet. */
  lemma StageOneReads<T>(d: Dataset<T>, dir: Directory<T>, identity: Identity, delta: seq<T>, next: Manifest<T>)
    requires ReadCommitted(d, dir, identity).Ok?
    requires Appendable(d, ReadCommitted(d, dir, identity).value, delta)
    requires PartFor(delta).path in dir ==> dir[PartFor(delta).path] == RowData(delta)
    ensures ReadCommitted(d, Stage(dir, delta, next, 1), identity) ==
            if ManifestFile !in dir then Err(MigrationRequired) else ReadCommitted(d, dir, identity)
  {
    var stage := Stage(dir, delta, next, 1);
    EarlierPartsKept(d, dir, identity, delta, next, 1);
    hide Gather, PartRows, DistinctKeys, ValidManifest, Appendable, AllReadable;
    assert PartFor(delta).path in stage && IsPart(PartFor(delta).path);
  }

  lemma StageTwoReads<T>(d: Dataset<T>, dir: Directory<T>, identity: Identity, delta: seq<T>, lineage: Lineage, gitCommit: string)
    requires ReadCommitted(d, dir, identity).Ok?
    requires Appendable(d, ReadCommitted(d, dir, identity).value, delta)
    requires ValidLineage(lineage, identity) && ValidGitCommit(gitCommit)
    requires PartFor(delta).path in dir ==> dir[PartFor(delta).path] == RowData(delta)
    ensures var existing := ReadCommitted(d, dir, identity).value;
            ReadCommitted(d, Stage(dir, delta, NextManifest(dir, identity, delta, |existing + delta|, lineage, gitCommit), 2), identity) ==
            if AllReadable(d, delta) then Ok(existing + delta) else Err(MigrationRequired)
  {
    var existing := ReadCommitted(d, dir, identity).value;
    var next := NextManifest(dir, identity, delta, |existing + delta|, lineage, gitCommit);
    EarlierPartsKept(d, dir, identity, delta, next, 2);
    NextManifestValid(d, dir, identity, delta, lineage, gitCommit);
    CommittedGather(d, dir, identity);
    var stage := Stage(dir, delta, next, 2);
    assert next.parts[..|next.parts| - 1] == PreviousParts(dir);
    assert Gather(d, stage, next.parts) == if AllReadable(d, delta) then Some(existing + delta) else None;
    hide Gather, PartRows, AllReadable, DistinctKeys, ValidManifest, ValidLineage;
    assert stage[ManifestFile] == ManifestData(next);
    assert LegacyFile !in stage;
  }

  lemma CommittedGather<T>(d: Dataset<T>, dir: Directory<T>, identity: Identity)
    requires ReadCommitted(d, dir, identity).Ok?
    ensures Gather(d, dir, PreviousParts(dir)) == Some(ReadCommitted(d, dir, identity).value) && LegacyFile !in dir
  {
  }

  /**
   What a reader gets at each stage. Before the manifest rename it gets the old
   rows, after it the old rows followed by the delta; between the two renames a
   first publication is unreadable, because a part without any manifest is refused.
   A delta with a row that the reader rejects makes the partition unreadable once
   it is committed.
   */
  lemma StageReads<T>(d: Dataset<T>, dir: Directory<T>, identity: Identity, delta: seq<T>, lineage: Lineage, gitCommit: string, k: nat)
    requires ReadCommitted(d, dir, identity).Ok? && k <= 2
    requires Appendable(d, ReadCommitted(d, dir, identity).value, delta)
    requires ValidLineage(lineage, identity) && ValidGitCommit(gitCommit)
    requires PartFor(delta).path in dir ==> dir[PartFor(delta).path] == RowData(delta)
    ensures var existing := ReadCommitted(d, dir, identity).value;
            var next := NextManifest(dir, identity, delta, |existing + delta|, lineage, gitCommit);
            ReadCommitted(d, Stage(dir, delta, next, k), identity) ==
            if k == 2 then (if AllReadable(d, delta) then Ok(existing + delta) else Err(MigrationRequired))
            else if k == 1 && ManifestFile !in dir then Err(MigrationRequired)
            else Ok(existing)
  {
    hide ReadCommitted, Appendable, ValidLineage, NextManifest, AllReadable;
    var existing := ReadCommitted(d, dir, identity).value;
    var next := NextManifest(dir, identity, delta, |existing + delta|, lineage, gitCommit);
    if k == 0 {
      ReadIgnoresTemporaries(d, dir, identity);
    } else if k == 1 {
      StageOneReads(d, dir, identity, delta, next);
    } else {
      StageTwoReads(d, dir, identity, delta, lineage, gitCommit);
    }
  }
}
