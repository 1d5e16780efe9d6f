/**
 The manifest of one normalized partition: which parts are committed, under which
 content names, with how many rows each.
 */
module Manifests {
  import opened Wrappers

  /** SHA-256 of a part file, taken to be injective in the rows the file holds. */
  datatype Hash<T> = Sha256(content: seq<T>)

  /** The names a partition directory can hold; a part is named after its own hash. */
  datatype FileName<T> = ManifestFile | PartFile(hash: Hash<T>) | LegacyFile | TempFile(serial: nat)

  datatype ManifestPart<T> = ManifestPart(path: FileName<T>, sha256: Hash<T>, rowCount: int)

  datatype Manifest<T> = Manifest(
    manifestVersion: int, schemaVersion: string, normalizerVersion: string, gitCommit: string,
    source: string, dataSourceId: string, ingestionRunId: string,
    partition: map<string, string>, rowCount: int, parts: seq<ManifestPart<T>>)

  const MANIFEST_VERSION := 1
  const SCHEMA_VERSION := "1.0.0"
  const MAX_INT: int := 0x7FFF_FFFF_FFFF_FFFF

  // ---------- text checks ----------

  predicate IsHex(c: char) { '0' <= c <= '9' || 'a' <= c <= 'f' }

  predicate IsLowerHex(s: string, length: nat)
  {
    |s| == length && forall i :: 0 <= i < |s| ==> IsHex(s[i])
  }

  /** The canonical lower-case spelling of a UUID. */
  predicate IsUuid(s: string)
  {
    |s| == 36 &&
    forall i :: 0 <= i < 36 ==> if i in {8, 13, 18, 23} then s[i] == '-' else IsHex(s[i])
  }

  /** The nil UUID, section 5.9 of RFC 9562. */
  function NilUuid(): (u: string)
    ensures IsUuid(u)
  {
    seq(36, i => if i in {8, 13, 18, 23} then '-' else '0')
  }

  function ZeroHash(): (h: string)
    ensures IsLowerHex(h, 64)
  {
    seq(64, i => '0')
  }

  predicate ValidGitCommit(s: string) { s == "unknown" || IsLowerHex(s, 40) }

  predicate Avoids(s: string, unsafe: set<char>)
  {
    s != "" && forall i :: 0 <= i < |s| ==> s[i] !in unsafe
  }

  predicate ValidIdentity(partition: map<string, string>)
  {
    && |partition| == 3
    && "dataset" in partition && "source" in partition
    && forall k :: k in partition ==>
         Avoids(k, {'=', '\\', '/', '\0'}) && Avoids(partition[k], {'\\', '/', '\0'})
  }

  // ---------- the manifest contract ----------

  function TotalRows<T>(parts: seq<ManifestPart<T>>): int
  {
    if parts == [] then 0 else TotalRows(parts[..|parts| - 1]) + parts[|parts| - 1].rowCount
  }

  ghost predicate ContentNamed<T>(parts: seq<ManifestPart<T>>)
  {
    forall i :: 0 <= i < |parts| ==> parts[i].rowCount >= 0 && parts[i].path == PartFile(parts[i].sha256)
  }

  ghost predicate DistinctPaths<T>(parts: seq<ManifestPart<T>>)
  {
    forall i, j :: 0 <= i < j < |parts| ==> parts[i].path != parts[j].path
  }

  predicate ValidEnvelope<T>(m: Manifest<T>)
  {
    && m.manifestVersion == MANIFEST_VERSION && m.schemaVersion == SCHEMA_VERSION
    && m.normalizerVersion != "" && ValidGitCommit(m.gitCommit) && m.source != ""
    && IsUuid(m.dataSourceId) && IsUuid(m.ingestionRunId)
    && ValidIdentity(m.partition) && m.partition["source"] == m.source
    && m.rowCount >= 0 && m.parts != []
  }

  /** What a committed manifest promises: distinct content-named parts whose rows add up within an int. */
  ghost predicate ValidManifest<T>(m: Manifest<T>)
  {
    && ValidEnvelope(m)
    && ContentNamed(m.parts) && DistinctPaths(m.parts)
    && TotalRows(m.parts) == m.rowCount <= MAX_INT
  }

  lemma {:induction false} TotalRowsGrows<T>(parts: seq<ManifestPart<T>>, i: nat)
    requires ContentNamed(parts) && i <= |parts|
    ensures 0 <= TotalRows(parts[..i]) <= TotalRows(parts)
    decreases |parts|
  {
    if i < |parts| {
      TotalRowsGrows(parts[..|parts| - 1], i);
      assert parts[..|parts| - 1][..i] == parts[..i];
    } else {
      assert parts[..i] == parts;
      if i > 0 {
        TotalRowsGrows(parts[..|parts| - 1], i - 1);
      }
    }
  }

  /** The checking loop, with its running count, seen set and overflow guard. */
  method ValidateManifest<T(==)>(m: Manifest<T>) returns (ok: bool)
    ensures ok <==> ValidManifest(m)
  {
    hide ValidEnvelope;
    if !ValidEnvelope(m) {
      return false;
    }
    var rowCount, seen, i := 0, {}, 0;
    while i < |m.parts|
      invariant 0 <= i <= |m.parts|
      invariant ContentNamed(m.parts[..i]) && DistinctPaths(m.parts[..i])
      invariant seen == set k | 0 <= k < i :: m.parts[k].path
      invariant 0 <= rowCount == TotalRows(m.parts[..i]) <= MAX_INT
    {
      var part := m.parts[i];
      assert m.parts[..i + 1][..i] == m.parts[..i];
      if part.rowCount < 0 || part.path != PartFile(part.sha256) || part.path in seen {
        return false;
      }
      if rowCount > MAX_INT - part.rowCount {
        if ContentNamed(m.parts) {
          TotalRowsGrows(m.parts, i + 1);
        }
        return false;
      }
      seen := seen + {part.path};
      rowCount := rowCount + part.rowCount;
      i := i + 1;
    }
    assert m.parts[..|m.parts|] == m.parts;
    return rowCount == m.rowCount;
  }
}
