/**
 Run manifests over the raw store: a canonical order of entries, one serialized
 form, and a loader that re-reads every object it lists.
 */
module RawManifests {
  import opened Wrappers
  import opened Sorting
  import opened RawStore
  import opened Fields
  import Text

  const VERSION := 1

  /** A Go time: the instant, and the zone it is written in. */
  datatype Timestamp = Timestamp(instant: int, zone: int)

  datatype Entry = Entry(
    logicalKey: string, objectKey: string, sha256: string, size: int, contentType: string, fetchedAt: Timestamp, attributes: Option<string>)

  datatype RawManifest = RawManifest(version: int, source: string, ingestionRunId: string, entries: seq<Entry>)

  datatype ManifestError = BadVersion | BadSegment | BadEntry(index: nat) | StoreFailed(error: StoreError) | Interrupted | Integrity | NotDecodable | NotCanonical | WrongAddress

  // ---------- validation ----------

  predicate ValidSegment(value: string)
  {
    && value != "" && value != "." && value != ".."
    && forall i :: 0 <= i < |value| ==> 'a' <= value[i] <= 'z' || 'A' <= value[i] <= 'Z' || '0' <= value[i] <= '9' || value[i] in "-_."
  }

  predicate LowerHex(s: string) { forall i :: 0 <= i < |s| ==> '0' <= s[i] <= '9' || 'a' <= s[i] <= 'f' }

  predicate ValidEntry(e: Entry)
  {
    Text.TrimSpace(e.logicalKey) != "" && ValidKey(e.objectKey) && LowerHex(e.sha256) && e.size >= 0 && Text.TrimSpace(e.contentType) != "" && e.attributes.Some?
  }

  predicate ValidHeader(m: RawManifest)
  {
    m.version == VERSION && ValidSegment(m.source) && ValidSegment(m.ingestionRunId)
  }

  predicate ValidManifest(m: RawManifest)
  {
    ValidHeader(m) && forall i :: 0 <= i < |m.entries| ==> ValidEntry(m.entries[i])
  }

  // ---------- the order of entries ----------

  /** The compared fields, first to last; the zone is not among them. */
  function Parts(e: Entry): (r: seq<Part>)
    ensures |r| == 7
  {
    [Word(e.logicalKey), Word(e.objectKey), Word(e.sha256), Number(e.size), Word(e.contentType), Number(e.fetchedAt.instant),
     Word(if e.attributes.Some? then e.attributes.value else "null")]
  }

  predicate EntryLess(a: Entry, b: Entry) { PartsLess(Parts(a), Parts(b)) }

  /** Two different entries that the order cannot tell apart: they differ in the zone of one instant, or in a missing attribute object. */
  predicate Tied(a: Entry, b: Entry)
  {
    a != b && Parts(a) == Parts(b)
  }

  ghost predicate NoTies(entries: seq<Entry>)
  {
    forall i, j :: 0 <= i < |entries| && 0 <= j < |entries| ==> !Tied(entries[i], entries[j])
  }

  lemma WeakEntryOrder(dom: set<Entry>)
    ensures StrictWeak(EntryLess, dom)
  {
    forall x, y, z | x in dom && y in dom && z in dom && Compared(x, y, z)
      ensures !(EntryLess(x, y) && EntryLess(y, x)) && (EntryLess(x, z) ==> EntryLess(x, y) || EntryLess(y, z))
    {
      PartsOrder(Parts(x), Parts(y), Parts(z));
      PartsOrder(Parts(y), Parts(x), Parts(z));
      PartsOrder(Parts(x), Parts(z), Parts(y));
    }
  }

  lemma TotalEntryOrder(entries: seq<Entry>)
    requires NoTies(entries)
    ensures StrictTotal(EntryLess, set e | e in entries)
  {
    var dom := set e | e in entries;
    forall x, y, z | x in dom && y in dom && z in dom && Compared(x, y, z)
      ensures !(EntryLess(x, y) && EntryLess(y, x))
      ensures EntryLess(x, y) && EntryLess(y, z) ==> EntryLess(x, z)
      ensures !EntryLess(x, y) && !EntryLess(y, x) ==> x == y
    {
      PartsOrder(Parts(x), Parts(y), Parts(z));
      var i :| 0 <= i < |entries| && entries[i] == x;
      var j :| 0 <= j < |entries| && entries[j] == y;
      assert !Tied(entries[i], entries[j]);
    }
  }

  // ---------- canonical form ----------

  function Canonical(m: RawManifest): RawManifest
  {
    m.(entries := SortBy(EntryLess, m.entries))
  }

  /** Some order that sort.Slice may leave. */
  ghost predicate Arrangement(entries: seq<Entry>, arranged: seq<Entry>)
  {
    multiset(arranged) == multiset(entries) && Sorted(EntryLess, arranged)
  }

  lemma CanonicalIsArrangement(entries: seq<Entry>)
    ensures Arrangement(entries, SortBy(EntryLess, entries))
  {
    var dom := set e | e in entries;
    WeakEntryOrder(dom);
    WeakSortSorted(EntryLess, entries, dom);
  }

  method CanonicalRawManifest(m: RawManifest) returns (r: Result<RawManifest, ManifestError>)
    ensures r.Ok? <==> ValidManifest(m)
    ensures r.Ok? ==> r.value == m.(entries := r.value.entries) && Arrangement(m.entries, r.value.entries)
    ensures r.Ok? && NoTies(m.entries) ==> r.value == Canonical(m)
  {
    hide ValidEntry, SortBy, Parts, PartsLess, ValidSegment, Tied;
    if m.version != VERSION {
      return Err(BadVersion);
    }
    if !ValidSegment(m.source) || !ValidSegment(m.ingestionRunId) {
      return Err(BadSegment);
    }
    var entries: seq<Entry> := [];
    for i := 0 to |m.entries|
      invariant entries == m.entries[..i]
      invariant forall k :: 0 <= k < i ==> ValidEntry(m.entries[k])
    {
      if !ValidEntry(m.entries[i]) {
        return Err(BadEntry(i));
      }
      entries := entries + [m.entries[i]];
    }
    assert m.entries[..|m.entries|] == m.entries;
    CanonicalIsArrangement(m.entries);
    return Ok(m.(entries := SortBy(EntryLess, entries)));
  }

  lemma OneArrangement(entries: seq<Entry>, a: seq<Entry>, b: seq<Entry>)
    requires NoTies(entries) && Arrangement(entries, a) && Arrangement(entries, b)
    ensures a == b
  {
    var dom := set e | e in entries;
    TotalEntryOrder(entries);
    SameMembers(a, entries);
    forall i | 0 <= i < |a| ensures a[i] in dom {
      assert a[i] in entries;
    }
    SortedUnique(EntryLess, a, b, dom);
  }

  lemma SwapKeepsMultiset<T>(s: seq<T>, i: nat, j: nat)
    requires i < j < |s|
    ensures multiset(s[i := s[j]][j := s[i]]) == multiset(s)
  {
  }

  /** Exchanging two tied entries keeps an arrangement sorted. */
  lemma SwapTied(arranged: seq<Entry>, i: nat, j: nat)
    requires i < j < |arranged| && Sorted(EntryLess, arranged) && Parts(arranged[i]) == Parts(arranged[j])
    ensures Sorted(EntryLess, arranged[i := arranged[j]][j := arranged[i]])
  {
    hide Parts, PartsLess;
    var swapped := arranged[i := arranged[j]][j := arranged[i]];
    assert forall k :: 0 <= k < |arranged| ==> Parts(swapped[k]) == Parts(arranged[k]);
    forall k, l | 0 <= k < l < |arranged| ensures !EntryLess(swapped[l], swapped[k]) {
      assert !EntryLess(arranged[l], arranged[k]);
    }
  }

  /** Two tied entries leave two arrangements. */
  lemma TieLeavesTwo(entries: seq<Entry>, x: nat, y: nat) returns (a: seq<Entry>, b: seq<Entry>)
    requires x < |entries| && y < |entries| && Tied(entries[x], entries[y])
    ensures Arrangement(entries, a) && Arrangement(entries, b) && a != b
  {
    hide Parts, SortBy, PartsLess;
    a := SortBy(EntryLess, entries);
    CanonicalIsArrangement(entries);
    SameMembers(a, entries);
    assert entries[x] in a && entries[y] in a;
    var p :| 0 <= p < |a| && a[p] == entries[x];
    var q :| 0 <= q < |a| && a[q] == entries[y];
    var i, j := if p < q then p else q, if p < q then q else p;
    SwapTied(a, i, j);
    SwapKeepsMultiset(a, i, j);
    b := a[i := a[j]][j := a[i]];
    assert b[i] != a[i];
  }

  /** The canonical order of a list of entries is determined exactly when no two of its entries tie. */
  lemma ArrangementUniqueIffNoTies(entries: seq<Entry>)
    ensures NoTies(entries) <==> forall a, b :: Arrangement(entries, a) && Arrangement(entries, b) ==> a == b
  {
    hide Arrangement, Tied;
    if NoTies(entries) {
      forall a, b | Arrangement(entries, a) && Arrangement(entries, b) ensures a == b {
        OneArrangement(entries, a, b);
      }
    } else {
      var x, y :| 0 <= x < |entries| && 0 <= y < |entries| && Tied(entries[x], entries[y]);
      var a, b := TieLeavesTwo(entries, x, y);
    }
  }

  /** Entries appended by AddRawManifestEntry are in UTC with an attribute object, so they never tie. */
  lemma UtcNeverTies(entries: seq<Entry>)
    requires forall i :: 0 <= i < |entries| ==> entries[i].fetchedAt.zone == 0 && entries[i].attributes.Some?
    ensures NoTies(entries)
  {
    forall i, j | 0 <= i < |entries| && 0 <= j < |entries| ensures !Tied(entries[i], entries[j]) {
      var a, b := Parts(entries[i]), Parts(entries[j]);
      if a == b {
        assert a[0] == b[0] && a[1] == b[1] && a[2] == b[2] && a[3] == b[3] && a[4] == b[4] && a[5] == b[5] && a[6] == b[6];
      }
    }
  }

  /** One valid entry in two zones: both are valid, and their order is not determined. */
  lemma ZonesTie(e: Entry, zone: int)
    requires ValidEntry(e) && zone != e.fetchedAt.zone
    ensures var moved := e.(fetchedAt := Timestamp(e.fetchedAt.instant, zone));
            ValidEntry(moved) && Arrangement([e, moved], [e, moved]) && Arrangement([e, moved], [moved, e]) && !NoTies([e, moved])
  {
    var moved := e.(fetchedAt := Timestamp(e.fetchedAt.instant, zone));
    PartsOrder(Parts(e), Parts(moved), Parts(e));
    assert Tied([e, moved][0], [e, moved][1]);
  }

  /** Permuting the entries never changes the canonical manifest. */
  lemma PermutationInvariant(m: RawManifest, entries: seq<Entry>)
    requires NoTies(m.entries) && multiset(entries) == multiset(m.entries)
    ensures Canonical(m.(entries := entries)) == Canonical(m)
  {
    CanonicalIsArrangement(m.entries);
    CanonicalIsArrangement(entries);
    OneArrangement(m.entries, SortBy(EntryLess, entries), SortBy(EntryLess, m.entries));
  }

  lemma CanonicalIdempotent(m: RawManifest)
    requires NoTies(m.entries)
    ensures Canonical(Canonical(m)) == Canonical(m)
  {
    CanonicalIsArrangement(m.entries);
    PermutationInvariant(m, Canonical(m).entries);
    assert m.(entries := Canonical(m).entries) == Canonical(m);
  }

  lemma CanonicalStaysValid(m: RawManifest)
    requires ValidManifest(m)
    ensures ValidManifest(Canonical(m))
    ensures forall e :: e in Canonical(m).entries <==> e in m.entries
  {
    CanonicalIsArrangement(m.entries);
    SameMembers(Canonical(m).entries, m.entries);
    forall i | 0 <= i < |Canonical(m).entries| ensures ValidEntry(Canonical(m).entries[i]) {
      assert Canonical(m).entries[i] in m.entries;
    }
  }

  // ---------- building a manifest ----------

  class Builder {
    const source: string
    const ingestionRunId: string
    var entries: seq<Entry>

    constructor (source: string, ingestionRunId: string)
      ensures this.source == source && this.ingestionRunId == ingestionRunId && entries == []
    {
      this.source := source;
      this.ingestionRunId := ingestionRunId;
      entries := [];
    }

    function Contents(): RawManifest
      reads this
    {
      RawManifest(VERSION, source, ingestionRunId, entries)
    }

    /** Records the metadata that Put returned. */
    method AddRawManifestEntry(logicalKey: string, objectKey: string, metadata: Metadata) returns (ok: bool)
      requires forall i :: 0 <= i < |entries| ==> entries[i].fetchedAt.zone == 0 && entries[i].attributes.Some?
      modifies this
      ensures ok <==> ValidEntry(EntryFor(logicalKey, objectKey, metadata))
      ensures entries == if ok then old(entries) + [EntryFor(logicalKey, objectKey, metadata)] else old(entries)
      ensures NoTies(entries)
    {
      UtcNeverTies(entries);
      var entry := EntryFor(logicalKey, objectKey, metadata);
      ok := ValidEntry(entry);
      if ok {
        entries := entries + [entry];
        UtcNeverTies(entries);
      }
    }
  }

  function EntryFor(logicalKey: string, objectKey: string, metadata: Metadata): Entry
  {
    Entry(logicalKey, objectKey, metadata.sha256, metadata.size, metadata.contentType, Timestamp(metadata.fetchedAt, 0), Some(metadata.attributes))
  }

  // ---------- serialized form ----------

  /** encoding/json, both ways: an encoding that its decoder inverts. */
  datatype Codec = Codec(encode: RawManifest -> seq<Byte>, decode: seq<Byte> -> Option<RawManifest>)

  ghost predicate Faithful(c: Codec)
  {
    forall m :: c.decode(c.encode(m)) == Some(m)
  }

  function Marshal(c: Codec, m: RawManifest): Option<seq<Byte>>
  {
    if ValidManifest(m) then Some(c.encode(Canonical(m))) else None
  }

  function Unmarshal(c: Codec, b: seq<Byte>): Result<RawManifest, ManifestError>
  {
    var decoded := c.decode(b);
    if decoded.None? || !ValidManifest(decoded.value) then Err(NotDecodable)
    else
      var canonical := Canonical(decoded.value);
      if Marshal(c, canonical) != Some(b) then Err(NotCanonical) else Ok(canonical)
  }

  /** Two manifests serialize alike exactly when they list the same entries, in whatever order. */
  lemma SameBytesIffSameEntries(c: Codec, m: RawManifest, n: RawManifest)
    requires Faithful(c) && ValidManifest(m) && ValidManifest(n) && NoTies(m.entries)
    ensures Marshal(c, m) == Marshal(c, n) <==> m == n.(entries := m.entries) && multiset(m.entries) == multiset(n.entries)
  {
    if Marshal(c, m) == Marshal(c, n) {
      assert c.decode(c.encode(Canonical(m))) == Some(Canonical(m)) && c.decode(c.encode(Canonical(n))) == Some(Canonical(n));
      SortByElements(EntryLess, m.entries);
      SortByElements(EntryLess, n.entries);
    }
    if m == n.(entries := m.entries) && multiset(m.entries) == multiset(n.entries) {
      PermutationInvariant(m, n.entries);
      assert m.(entries := n.entries) == n;
    }
  }

  // ---------- publishing and loading ----------

  function ManifestKey(source: string, ingestionRunId: string): (r: Option<string>)
    ensures r.Some? <==> ValidSegment(source) && ValidSegment(ingestionRunId)
  {
    if !ValidSegment(source) || !ValidSegment(ingestionRunId) then None
    else Some("runs/" + source + "/" + ingestionRunId + "/manifest.json")
  }

  function PublishMetadata(m: RawManifest, fetchedAt: int): Metadata
  {
    Metadata(m.source, "application/json", fetchedAt, "", 0, "{\"ingestion_run_id\":\"" + m.ingestionRunId + "\",\"kind\":\"raw-run-manifest\"}")
  }

  /** The files and the reply after a publication that may die after `steps` renames. */
  function Publish(c: Codec, files: Files, m: RawManifest, fetchedAt: int, steps: nat): (Files, Result<(string, string), ManifestError>)
  {
    var key, bytes := ManifestKey(m.source, m.ingestionRunId), Marshal(c, m);
    if key.None? || bytes.None? then (files, Err(BadSegment))
    else
      var metadata := PublishMetadata(m, fetchedAt);
      var after := AfterPut(files, key.value, bytes.value, metadata, steps);
      var reply := ReplyOf(files, key.value, bytes.value, metadata, steps);
      if reply.None? then (after, Err(Interrupted))
      else if reply.value.Err? then (after, Err(StoreFailed(reply.value.error)))
      else if reply.value.value.sha256 != Sha256(bytes.value) || reply.value.value.size != |bytes.value| then (after, Err(Integrity))
      else (after, Ok((Sha256(bytes.value), key.value)))
  }

  predicate ObjectMatches(files: Files, e: Entry)
  {
    var got := Get(files, e.objectKey);
    && got.Ok?
    && Sha256(got.value.0) == e.sha256 && |got.value.0| == e.size
    && got.value.1.sha256 == e.sha256 && got.value.1.size == e.size
  }

  predicate AllObjectsMatch(files: Files, entries: seq<Entry>)
  {
    forall i :: 0 <= i < |entries| ==> ObjectMatches(files, entries[i])
  }

  function Load(c: Codec, files: Files, key: string): Result<(RawManifest, string), ManifestError>
  {
    var got := Get(files, key);
    if got.Err? then Err(StoreFailed(got.error))
    else
      var b, metadata := got.value.0, got.value.1;
      if metadata.sha256 != Sha256(b) || metadata.size != |b| then Err(Integrity)
      else
        var manifest := Unmarshal(c, b);
        if manifest.Err? then Err(manifest.error)
        else if ManifestKey(manifest.value.source, manifest.value.ingestionRunId) != Some(key) then Err(WrongAddress)
        else if !AllObjectsMatch(files, manifest.value.entries) then Err(Integrity)
        else Ok((manifest.value, Sha256(b)))
  }

  method VerifyObjects(files: Files, entries: seq<Entry>) returns (ok: bool)
    ensures ok <==> AllObjectsMatch(files, entries)
  {
    hide ObjectMatches;
    for i := 0 to |entries|
      invariant forall k :: 0 <= k < i ==> ObjectMatches(files, entries[k])
    {
      if !ObjectMatches(files, entries[i]) {
        return false;
      }
    }
    return true;
  }

  /** The loader, which reads the manifest and then every object it lists. */
  method LoadAndVerifyRawManifest(c: Codec, files: Files, key: string) returns (r: Result<(RawManifest, string), ManifestError>)
    ensures r == Load(c, files, key)
  {
    hide Unmarshal, Get, Sha256, ManifestKey, AllObjectsMatch;
    var got := Get(files, key);
    if got.Err? {
      return Err(StoreFailed(got.error));
    }
    var b, metadata := got.value.0, got.value.1;
    if metadata.sha256 != Sha256(b) || metadata.size != |b| {
      return Err(Integrity);
    }
    var manifest := Unmarshal(c, b);
    if manifest.Err? {
      return Err(manifest.error);
    }
    if ManifestKey(manifest.value.source, manifest.value.ingestionRunId) != Some(key) {
      return Err(WrongAddress);
    }
    var ok := VerifyObjects(files, manifest.value.entries);
    return if ok then Ok((manifest.value, Sha256(b))) else Err(Integrity);
  }

  /** What a successful Put left behind for a recorded entry. */
  lemma PutBacksEntry(files: Files, keys: set<string>, logicalKey: string, key: string, data: seq<Byte>, metadata: Metadata, steps: nat)
    requires Sound(files, keys) && key in keys && ReplyOf(files, key, data, metadata, steps).Some? && ReplyOf(files, key, data, metadata, steps).value.Ok?
    ensures ObjectMatches(AfterPut(files, key, data, metadata, steps), EntryFor(logicalKey, key, ReplyOf(files, key, data, metadata, steps).value.value))
  {
    hide Sha256, AfterPut, Blocked, Creations, ValidKey, Rooted;
    PutCompletes(files, key, data, metadata, steps);
    PutEffect(files, key, data, metadata, steps, key);
    PutEffect(files, key, data, metadata, steps, key + SUFFIX);
  }

  /** A later state of the store: everything stored is still there. */
  ghost predicate Extends(files: Files, later: Files)
  {
    forall path :: path in files ==> path in later && later[path] == files[path]
  }

  lemma GetKept(files: Files, later: Files, key: string)
    requires Extends(files, later) && Get(files, key).Ok?
    ensures Get(later, key) == Get(files, key)
  {
  }

  /** The bytes a successful Put reports are the bytes Get returns. */
  lemma PutThenGet(files: Files, keys: set<string>, key: string, data: seq<Byte>, metadata: Metadata, steps: nat)
    requires Sound(files, keys) && key in keys && ReplyOf(files, key, data, metadata, steps).Some? && ReplyOf(files, key, data, metadata, steps).value.Ok?
    ensures Get(AfterPut(files, key, data, metadata, steps), key) == Ok((data, ReplyOf(files, key, data, metadata, steps).value.value))
  {
    hide Sha256, AfterPut, Blocked, Creations, ValidKey, Rooted;
    PutCompletes(files, key, data, metadata, steps);
    PutEffect(files, key, data, metadata, steps, key);
    PutEffect(files, key, data, metadata, steps, key + SUFFIX);
    if key in files && Sha256(files[key].bytes) == Sha256(data) {
      Sha256Injective(files[key].bytes, data);
    }
  }

  /**
   After successful Puts and a successful publication, loading the manifest, then or
   at any later state of the store, returns the canonical manifest and the hash that
   the publication returned.
   */
  lemma LoadAfterPublish(c: Codec, files: Files, keys: set<string>, m: RawManifest, fetchedAt: int, steps: nat, later: Files)
    requires Faithful(c) && NoTies(m.entries) && Sound(files, keys)
    requires Publish(c, files, m, fetchedAt, steps).1.Ok? && Publish(c, files, m, fetchedAt, steps).1.value.1 in keys
    requires forall e :: e in m.entries ==> ObjectMatches(files, e)
    requires Extends(files, Publish(c, files, m, fetchedAt, steps).0) && Extends(Publish(c, files, m, fetchedAt, steps).0, later)
    ensures var (hash, key) := Publish(c, files, m, fetchedAt, steps).1.value;
            Load(c, later, key) == Ok((Canonical(m), hash))
  {
    var key, b := ManifestKey(m.source, m.ingestionRunId).value, Marshal(c, m).value;
    PutThenGet(files, keys, key, b, PublishMetadata(m, fetchedAt), steps);
    GetKept(Publish(c, files, m, fetchedAt, steps).0, later, key);
    UnmarshalCanonical(c, m);
    CanonicalStaysValid(m);
    hide Get, Sha256, AfterPut, ReplyOf, Canonical, ValidManifest, Marshal, Unmarshal;
    forall e | e in m.entries ensures ObjectMatches(later, e) {
      GetKept(files, later, e.objectKey);
    }
  }

  lemma UnmarshalCanonical(c: Codec, m: RawManifest)
    requires Faithful(c) && NoTies(m.entries) && ValidManifest(m)
    ensures Unmarshal(c, Marshal(c, m).value) == Ok(Canonical(m))
    ensures Canonical(m).source == m.source && Canonical(m).ingestionRunId == m.ingestionRunId
  {
    CanonicalStaysValid(m);
    CanonicalIdempotent(m);
    hide SortBy, ValidManifest;
    assert c.decode(c.encode(Canonical(m))) == Some(Canonical(m));
  }
}
