/**
 The write-once raw object store: a data file and a metadata file per key, each put
 in place by one rename. A Put may die after either rename; what is stored never
 changes, and putting the same bytes again repairs what is missing.
 */
module RawStore {
  import opened Wrappers

  type Byte = x: int | 0 <= x < 256

  // ---------- content hashes ----------

  function HexDigit(d: nat): char
    requires d < 16
  {
    "0123456789abcdef"[d]
  }

  /** Stands for the lowercase hexadecimal SHA-256 of the bytes: an injective text. */
  function Sha256(data: seq<Byte>): string
  {
    if data == [] then "" else [HexDigit(data[0] / 16), HexDigit(data[0] % 16)] + Sha256(data[1..])
  }

  lemma HexDigitInjective(a: nat, b: nat)
    requires a < 16 && b < 16 && HexDigit(a) == HexDigit(b)
    ensures a == b
  {
  }

  lemma {:induction false} Sha256Injective(a: seq<Byte>, b: seq<Byte>)
    requires Sha256(a) == Sha256(b)
    ensures a == b
    decreases |a|
  {
    if a == [] || b == [] {
      assert a != [] ==> |Sha256(a)| >= 2;
      assert b != [] ==> |Sha256(b)| >= 2;
    } else {
      var s, t := Sha256(a), Sha256(b);
      assert s[0] == t[0] && s[1] == t[1] && s[2..] == t[2..];
      assert s[2..] == Sha256(a[1..]) && t[2..] == Sha256(b[1..]);
      HexDigitInjective(a[0] / 16, b[0] / 16);
      HexDigitInjective(a[0] % 16, b[0] % 16);
      Sha256Injective(a[1..], b[1..]);
      assert a == [a[0]] + a[1..] && b == [b[0]] + b[1..];
    }
  }

  // ---------- files ----------

  /** `attributes` is the canonical JSON text of the attribute map. */
  datatype Metadata = Metadata(source: string, contentType: string, fetchedAt: int, sha256: string, size: nat, attributes: string)

  /** What a path holds: object bytes, an encoded metadata document, or a directory. */
  datatype File = Object(bytes: seq<Byte>) | Sidecar(metadata: Metadata) | Folder

  type Files = map<string, File>

  const SUFFIX := ".metadata.json"

  /** The text between two separators, or between a separator and an end. */
  predicate IsSegment(key: string, i: nat, j: nat)
  {
    i <= j <= |key| && (i == 0 || key[i - 1] == '/') && (j == |key| || key[j] == '/') && '/' !in key[i..j]
  }

  /** Keys are taken in the clean form that path cleaning gives them. */
  predicate ValidKey(key: string)
  {
    '\0' !in key && forall i, j :: 0 <= i <= j <= |key| && IsSegment(key, i, j) ==> key[i..j] !in ["", ".", ".."]
  }

  /** `above` is a directory on the way to `path`. */
  predicate Above(above: string, path: string)
  {
    |above| < |path| && path[..|above|] == above && path[|above|] == '/'
  }

  datatype StoreError = InvalidKey | BlockedPath | MetadataWithoutData | ImmutableConflict | Unreadable | IntegrityMismatch

  function Stamp(metadata: Metadata, data: seq<Byte>): Metadata
  {
    metadata.(sha256 := Sha256(data), size := |data|)
  }

  // ---------- Put ----------

  /** A file stands where a directory on the way to the key is needed. */
  predicate Blocked(files: Files, key: string)
  {
    exists i :: 0 <= i < |key| && key[i] == '/' && key[..i] in files && !files[key[..i]].Folder?
  }

  /** What Put decides after it has staged the bytes and looked at both paths. */
  datatype Decision = Refuse(error: StoreError) | AlreadyThere(current: Metadata) | AddMetadata | AddBoth

  function Decide(files: Files, key: string, stamped: Metadata): Decision
  {
    if key + SUFFIX in files then
      var sidecar := files[key + SUFFIX];
      if !sidecar.Sidecar? then Refuse(Unreadable)
      else if key !in files then Refuse(MetadataWithoutData)
      else if sidecar.metadata.sha256 != stamped.sha256 then Refuse(ImmutableConflict)
      else AlreadyThere(sidecar.metadata)
    else if key in files then
      var existing := files[key];
      if existing.Folder? then Refuse(Unreadable)
      else if existing.Sidecar? || Sha256(existing.bytes) != stamped.sha256 || |existing.bytes| != stamped.size then Refuse(ImmutableConflict)
      else AddMetadata
    else AddBoth
  }

  /** One path that comes into being: a directory made, or a file renamed into place. */
  datatype Creation = Creation(path: string, file: File)

  /** The missing directories among the first `n` characters of the key, topmost first. */
  function MissingFolders(files: Files, key: string, n: nat): seq<Creation>
    requires n <= |key|
  {
    if n == 0 then []
    else MissingFolders(files, key, n - 1) + if key[n - 1] == '/' && key[..n - 1] !in files then [Creation(key[..n - 1], Folder)] else []
  }

  function Renames(d: Decision, key: string, data: seq<Byte>, stamped: Metadata): seq<Creation>
  {
    match d
    case AddMetadata => [Creation(key + SUFFIX, Sidecar(stamped))]
    case AddBoth => [Creation(key, Object(data)), Creation(key + SUFFIX, Sidecar(stamped))]
    case _ => []
  }

  /** Everything one Put creates, in order. */
  function Creations(files: Files, key: string, data: seq<Byte>, metadata: Metadata): seq<Creation>
  {
    if !ValidKey(key) || Blocked(files, key) then []
    else
      var stamped := Stamp(metadata, data);
      MissingFolders(files, key, |key|) + Renames(Decide(files, key, stamped), key, data, stamped)
  }

  function Create(files: Files, creations: seq<Creation>): Files
  {
    if creations == [] then files
    else
      var last := creations[|creations| - 1];
      Create(files, creations[..|creations| - 1])[last.path := last.file]
  }

  /** The files after at most `steps` creations of one Put. */
  function AfterPut(files: Files, key: string, data: seq<Byte>, metadata: Metadata, steps: nat): Files
  {
    var all := Creations(files, key, data, metadata);
    Create(files, if steps < |all| then all[..steps] else all)
  }

  /** The reply, None when the process died or an operation failed first. */
  function ReplyOf(files: Files, key: string, data: seq<Byte>, metadata: Metadata, steps: nat): Option<Result<Metadata, StoreError>>
  {
    var stamped := Stamp(metadata, data);
    if !ValidKey(key) then Some(Err(InvalidKey))
    else if Blocked(files, key) then Some(Err(BlockedPath))
    else if steps < |Creations(files, key, data, metadata)| then None
    else match Decide(files, key, stamped)
      case Refuse(e) => Some(Err(e))
      case AlreadyThere(current) => Some(Ok(current))
      case _ => Some(Ok(stamped))
  }

  function Get(files: Files, key: string): Result<(seq<Byte>, Metadata), StoreError>
  {
    if !ValidKey(key) then Err(InvalidKey)
    else if key + SUFFIX !in files || !files[key + SUFFIX].Sidecar? || key !in files || !files[key].Object? then Err(Unreadable)
    else
      var bytes, metadata := files[key].bytes, files[key + SUFFIX].metadata;
      if Sha256(bytes) != metadata.sha256 || |bytes| != metadata.size then Err(IntegrityMismatch) else Ok((bytes, metadata))
  }

  lemma {:induction false} CreatedPaths(files: Files, creations: seq<Creation>, path: string)
    ensures path in Create(files, creations) <==> path in files || exists i :: 0 <= i < |creations| && creations[i].path == path
    ensures path in files && (forall i :: 0 <= i < |creations| ==> creations[i].path != path) ==> Create(files, creations)[path] == files[path]
    decreases |creations|
  {
    if creations != [] {
      CreatedPaths(files, creations[..|creations| - 1], path);
    }
  }

  /** Only directories on the way to the key are made, each once, the ones above first. */
  lemma {:induction false} MissingAreAbove(files: Files, key: string, n: nat)
    requires n <= |key|
    ensures forall c :: c in MissingFolders(files, key, n) ==> c.file.Folder? && c.path !in files && |c.path| < n && Above(c.path, key)
    ensures forall k :: 0 <= k < n && key[k] == '/' && key[..k] !in files ==> Creation(key[..k], Folder) in MissingFolders(files, key, n)
  {
    if n > 0 {
      MissingAreAbove(files, key, n - 1);
    }
  }

  lemma {:induction false} MissingInOrder(files: Files, key: string, n: nat, i: nat, j: nat)
    requires n <= |key| && i < j < |MissingFolders(files, key, n)|
    ensures |MissingFolders(files, key, n)[i].path| < |MissingFolders(files, key, n)[j].path|
  {
    var before := MissingFolders(files, key, n - 1);
    if j < |before| {
      MissingInOrder(files, key, n - 1, i, j);
    } else {
      MissingAreAbove(files, key, n - 1);
      assert before[i] in before;
    }
  }

  lemma {:induction false} MissingPrefix(files: Files, key: string, n: nat, m: nat)
    requires n <= m <= |key|
    ensures MissingFolders(files, key, n) <= MissingFolders(files, key, m)
    decreases m
  {
    if n < m {
      MissingPrefix(files, key, n, m - 1);
    }
  }

  lemma CreateNothing(files: Files, key: string)
    ensures Create(files, []) == files && MissingFolders(files, key, 0) == []
  {
  }

  /** Whether the next directory is missing does not depend on those just made above it. */
  lemma FolderStep(files: Files, key: string, i: nat)
    requires i < |key|
    ensures var made, next := MissingFolders(files, key, i), MissingFolders(files, key, i + 1);
            && made <= next <= MissingFolders(files, key, |key|)
            && (if key[i] == '/' && key[..i] !in Create(files, made) then |next| == |made| + 1 && Create(files, next) == Create(files, made)[key[..i] := Folder] else next == made)
  {
    hide Above;
    var made := MissingFolders(files, key, i);
    MissingPrefix(files, key, i, i + 1);
    MissingPrefix(files, key, i + 1, |key|);
    NotMadeYet(files, key, i);
    if key[i] == '/' && key[..i] !in files {
      CreateOne(files, made, Creation(key[..i], Folder));
    }
  }

  lemma NotMadeYet(files: Files, key: string, i: nat)
    requires i <= |key|
    ensures key[..i] in Create(files, MissingFolders(files, key, i)) <==> key[..i] in files
  {
    hide Above, Create, MissingFolders;
    MissingAreAbove(files, key, i);
    var made := MissingFolders(files, key, i);
    assert forall k :: 0 <= k < |made| ==> made[k] in made;
    CreatedPaths(files, made, key[..i]);
  }

  lemma CreateOne(files: Files, creations: seq<Creation>, next: Creation)
    ensures Create(files, creations + [next]) == Create(files, creations)[next.path := next.file]
  {
    assert (creations + [next])[..|creations|] == creations;
  }

  class FileRawStore {
    var files: Files

    constructor ()
      ensures files == map[]
    {
      files := map[];
    }

    /** Looks for a file where a directory is needed. */
    method IsBlocked(key: string) returns (blocked: bool)
      ensures blocked == Blocked(files, key)
    {
      for i := 0 to |key|
        invariant forall k :: 0 <= k < i && key[k] == '/' && key[..k] in files ==> files[key[..k]].Folder?
      {
        if key[i] == '/' && key[..i] in files && !files[key[..i]].Folder? {
          return true;
        }
      }
      return false;
    }

    /** Makes the missing directories from the top; None when it dies on the way. */
    method MakeFolders(key: string, steps: nat) returns (left: Option<nat>)
      modifies this
      ensures var missing := MissingFolders(old(files), key, |key|);
              && files == Create(old(files), if steps < |missing| then missing[..steps] else missing)
              && left == if steps < |missing| then None else Some(steps - |missing|)
    {
      hide Create, MissingFolders;
      var remaining := steps;
      CreateNothing(files, key);
      for i := 0 to |key|
        invariant var made := MissingFolders(old(files), key, i); files == Create(old(files), made) && remaining == steps - |made|
      {
        FolderStep(old(files), key, i);
        if key[i] == '/' && key[..i] !in files {
          if remaining == 0 {
            assert MissingFolders(old(files), key, |key|)[..steps] == MissingFolders(old(files), key, i);
            return None;
          }
          files := files[key[..i] := Folder];
          remaining := remaining - 1;
        }
      }
      return Some(remaining);
    }

    /** Makes the directories, stages the bytes, inspects both paths, and renames; dies after `steps` creations. */
    method Put(key: string, data: seq<Byte>, metadata: Metadata, steps: nat) returns (reply: Option<Result<Metadata, StoreError>>)
      modifies this
      ensures files == AfterPut(old(files), key, data, metadata, steps)
      ensures reply == ReplyOf(old(files), key, data, metadata, steps)
    {
      hide ValidKey, Blocked, Sha256, MissingFolders, Create, Creations;
      if !ValidKey(key) {
        RefusedCreatesNothing(files, key, data, metadata, steps);
        return Some(Err(InvalidKey));
      }
      var blocked := IsBlocked(key);
      if blocked {
        RefusedCreatesNothing(files, key, data, metadata, steps);
        return Some(Err(BlockedPath));
      }
      var stamped := metadata.(sha256 := Sha256(data), size := |data|);
      ghost var missing, all := MissingFolders(files, key, |key|), Creations(files, key, data, metadata);
      ghost var before := files;
      CreationsAre(before, key, data, metadata);
      var left := MakeFolders(key, steps);
      if left.None? {
        assert all[..steps] == missing[..steps];
        return None;
      }
      assert files == Create(before, missing);
      var rest := left.value;
      if key + SUFFIX in files {
        assert all == missing;
        var sidecar := files[key + SUFFIX];
        if !sidecar.Sidecar? {
          return Some(Err(Unreadable));
        }
        if key !in files {
          return Some(Err(MetadataWithoutData));
        }
        if sidecar.metadata.sha256 != stamped.sha256 {
          return Some(Err(ImmutableConflict));
        }
        return Some(Ok(sidecar.metadata));
      }
      ghost var done := missing;
      if key in files {
        var existing := files[key];
        if existing.Folder? {
          assert all == missing;
          return Some(Err(Unreadable));
        }
        if existing.Sidecar? || Sha256(existing.bytes) != stamped.sha256 || |existing.bytes| != stamped.size {
          assert all == missing;
          return Some(Err(ImmutableConflict));
        }
      } else {
        if rest == 0 {
          assert all[..steps] == missing;
          return None;
        }
        done := missing + [Creation(key, Object(data))];
        CreateOne(before, missing, Creation(key, Object(data)));
        files := files[key := Object(data)];
        rest := rest - 1;
      }
      assert all == done + [Creation(key + SUFFIX, Sidecar(stamped))];
      if rest == 0 {
        assert all[..steps] == done;
        return None;
      }
      CreateOne(before, done, Creation(key + SUFFIX, Sidecar(stamped)));
      files := files[key + SUFFIX := Sidecar(stamped)];
      return Some(Ok(stamped));
    }
  }

  lemma RefusedCreatesNothing(files: Files, key: string, data: seq<Byte>, metadata: Metadata, steps: nat)
    requires !ValidKey(key) || Blocked(files, key)
    ensures AfterPut(files, key, data, metadata, steps) == files
  {
    hide ValidKey, Blocked;
  }

  /** What remains to be created once the directories are made is decided by what is there then. */
  lemma CreationsAre(files: Files, key: string, data: seq<Byte>, metadata: Metadata)
    requires ValidKey(key) && !Blocked(files, key)
    ensures var missing, stamped := MissingFolders(files, key, |key|), Stamp(metadata, data);
            && Decide(Create(files, missing), key, stamped) == Decide(files, key, stamped)
            && Creations(files, key, data, metadata) == missing + Renames(Decide(files, key, stamped), key, data, stamped)
  {
    hide ValidKey, Blocked, Sha256, MissingFolders, Create;
    MissingLeavesKey(files, key, Stamp(metadata, data));
  }

  /** Making directories changes nothing that Put decides by. */
  lemma MissingLeavesKey(files: Files, key: string, stamped: Metadata)
    ensures var made := Create(files, MissingFolders(files, key, |key|));
            && (key in made <==> key in files) && (key in files ==> made[key] == files[key])
            && (key + SUFFIX in made <==> key + SUFFIX in files) && (key + SUFFIX in files ==> made[key + SUFFIX] == files[key + SUFFIX])
  {
    MissingAreAbove(files, key, |key|);
    var missing := MissingFolders(files, key, |key|);
    assert forall k :: 0 <= k < |missing| ==> missing[k] in missing;
    CreatedPaths(files, MissingFolders(files, key, |key|), key);
    CreatedPaths(files, MissingFolders(files, key, |key|), key + SUFFIX);
  }

  // ---------- histories ----------

  /** One Put of a history and how far it got. */
  datatype Event = Event(key: string, data: seq<Byte>, metadata: Metadata, steps: nat)

  function FilesAfter(events: seq<Event>, n: nat): Files
    requires n <= |events|
  {
    if n == 0 then map[]
    else
      var e := events[n - 1];
      AfterPut(FilesAfter(events, n - 1), e.key, e.data, e.metadata, e.steps)
  }

  predicate KeysIn(events: seq<Event>, keys: set<string>)
  {
    forall i :: 0 <= i < |events| ==> events[i].key in keys
  }

  /** No key is another key's metadata path, and no key or metadata path is a directory on the way to another key. */
  predicate Separate(keys: set<string>)
  {
    forall k, l :: k in keys && l in keys ==> l != k + SUFFIX && !Above(k, l) && !Above(k + SUFFIX, l)
  }

  // ---------- what one Put changes ----------

  lemma {:induction false} CreatedValue(files: Files, creations: seq<Creation>, path: string)
    requires path in Create(files, creations) && path !in files
    ensures exists i :: 0 <= i < |creations| && creations[i].path == path && creations[i].file == Create(files, creations)[path]
    decreases |creations|
  {
    var last := creations[|creations| - 1];
    if last.path != path {
      CreatedValue(files, creations[..|creations| - 1], path);
      var i :| 0 <= i < |creations| - 1 && creations[..|creations| - 1][i].path == path && creations[..|creations| - 1][i].file == Create(files, creations)[path];
      assert creations[i].path == path;
    }
  }

  /** Put could read matching object bytes at the key. */
  predicate Matches(files: Files, key: string, metadata: Metadata)
  {
    key in files && files[key].Object? && Sha256(files[key].bytes) == metadata.sha256 && |files[key].bytes| == metadata.size
  }

  /** A creation is a directory on the way, the object, or the metadata over matching bytes, in this order. */
  predicate KindOf(files: Files, key: string, data: seq<Byte>, stamped: Metadata, all: seq<Creation>, i: nat)
    requires i < |all|
  {
    var c := all[i];
    && c.path !in files
    && ((Above(c.path, key) && c.file.Folder?)
        || c == Creation(key, Object(data))
        || (c == Creation(key + SUFFIX, Sidecar(stamped)) && (Matches(files, key, stamped) || (i > 0 && all[i - 1] == Creation(key, Object(data))))))
  }

  lemma CreationKinds(files: Files, key: string, data: seq<Byte>, metadata: Metadata)
    ensures var all := Creations(files, key, data, metadata);
            forall i :: 0 <= i < |all| ==> KindOf(files, key, data, Stamp(metadata, data), all, i)
  {
    hide Sha256, ValidKey, Blocked, MissingFolders;
    MissingAreAbove(files, key, |key|);
    var all, missing, stamped := Creations(files, key, data, metadata), MissingFolders(files, key, |key|), Stamp(metadata, data);
    forall i | 0 <= i < |all| ensures KindOf(files, key, data, stamped, all, i) {
      if i < |missing| {
        assert all[i] == missing[i] && missing[i] in missing;
      } else {
        assert all[i] == Renames(Decide(files, key, stamped), key, data, stamped)[i - |missing|];
      }
    }
  }

  /** What was there stays; what is new is a directory on the way, the object, or its metadata. */
  lemma PutEffect(files: Files, key: string, data: seq<Byte>, metadata: Metadata, steps: nat, path: string)
    ensures var after := AfterPut(files, key, data, metadata, steps);
            && (path in files ==> path in after && after[path] == files[path])
            && (path in after && path !in files ==>
                  || (Above(path, key) && after[path].Folder?)
                  || (path == key && after[path] == Object(data))
                  || (path == key + SUFFIX && after[path] == Sidecar(Stamp(metadata, data)) && key in after && Matches(after, key, Stamp(metadata, data))))
  {
    var all, stamped := Creations(files, key, data, metadata), Stamp(metadata, data);
    CreationKinds(files, key, data, metadata);
    hide Creations, Sha256;
    var some := if steps < |all| then all[..steps] else all;
    var after := Create(files, some);
    forall i | 0 <= i < |some| ensures some[i] == all[i] && KindOf(files, key, data, stamped, all, i) {
    }
    CreatedPaths(files, some, path);
    CreatedPaths(files, some, key);
    assert path in files ==> after[path] == files[path];
    if path in after && path !in files {
      CreatedValue(files, some, path);
      var i :| 0 <= i < |some| && some[i].path == path && some[i].file == after[path];
      if path == key + SUFFIX {
        ObjectUnderMetadata(files, key, data, stamped, all, some, i);
      }
    }
  }

  lemma ObjectUnderMetadata(files: Files, key: string, data: seq<Byte>, stamped: Metadata, all: seq<Creation>, some: seq<Creation>, i: nat)
    requires some <= all && i < |some| && some[i].path == key + SUFFIX && stamped.sha256 == Sha256(data) && stamped.size == |data|
    requires forall k :: 0 <= k < |some| ==> KindOf(files, key, data, stamped, all, k)
    ensures Matches(Create(files, some), key, stamped)
  {
    hide Sha256, Create;
    assert |key + SUFFIX| > |key| && KindOf(files, key, data, stamped, all, i);
    CreatedPaths(files, some, key);
    if !Matches(files, key, stamped) {
      assert some[i - 1] == Creation(key, Object(data)) && KindOf(files, key, data, stamped, all, i - 1);
      CreatedValue(files, some, key);
      var k :| 0 <= k < |some| && some[k].path == key && some[k].file == Create(files, some)[key];
      assert KindOf(files, key, data, stamped, all, k);
    } else {
      forall k | 0 <= k < |some| ensures some[k].path != key {
        assert KindOf(files, key, data, stamped, all, k);
      }
    }
  }

  /** A Put that is not refused and runs to its end leaves the object and its metadata. */
  lemma PutCompletes(files: Files, key: string, data: seq<Byte>, metadata: Metadata, steps: nat)
    requires ReplyOf(files, key, data, metadata, steps).Some? && ReplyOf(files, key, data, metadata, steps).value.Ok?
    ensures var after := AfterPut(files, key, data, metadata, steps);
            key in after && key + SUFFIX in after && after[key + SUFFIX] == Sidecar(ReplyOf(files, key, data, metadata, steps).value.value)
  {
    var all, stamped := Creations(files, key, data, metadata), Stamp(metadata, data);
    hide Sha256, ValidKey, Blocked, MissingFolders;
    var after := AfterPut(files, key, data, metadata, steps);
    PutEffect(files, key, data, metadata, steps, key);
    PutEffect(files, key, data, metadata, steps, key + SUFFIX);
    assert after == Create(files, all);
    var missing := MissingFolders(files, key, |key|);
    match Decide(files, key, stamped) {
      case AddMetadata =>
        assert all[|missing|] == Creation(key + SUFFIX, Sidecar(stamped));
        CreatedPaths(files, all, key + SUFFIX);
      case AddBoth =>
        assert all[|missing|] == Creation(key, Object(data)) && all[|missing| + 1] == Creation(key + SUFFIX, Sidecar(stamped));
        CreatedPaths(files, all, key);
        CreatedPaths(files, all, key + SUFFIX);
      case _ =>
    }
  }

  lemma PutAddsOnly(files: Files, key: string, data: seq<Byte>, metadata: Metadata, steps: nat, path: string)
    requires path in files
    ensures path in AfterPut(files, key, data, metadata, steps) && AfterPut(files, key, data, metadata, steps)[path] == files[path]
  {
    hide AfterPut;
    PutEffect(files, key, data, metadata, steps, path);
  }

  /** Whatever keys are used and wherever processes die, a stored file is never altered or removed. */
  lemma {:induction false} StoredFilesNeverChange(events: seq<Event>, i: nat, j: nat, path: string)
    requires i <= j <= |events| && path in FilesAfter(events, i)
    ensures path in FilesAfter(events, j) && FilesAfter(events, j)[path] == FilesAfter(events, i)[path]
    decreases j
  {
    hide AfterPut;
    if i < j {
      StoredFilesNeverChange(events, i, j - 1, path);
      var e := events[j - 1];
      PutAddsOnly(FilesAfter(events, j - 1), e.key, e.data, e.metadata, e.steps, path);
    }
  }

  // ---------- every stored path lies in directories ----------

  /** Every path present lies in directories that are present. */
  predicate Rooted(files: Files)
  {
    forall path, k :: path in files && 0 <= k < |path| && path[k] == '/' ==> path[..k] in files && files[path[..k]].Folder?
  }

  lemma NoSlashInSuffix(key: string, n: nat)
    requires |key| <= n < |key + SUFFIX|
    ensures (key + SUFFIX)[n] != '/'
  {
    assert (key + SUFFIX)[n] == SUFFIX[n - |key|] && '/' !in SUFFIX;
  }

  /** The directory in front of the `k`-th character was there, or is made before anything below it. */
  lemma FolderComesFirst(files: Files, key: string, data: seq<Byte>, metadata: Metadata, i: nat, k: nat)
    requires i < |Creations(files, key, data, metadata)| && k < |key| && key[k] == '/' && key[..k] !in files
    requires k < |Creations(files, key, data, metadata)[i].path|
    ensures exists j :: 0 <= j <= i && Creations(files, key, data, metadata)[j] == Creation(key[..k], Folder)
  {
    var all, missing := Creations(files, key, data, metadata), MissingFolders(files, key, |key|);
    hide Sha256, MissingFolders, Decide, ValidKey, Blocked;
    MissingAreAbove(files, key, |key|);
    var j :| 0 <= j < |missing| && missing[j] == Creation(key[..k], Folder);
    assert all[j] == missing[j];
    if i < j {
      assert all[i] == missing[i];
      MissingInOrder(files, key, |key|, i, j);
    }
  }

  lemma FoldersOnTheWay(files: Files, key: string, data: seq<Byte>, metadata: Metadata, steps: nat, path: string, k: nat)
    requires Rooted(files) && path !in files && path in AfterPut(files, key, data, metadata, steps) && k < |path| && path[k] == '/'
    ensures path[..k] in AfterPut(files, key, data, metadata, steps) && AfterPut(files, key, data, metadata, steps)[path[..k]].Folder?
  {
    hide Sha256, MissingFolders, Create, Creations, Matches, Rooted, SUFFIX;
    var all := Creations(files, key, data, metadata);
    var some := if steps < |all| then all[..steps] else all;
    PutEffect(files, key, data, metadata, steps, path);
    WayToKey(key, path, k);
    CreatedValue(files, some, path);
    var i :| 0 <= i < |some| && some[i].path == path;
    if key[..k] !in files {
      FolderComesFirst(files, key, data, metadata, i, k);
      var j :| 0 <= j <= i && all[j] == Creation(key[..k], Folder);
      assert some[j] == all[j];
      CreatedPaths(files, some, key[..k]);
    }
    PutEffect(files, key, data, metadata, steps, key[..k]);
    if key[..k] in files {
      NotBlocked(files, key, data, metadata, steps, path, k);
    }
    ShorterThanKey(key, k);
  }

  lemma ShorterThanKey(key: string, k: nat)
    requires k < |key|
    ensures key[..k] != key && key[..k] != key + SUFFIX
  {
    assert |key + SUFFIX| > k;
  }

  lemma WayToKey(key: string, path: string, k: nat)
    requires k < |path| && path[k] == '/' && (Above(path, key) || path == key || path == key + SUFFIX)
    ensures k < |key| && key[k] == '/' && path[..k] == key[..k]
  {
    if path == key + SUFFIX && k >= |key| {
      NoSlashInSuffix(key, k);
    }
  }

  lemma NotBlocked(files: Files, key: string, data: seq<Byte>, metadata: Metadata, steps: nat, path: string, k: nat)
    requires path !in files && path in AfterPut(files, key, data, metadata, steps) && k < |key| && key[k] == '/' && key[..k] in files
    ensures files[key[..k]].Folder?
  {
    hide ValidKey, Decide, MissingFolders;
  }

  lemma PutKeepsRooted(files: Files, key: string, data: seq<Byte>, metadata: Metadata, steps: nat)
    requires Rooted(files)
    ensures Rooted(AfterPut(files, key, data, metadata, steps))
  {
    hide AfterPut;
    var after := AfterPut(files, key, data, metadata, steps);
    forall path, k | path in after && 0 <= k < |path| && path[k] == '/' ensures path[..k] in after && after[path[..k]].Folder? {
      if path in files {
        PutAddsOnly(files, key, data, metadata, steps, path[..k]);
      } else {
        FoldersOnTheWay(files, key, data, metadata, steps, path, k);
      }
    }
  }

  // ---------- soundness over histories ----------

  /** Every key holds object bytes in a chain of directories, and metadata only over matching bytes. */
  predicate Sound(files: Files, keys: set<string>)
  {
    && Rooted(files)
    && forall k :: k in keys ==>
         && !Blocked(files, k)
         && (k in files ==> files[k].Object?)
         && (k + SUFFIX in files ==> files[k + SUFFIX].Sidecar? && Matches(files, k, files[k + SUFFIX].metadata))
  }

  lemma SuffixCancels(k: string, l: string)
    requires k + SUFFIX == l + SUFFIX
    ensures k == l
  {
    assert (k + SUFFIX)[..|k|] == k && (l + SUFFIX)[..|l|] == l;
  }

  lemma PutKeepsKeySound(files: Files, keys: set<string>, e: Event, k: string)
    requires Separate(keys) && Sound(files, keys) && e.key in keys && k in keys
    ensures var after := AfterPut(files, e.key, e.data, e.metadata, e.steps);
            && !Blocked(after, k)
            && (k in after ==> after[k].Object?)
            && (k + SUFFIX in after ==> after[k + SUFFIX].Sidecar? && Matches(after, k, after[k + SUFFIX].metadata))
  {
    hide Sha256, AfterPut, Rooted;
    var after := AfterPut(files, e.key, e.data, e.metadata, e.steps);
    assert k != e.key + SUFFIX && e.key != k + SUFFIX && !Above(k, e.key) && !Above(k + SUFFIX, e.key);
    PutEffect(files, e.key, e.data, e.metadata, e.steps, k);
    PutEffect(files, e.key, e.data, e.metadata, e.steps, k + SUFFIX);
    if k + SUFFIX == e.key + SUFFIX {
      SuffixCancels(k, e.key);
    }
    forall i | 0 <= i < |k| && k[i] == '/' && k[..i] in after ensures after[k[..i]].Folder? {
      assert Above(k[..i], k);
      PutEffect(files, e.key, e.data, e.metadata, e.steps, k[..i]);
    }
  }

  lemma PutKeepsSound(files: Files, keys: set<string>, e: Event)
    requires Separate(keys) && Sound(files, keys) && e.key in keys
    ensures Sound(AfterPut(files, e.key, e.data, e.metadata, e.steps), keys)
  {
    hide AfterPut, Rooted, Blocked, Matches, Separate;
    PutKeepsRooted(files, e.key, e.data, e.metadata, e.steps);
    forall k | k in keys
      ensures var after := AfterPut(files, e.key, e.data, e.metadata, e.steps);
              && !Blocked(after, k)
              && (k in after ==> after[k].Object?)
              && (k + SUFFIX in after ==> after[k + SUFFIX].Sidecar? && Matches(after, k, after[k + SUFFIX].metadata))
    {
      PutKeepsKeySound(files, keys, e, k);
    }
  }

  lemma EmptyIsSound(keys: set<string>)
    ensures Sound(map[], keys)
  {
  }

  /** Metadata present implies matching data present, after any crashes. */
  lemma {:induction false} HistoriesStaySound(events: seq<Event>, n: nat, keys: set<string>)
    requires n <= |events| && KeysIn(events, keys) && Separate(keys)
    ensures Sound(FilesAfter(events, n), keys)
  {
    hide Sound, AfterPut, Separate;
    if n == 0 {
      EmptyIsSound(keys);
    } else {
      HistoriesStaySound(events, n - 1, keys);
      PutKeepsSound(FilesAfter(events, n - 1), keys, events[n - 1]);
    }
  }

  /** No other bytes are stored at the key. */
  predicate CanHold(files: Files, key: string, data: seq<Byte>)
  {
    key in files && files[key].Object? ==> files[key].bytes == data
  }

  /** A Put that runs to its end over a fresh key or the same bytes succeeds, and Get then returns the bytes. */
  lemma PutRecovers(files: Files, keys: set<string>, key: string, data: seq<Byte>, metadata: Metadata, steps: nat)
    requires Sound(files, keys) && key in keys && ValidKey(key) && steps >= |Creations(files, key, data, metadata)|
    requires CanHold(files, key, data)
    ensures var reply := ReplyOf(files, key, data, metadata, steps);
            && reply.Some? && reply.value.Ok?
            && Get(AfterPut(files, key, data, metadata, steps), key) == Ok((data, reply.value.value))
  {
    hide Sha256, ValidKey, Blocked, AfterPut, Creations;
    PutCompletes(files, key, data, metadata, steps);
    PutEffect(files, key, data, metadata, steps, key);
    PutEffect(files, key, data, metadata, steps, key + SUFFIX);
  }

  /** Over present directories there is nothing to make. */
  lemma NothingMissing(files: Files, key: string)
    requires Rooted(files) && key in files
    ensures MissingFolders(files, key, |key|) == []
  {
    var missing := MissingFolders(files, key, |key|);
    MissingAreAbove(files, key, |key|);
    if missing != [] {
      FirstIn(missing);
    }
  }

  lemma FirstIn<T>(s: seq<T>)
    requires s != []
    ensures exists x :: x in s
  {
    assert s[0] in s;
  }

  /** A Put of other bytes over stored ones always fails and changes nothing. */
  lemma PutConflicts(files: Files, keys: set<string>, key: string, data: seq<Byte>, metadata: Metadata, steps: nat)
    requires Sound(files, keys) && key in keys && ValidKey(key) && key in files && files[key] != Object(data)
    ensures ReplyOf(files, key, data, metadata, steps) == Some(Err(ImmutableConflict))
    ensures AfterPut(files, key, data, metadata, steps) == files
  {
    hide Sha256, ValidKey, Blocked, MissingFolders;
    NothingMissing(files, key);
    if Sha256(files[key].bytes) == Sha256(data) {
      Sha256Injective(files[key].bytes, data);
    }
    assert Creations(files, key, data, metadata) == [];
  }

  /** The put whose bytes took a key: it found the path free and left it occupied. */
  predicate FirstStored(events: seq<Event>, i: nat, key: string)
  {
    i < |events| && events[i].key == key && key !in FilesAfter(events, i) && key in FilesAfter(events, i + 1)
  }

  /** Get returns the bytes of the put that first took the key. */
  lemma GetReturnsFirstBytes(events: seq<Event>, n: nat, keys: set<string>, key: string) returns (i: nat)
    requires n <= |events| && KeysIn(events, keys) && Separate(keys) && key in keys
    requires Get(FilesAfter(events, n), key).Ok?
    ensures i < n && FirstStored(events, i, key)
    ensures Get(FilesAfter(events, n), key).value.0 == events[i].data
  {
    hide Sha256, AfterPut, FilesAfter, FirstStored, Separate;
    i := FirstPutOf(events, n, keys, key);
    StoredFilesNeverChange(events, i + 1, n, key);
  }

  /** Only one put ever takes a key. */
  lemma TakenOnce(events: seq<Event>, i: nat, j: nat, key: string)
    requires FirstStored(events, i, key) && FirstStored(events, j, key)
    ensures i == j
  {
    hide FilesAfter;
    if j < i {
      StoredFilesNeverChange(events, j + 1, i, key);
    } else if i < j {
      StoredFilesNeverChange(events, i + 1, j, key);
    }
  }

  lemma {:induction false} FirstPutOf(events: seq<Event>, n: nat, keys: set<string>, key: string) returns (i: nat)
    requires n <= |events| && KeysIn(events, keys) && Separate(keys) && key in keys && key in FilesAfter(events, n)
    ensures i < n && FirstStored(events, i, key) && key in FilesAfter(events, i + 1) && FilesAfter(events, i + 1)[key] == Object(events[i].data)
  {
    hide AfterPut;
    if key in FilesAfter(events, n - 1) {
      i := FirstPutOf(events, n - 1, keys, key);
    } else {
      i := n - 1;
      var e := events[i];
      assert key != e.key + SUFFIX && !Above(key, e.key);
      PutEffect(FilesAfter(events, i), e.key, e.data, e.metadata, e.steps, key);
    }
  }

  // ---------- which keys may live together ----------

  /** Over these keys, after any history, a Put that runs to its end over a fresh key or the same bytes succeeds. */
  ghost predicate PutsRecover(keys: set<string>)
  {
    forall events: seq<Event>, key: string, data: seq<Byte>, metadata: Metadata ::
      KeysIn(events, keys) && key in keys && CanHold(FilesAfter(events, |events|), key, data) ==>
        Accepts(FilesAfter(events, |events|), key, data, metadata)
  }

  /** The call succeeds when nothing cuts it short. */
  predicate Accepts(files: Files, key: string, data: seq<Byte>, metadata: Metadata)
  {
    var reply := ReplyOf(files, key, data, metadata, |Creations(files, key, data, metadata)|);
    reply.Some? && reply.value.Ok?
  }

  const NO_METADATA := Metadata("", "", 0, "", 0, "")

  /** Every interrupted or repeated Put can be recovered exactly when keys, metadata paths and directories never meet. */
  lemma RecoveryIffSeparate(keys: set<string>)
    requires forall k :: k in keys ==> ValidKey(k)
    ensures PutsRecover(keys) <==> Separate(keys)
  {
    if Separate(keys) {
      forall events: seq<Event>, key: string, data: seq<Byte>, metadata: Metadata
        | KeysIn(events, keys) && key in keys && CanHold(FilesAfter(events, |events|), key, data)
        ensures Accepts(FilesAfter(events, |events|), key, data, metadata)
      {
        hide FilesAfter, Creations, ReplyOf, Separate, KeysIn, Sound, CanHold, ValidKey;
        HistoriesStaySound(events, |events|, keys);
        var files := FilesAfter(events, |events|);
        PutRecovers(files, keys, key, data, metadata, |Creations(files, key, data, metadata)|);
      }
    } else {
      var k, l :| k in keys && l in keys && (l == k + SUFFIX || Above(k, l) || Above(k + SUFFIX, l));
      hide ValidKey, FilesAfter, Accepts, ReplyOf, Above;
      var events := [Event(l, [], NO_METADATA, |Creations(map[], l, [], NO_METADATA)|)];
      PathBlocks(k, l);
      assert KeysIn(events, keys);
      assert CanHold(FilesAfter(events, |events|), k, []) && !Accepts(FilesAfter(events, |events|), k, [], NO_METADATA);
    }
  }

  /** The files after one uninterrupted Put of no bytes into an empty store. */
  lemma AfterFirstPut(key: string, path: string)
    requires ValidKey(key)
    ensures var events := [Event(key, [], NO_METADATA, |Creations(map[], key, [], NO_METADATA)|)];
            var files := FilesAfter(events, 1);
            && files == AfterPut(map[], key, [], NO_METADATA, |Creations(map[], key, [], NO_METADATA)|)
            && (path in files <==> path == key || path == key + SUFFIX || Above(path, key))
            && (path == key ==> files[path] == Object([])) && (Above(path, key) ==> files[path].Folder?)
  {
    var empty: Files := map[];
    var n := |Creations(empty, key, [], NO_METADATA)|;
    var events := [Event(key, [], NO_METADATA, n)];
    assert FilesAfter(events, 0) == empty && FilesAfter(events, 1) == AfterPut(empty, key, [], NO_METADATA, n);
    hide ValidKey, AfterPut, FilesAfter;
    EmptyIsSound({key});
    PutCompletes(empty, key, [], NO_METADATA, n);
    PutKeepsRooted(empty, key, [], NO_METADATA, n);
    PutEffect(empty, key, [], NO_METADATA, n, path);
    PutEffect(empty, key, [], NO_METADATA, n, key);
    if Above(path, key) {
      assert path == key[..|path|] && key[|path|] == '/';
    }
    assert |key| < |key + SUFFIX|;
  }

  /** An object at a key's metadata path, below the key, or below its metadata path makes the key unusable. */
  lemma PathBlocks(key: string, other: string)
    requires ValidKey(other) && (other == key + SUFFIX || Above(key, other) || Above(key + SUFFIX, other))
    ensures var events := [Event(other, [], NO_METADATA, |Creations(map[], other, [], NO_METADATA)|)];
            var files := FilesAfter(events, 1);
            && (key in files ==> files[key].Folder?)
            && forall data, metadata :: !Accepts(files, key, data, metadata)
  {
    hide FilesAfter, ValidKey, Blocked, Creations, AfterPut;
    var files := FilesAfter([Event(other, [], NO_METADATA, |Creations(map[], other, [], NO_METADATA)|)], 1);
    AfterFirstPut(other, key);
    AfterFirstPut(other, key + SUFFIX);
    NeverBoth(key, other);
  }

  lemma NeverBoth(key: string, other: string)
    requires other == key + SUFFIX || Above(key, other) || Above(key + SUFFIX, other)
    ensures key != other && key != other + SUFFIX
    ensures other == key + SUFFIX || Above(key + SUFFIX, other) ==> !Above(key, other)
    ensures Above(key, other) ==> key + SUFFIX != other && key + SUFFIX != other + SUFFIX && !Above(key + SUFFIX, other)
  {
    assert (key + SUFFIX)[|key|] == '.';
    assert |key + SUFFIX| > |key|;
    if Above(key + SUFFIX, other) {
      assert other[|key|] == (key + SUFFIX)[|key|];
    }
    if key + SUFFIX == other + SUFFIX {
      SuffixCancels(key, other);
    }
  }

  lemma SegmentWithSuffix(key: string, i: nat, j: nat)
    requires ValidKey(key) && i <= j <= |key + SUFFIX| && IsSegment(key + SUFFIX, i, j)
    ensures (key + SUFFIX)[i..j] !in ["", ".", ".."]
  {
    var full := key + SUFFIX;
    if j < |key| {
      assert full[i..j] == key[i..j] && IsSegment(key, i, j);
    } else {
      if j < |full| {
        NoSlashInSuffix(key, j);
      }
      if i > |key| {
        NoSlashInSuffix(key, i - 1);
      }
    }
  }

  lemma SuffixStaysValid(key: string)
    requires ValidKey(key)
    ensures ValidKey(key + SUFFIX)
  {
    forall i, j | 0 <= i <= j <= |key + SUFFIX| && IsSegment(key + SUFFIX, i, j) ensures (key + SUFFIX)[i..j] !in ["", ".", ".."] {
      SegmentWithSuffix(key, i, j);
    }
    assert '\0' !in SUFFIX;
  }

  /** An object stored at a key's metadata path makes that key unusable. */
  lemma SuffixBlocks(key: string)
    requires ValidKey(key)
    ensures var events := [Event(key + SUFFIX, [], NO_METADATA, |Creations(map[], key + SUFFIX, [], NO_METADATA)|)];
            !Separate({key, key + SUFFIX}) && forall data, metadata :: !Accepts(FilesAfter(events, 1), key, data, metadata)
  {
    SuffixStaysValid(key);
    hide ValidKey, FilesAfter, Accepts;
    PathBlocks(key, key + SUFFIX);
  }

  lemma ShortKeysValid()
    ensures ValidKey("a") && ValidKey("a/b")
  {
    var key := "a/b";
    assert key[0] == 'a' && key[1] == '/' && key[2] == 'b';
    assert key[0..3][1] == '/' && key[0..1][0] == 'a' && key[2..3][0] == 'b';
    forall i, j | 0 <= i <= j <= |key| && IsSegment(key, i, j) ensures key[i..j] !in ["", ".", ".."] {
      assert (i == 0 && j == 1) || (i == 2 && j == 3);
    }
    assert "a"[0..1][0] == 'a';
  }

  /** "a" and "a/b" exclude each other, in both orders: one needs a file where the other needs a directory. */
  lemma NestedKeysBlock()
    ensures ValidKey("a") && ValidKey("a/b") && !PutsRecover({"a", "a/b"})
    ensures var first := [Event("a/b", [], NO_METADATA, |Creations(map[], "a/b", [], NO_METADATA)|)];
            forall data, metadata :: !Accepts(FilesAfter(first, 1), "a", data, metadata)
    ensures var first := [Event("a", [], NO_METADATA, |Creations(map[], "a", [], NO_METADATA)|)];
            forall data, metadata :: !Accepts(FilesAfter(first, 1), "a/b", data, metadata)
  {
    assert Above("a", "a/b");
    ShortKeysValid();
    AfterFirstPut("a", "a");
    hide ValidKey, Accepts, FilesAfter, AfterPut, Creations;
    PathBlocks("a", "a/b");
    RecoveryIffSeparate({"a", "a/b"});
    var files := FilesAfter([Event("a", [], NO_METADATA, |Creations(map[], "a", [], NO_METADATA)|)], 1);
    FileBlocksBelow(files, "a", "b");
  }

  /** A stored file keeps everything below its path out. */
  lemma FileBlocksBelow(files: Files, key: string, rest: string)
    requires key in files && !files[key].Folder?
    ensures forall data, metadata :: !Accepts(files, key + "/" + rest, data, metadata)
  {
    var below := key + "/" + rest;
    assert below[..|key|] == key && below[|key|] == '/';
    assert Blocked(files, below);
    hide ValidKey, Blocked;
  }
}
