/**
 The publication protocol over a real directory: one method call per file
 operation, any of which may fail, with the history of every state the disk
 passed through. A crash leaves one of those states behind.
 */
module PartitionStore {
  import opened Wrappers
  import opened Manifests
  import opened Publication

  datatype PublishError = IoFailure | PartConflict | InvalidManifest

  /** The rows whose key is not committed yet, in order. */
  function Delta<T>(d: Dataset<T>, existing: seq<T>, rows: seq<T>): seq<T>
  {
    if rows == [] then []
    else
      var front, row := Delta(d, existing, rows[..|rows| - 1]), rows[|rows| - 1];
      if d.key(row) in KeysOf(d, existing) then front else front + [row]
  }

  /** Visible(state) is stage at[i] of this publication, for every new state i, and stages never go back. */
  ghost predicate Follows<T>(states: seq<Directory<T>>, from: nat, at: seq<nat>, dir: Directory<T>, delta: seq<T>, next: Manifest<T>)
  {
    && from <= |states| == from + |at|
    && (forall i :: 0 <= i < |at| ==> at[i] <= 2 && Visible(states[from + i]) == Stage(dir, delta, next, at[i]))
    && (forall i, j :: 0 <= i < j < |at| ==> at[i] <= at[j])
  }

  /** States that look alike to a reader stay at one stage. */
  lemma FollowsStep<T>(states: seq<Directory<T>>, from: nat, at: seq<nat>, dir: Directory<T>, delta: seq<T>, next: Manifest<T>, more: seq<Directory<T>>, k: nat)
    requires Follows(states, from, at, dir, delta, next)
    requires k <= 2 && forall i :: 0 <= i < |more| ==> Visible(more[i]) == Stage(dir, delta, next, k)
    requires at == [] || at[|at| - 1] <= k
    ensures Follows(states + more, from, at + seq(|more|, i => k), dir, delta, next)
  {
    var t, a := states + more, at + seq(|more|, i => k);
    forall i | 0 <= i < |a|
      ensures a[i] <= 2 && Visible(t[from + i]) == Stage(dir, delta, next, a[i])
    {
      if i < |at| {
        assert t[from + i] == states[from + i];
      } else {
        assert t[from + i] == more[i - |at|];
      }
    }
  }

  /** An identical part already in place is as good as the rename. */
  lemma ReusedPart<T>(files: Directory<T>, dir: Directory<T>, delta: seq<T>, next: Manifest<T>)
    requires Visible(files) == Visible(dir) && PartFor(delta).path in files && files[PartFor(delta).path] == RowData(delta)
    ensures Visible(files) == Stage(dir, delta, next, 1)
  {
    assert Visible(files)[PartFor(delta).path] == RowData(delta);
  }

  lemma FollowsOn<T>(states: seq<Directory<T>>, mid: nat, from: nat, front: seq<nat>, back: seq<nat>, dir: Directory<T>, delta: seq<T>, next: Manifest<T>)
    requires mid <= |states| && Follows(states[..mid], from, front, dir, delta, next)
    requires Follows(states, mid, back, dir, delta, next)
    requires (forall i :: 0 <= i < |front| ==> front[i] <= 1) && (forall i :: 0 <= i < |back| ==> back[i] >= 1)
    ensures Follows(states, from, front + back, dir, delta, next)
  {
    var a := front + back;
    forall i | 0 <= i < |a|
      ensures a[i] <= 2 && Visible(states[from + i]) == Stage(dir, delta, next, a[i])
    {
      if i < |front| {
        assert states[from + i] == states[..mid][from + i];
      } else {
        assert states[from + i] == states[mid + (i - |front|)];
      }
    }
  }

  class Store<T(==, !new)> {
    var files: Directory<T>
    var serials: nat
    ghost var states: seq<Directory<T>>

    ghost predicate Valid()
      reads this
    {
      && states != [] && states[|states| - 1] == files
      && (forall n: nat :: TempFile(n) in files ==> n < serials)
    }

    constructor ()
      ensures Valid() && files == map[]
    {
      files, serials, states := map[], 0, [map[]];
    }

    /** os.CreateTemp: an empty file under an unused name. */
    method CreateTemp() returns (ok: bool, serial: nat)
      requires Valid()
      modifies this
      ensures Valid() && Visible(files) == Visible(old(files))
      ensures states == old(states) + [files]
      ensures ok ==> TempFile(serial) in files
    {
      serial := serials;
      ok := *;
      if ok {
        files, serials := files[TempFile(serial) := Incomplete], serials + 1;
      }
      states := states + [files];
    }

    /** Fills a temporary file; a failed write may leave it incomplete. */
    method WriteTemp(serial: nat, data: FileData<T>) returns (ok: bool)
      requires Valid() && TempFile(serial) in files
      modifies this
      ensures Valid() && Visible(files) == Visible(old(files))
      ensures states == old(states) + [files]
      ensures TempFile(serial) in files && (ok ==> files[TempFile(serial)] == data)
    {
      ok := *;
      files := files[TempFile(serial) := if ok then data else Incomplete];
      states := states + [files];
    }

    /** os.Rename of a temporary file: all or nothing. */
    method RenameTemp(serial: nat, target: FileName<T>) returns (ok: bool)
      requires Valid() && TempFile(serial) in files && !target.TempFile?
      modifies this
      ensures Valid()
      ensures Visible(files) == if ok then Visible(old(files))[target := old(files)[TempFile(serial)]] else Visible(old(files))
      ensures !ok ==> files == old(files)
      ensures states == old(states) + [files]
    {
      ok := *;
      if ok {
        files := (files - {TempFile(serial)})[target := files[TempFile(serial)]];
      }
      states := states + [files];
    }

    method RemoveTemp(serial: nat)
      requires Valid()
      modifies this
      ensures Valid() && Visible(files) == Visible(old(files))
      ensures states == old(states) + [files]
    {
      files := files - {TempFile(serial)};
      states := states + [files];
    }

    /** fsync: no visible effect, but it may report a failure. */
    method Sync() returns (ok: bool)
    {
      ok := *;
    }

    /** A complete, synced temporary file, or none at all; a reader notices nothing. */
    method StageTemp(data: FileData<T>) returns (ok: bool, tmp: nat)
      requires Valid()
      modifies this
      ensures Valid() && old(states) <= states
      ensures Visible(files) == Visible(old(files))
      ensures forall i :: |old(states)| <= i < |states| ==> Visible(states[i]) == Visible(old(files))
      ensures ok ==> TempFile(tmp) in files && files[TempFile(tmp)] == data
    {
      ok, tmp := CreateTemp();
      if ok {
        ok := WriteTemp(tmp, data);
        if ok {
          ok := Sync();
        }
        if !ok {
          RemoveTemp(tmp);
        }
      }
    }

    /** Renames a temporary file into place, or removes it. */
    method Settle(tmp: nat, target: FileName<T>) returns (ok: bool)
      requires Valid() && TempFile(tmp) in files && !target.TempFile?
      modifies this
      ensures Valid()
      ensures Visible(files) == if ok then Visible(old(files))[target := old(files)[TempFile(tmp)]] else Visible(old(files))
      ensures ok ==> states == old(states) + [files]
      ensures !ok ==> exists s :: states == old(states) + [s, files] && Visible(s) == Visible(old(files))
    {
      ok := RenameTemp(tmp, target);
      if !ok {
        ghost var s := files;
        RemoveTemp(tmp);
        assert states == old(states) + [s, files];
      }
    }

    /** Writes the delta as a content-named part; an identical part left by an earlier attempt is reused. */
    method WritePart(rows: seq<T>, ghost next: Manifest<T>) returns (r: Result<ManifestPart<T>, PublishError>, ghost at: seq<nat>)
      requires Valid()
      modifies this
      ensures Valid()
      ensures Follows(states, |old(states)|, at, old(files), rows, next) && old(states) <= states
      ensures forall i :: 0 <= i < |at| ==> at[i] <= 1
      ensures r.Ok? ==> r.value == PartFor(rows) && Visible(files) == Stage(old(files), rows, next, 1)
      ensures r.Err? ==> r.error != InvalidManifest
    {
      ghost var from, was := |states|, states;
      var part := PartFor(rows);
      var ok, tmp := StageTemp(RowData(rows));
      ghost var quiet := states[from..];
      assert states == was + quiet;
      FollowsStep(was, from, [], old(files), rows, next, quiet, 0);
      at := [] + seq(|quiet|, i => 0);
      if !ok {
        return Err(IoFailure), at;
      }
      if part.path in files {
        r, at := ReusePart(tmp, rows, old(files), next, at, from);
      } else {
        r, at := PlacePart(tmp, rows, old(files), next, at, from);
      }
    }

    /** The part's name is taken: its file must hold the same rows, and the temporary file goes. */
    method ReusePart(tmp: nat, rows: seq<T>, ghost dir: Directory<T>, ghost next: Manifest<T>, ghost before: seq<nat>, ghost from: nat)
      returns (r: Result<ManifestPart<T>, PublishError>, ghost at: seq<nat>)
      requires Valid() && PartFor(rows).path in files
      requires Visible(files) == Stage(dir, rows, next, 0) && Follows(states, from, before, dir, rows, next)
      requires forall i :: 0 <= i < |before| ==> before[i] == 0
      modifies this
      ensures Valid()
      ensures Follows(states, from, at, dir, rows, next) && old(states) <= states
      ensures forall i :: 0 <= i < |at| ==> at[i] <= 1
      ensures r.Ok? ==> r.value == PartFor(rows) && Visible(files) == Stage(dir, rows, next, 1)
      ensures r.Err? ==> r.error != InvalidManifest
    {
      var part := PartFor(rows);
      var same := files[part.path] == RowData(rows);
      ghost var k: nat := if same then 1 else 0;
      if same {
        ReusedPart(files, dir, rows, next);
      }
      RemoveTemp(tmp);
      var ok := Sync();
      FollowsStep(old(states), from, before, dir, rows, next, [files], k);
      at := before + seq(1, i => k);
      return if !same then Err(PartConflict) else if ok then Ok(part) else Err(IoFailure), at;
    }

    /** The part's name is free: the temporary file becomes the part. */
    method PlacePart(tmp: nat, rows: seq<T>, ghost dir: Directory<T>, ghost next: Manifest<T>, ghost before: seq<nat>, ghost from: nat)
      returns (r: Result<ManifestPart<T>, PublishError>, ghost at: seq<nat>)
      requires Valid() && TempFile(tmp) in files && files[TempFile(tmp)] == RowData(rows)
      requires Visible(files) == Stage(dir, rows, next, 0) && Follows(states, from, before, dir, rows, next)
      requires forall i :: 0 <= i < |before| ==> before[i] == 0
      modifies this
      ensures Valid()
      ensures Follows(states, from, at, dir, rows, next) && old(states) <= states
      ensures forall i :: 0 <= i < |at| ==> at[i] <= 1
      ensures r.Ok? ==> r.value == PartFor(rows) && Visible(files) == Stage(dir, rows, next, 1)
      ensures r.Err? ==> r.error != InvalidManifest
    {
      var part := PartFor(rows);
      var ok := Settle(tmp, part.path);
      ghost var last := states[|old(states)|..];
      assert states == old(states) + last;
      ghost var k: nat := if ok then 1 else 0;
      FollowsStep(old(states), from, before, dir, rows, next, last, k);
      at := before + seq(|last|, i => k);
      if ok {
        var fileOk := Sync();
        var dirOk := Sync();
        ok := fileOk && dirOk;
      }
      return if ok then Ok(part) else Err(IoFailure), at;
    }

    /** Commits a manifest by renaming it into place. */
    method WriteManifest(m: Manifest<T>, ghost dir: Directory<T>, ghost delta: seq<T>) returns (r: Result<(), PublishError>, ghost at: seq<nat>)
      requires Valid() && Visible(files) == Stage(dir, delta, m, 1)
      modifies this
      ensures Valid()
      ensures Follows(states, |old(states)|, at, dir, delta, m) && old(states) <= states
      ensures forall i :: 0 <= i < |at| ==> at[i] >= 1
      ensures r.Ok? ==> Visible(files) == Stage(dir, delta, m, 2)
      ensures r.Err? ==> r.error != InvalidManifest
    {
      ghost var from, was := |states|, states;
      var ok, tmp := StageTemp(ManifestData(m));
      ghost var quiet := states[from..];
      assert states == was + quiet;
      FollowsStep(was, from, [], dir, delta, m, quiet, 1);
      at := [] + seq(|quiet|, i => 1);
      if !ok {
        return Err(IoFailure), at;
      }
      was := states;
      ok := Settle(tmp, ManifestFile);
      ghost var last := states[|was|..];
      assert states == was + last;
      FollowsStep(was, from, at, dir, delta, m, last, if ok then 2 else 1);
      at := at + seq(|last|, i => if ok then 2 else 1);
      if ok {
        ok := Sync();
      }
      return if ok then Ok(()) else Err(IoFailure), at;
    }

    /** The two renames, with the manifest re-read, extended and validated between them. */
    method Commit(d: Dataset<T>, identity: Identity, ghost existing: seq<T>, delta: seq<T>, total: nat, lineage: Lineage, gitCommit: string)
      returns (r: Result<nat, PublishError>, ghost at: seq<nat>)
      requires Valid() && ValidGitCommit(gitCommit) && ValidLineage(lineage, identity)
      requires ReadCommitted(d, files, identity) == Ok(existing)
      requires Appendable(d, existing, delta) && |existing + delta| == total
      modifies this
      ensures Valid() && old(states) <= states
      ensures var next := NextManifest(old(files), identity, delta, total, lineage, gitCommit);
              && Follows(states, |old(states)|, at, old(files), delta, next)
              && (r.Ok? ==> r.value == |delta| && Visible(files) == Stage(old(files), delta, next, 2))
      ensures r != Err(InvalidManifest)
    {
      ghost var before, from := files, |states|;
      ghost var next := NextManifest(before, identity, delta, total, lineage, gitCommit);
      NextManifestValid(d, before, identity, delta, lineage, gitCommit);
      var part;
      part, at := WritePart(delta, next);
      if part.Err? {
        return Err(part.error), at;
      }
      PartsSurvive(before, files, delta, next);
      var manifest := Manifest(MANIFEST_VERSION, SCHEMA_VERSION, lineage.normalizerVersion, gitCommit,
                               lineage.source, lineage.dataSourceId, lineage.ingestionRunId,
                               identity, total, PreviousParts(files) + [part.value]);
      assert manifest == next;
      var valid := ValidateManifest(manifest);
      if !valid {
        return Err(InvalidManifest), at;
      }
      ghost var mid := states;
      var committed;
      ghost var more;
      committed, more := WriteManifest(manifest, before, delta);
      assert states[..|mid|] == mid;
      FollowsOn(states, |mid|, from, at, more, before, delta, next);
      return if committed.Ok? then Ok(|delta|) else Err(committed.error), at + more;
    }

    /**
     Appends the rows not yet committed. Every state the disk passes through,
     whether the call succeeds, fails or is cut short, shows the reader one of the
     three stages, in order; the manifest check inside never fails.
     */
    method Publish(d: Dataset<T>, identity: Identity, existing: seq<T>, rows: seq<T>, lineage: Lineage, gitCommit: string)
      returns (r: Result<nat, PublishError>, ghost at: seq<nat>)
      requires Valid() && ValidGitCommit(gitCommit)
      requires ReadCommitted(d, files, identity) == Ok(existing)
      requires var delta := Delta(d, existing, rows);
               delta != [] ==> Appendable(d, existing, delta) && |existing + delta| == |rows| && ValidLineage(lineage, identity)
      modifies this
      ensures Valid() && old(states) <= states
      ensures var delta := Delta(d, existing, rows);
              var next := NextManifest(old(files), identity, delta, |rows|, lineage, gitCommit);
              && Follows(states, |old(states)|, at, old(files), delta, next)
              && (r.Ok? ==> r.value == |delta|)
              && (r.Ok? && delta != [] ==> Visible(files) == Stage(old(files), delta, next, 2))
              && (delta == [] ==> r.Ok? && files == old(files))
      ensures r != Err(InvalidManifest)
    {
      var delta := ComputeDelta(d, existing, rows);
      if delta == [] {
        return Ok(0), [];
      }
      r, at := Commit(d, identity, existing, delta, |rows|, lineage, gitCommit);
    }
  }

  /** Writing the part leaves the list of committed parts as it was. */
  lemma PartsSurvive<T>(before: Directory<T>, after: Directory<T>, delta: seq<T>, next: Manifest<T>)
    requires Visible(after) == Stage(before, delta, next, 1)
    ensures PreviousParts(after) == PreviousParts(before)
  {
    assert PreviousParts(after) == PreviousParts(Visible(after));
    assert PreviousParts(before) == PreviousParts(Visible(before));
  }

  /** The key set and the filtering loop. */
  method ComputeDelta<T>(d: Dataset<T>, existing: seq<T>, rows: seq<T>) returns (delta: seq<T>)
    ensures delta == Delta(d, existing, rows)
  {
    var existingKeys: set<string> := {};
    for i := 0 to |existing|
      invariant existingKeys == KeysOf(d, existing[..i])
    {
      existingKeys := existingKeys + {d.key(existing[i])};
    }
    assert existing[..|existing|] == existing;
    delta := [];
    for i := 0 to |rows|
      invariant delta == Delta(d, existing, rows[..i])
    {
      assert rows[..i + 1][..i] == rows[..i];
      if d.key(rows[i]) !in existingKeys {
        delta := delta + [rows[i]];
      }
    }
    assert rows[..|rows|] == rows;
  }
}
