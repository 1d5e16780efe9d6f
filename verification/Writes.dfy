/**
 One write to a partition, from reading the committed rows to the last rename,
 and any history of such writes, each completed, failed or cut short.
 */
module Writes {
  import opened Wrappers
  import opened Manifests
  import opened Publication
  import opened PartitionStore
  import opened Admission
  import opened Sorting

  datatype WriteError = Unreadable | NaturalKeyConflict(key: string) | MixedLineage | PublishFailed(cause: PublishError)

  /** The publication metadata all rows of a call must share. */
  function CommonLineage<T>(d: Dataset<T>, incoming: seq<T>): Option<Lineage>
  {
    if incoming == [] then None
    else
      var want := d.lineage(incoming[0]);
      if want.source == "" || want.dataSourceId == "" || want.ingestionRunId == "" || want.normalizerVersion == "" then None
      else if forall i :: 0 <= i < |incoming| ==> d.lineage(incoming[i]) == want then Some(want)
      else None
  }

  datatype Plan<T> = Plan(rows: seq<T>, accepted: seq<T>, conflicts: seq<string>)

  /** What a write decides before it touches the disk. */
  function PlanWrite<T(==)>(d: Dataset<T>, same: (T, T) -> bool, existing: seq<T>, incoming: seq<T>, quarantine: bool): Result<Plan<T>, WriteError>
  {
    var a := Admit(d, same, Index(d, existing), incoming);
    var rows := SortByKey(d, existing + a.accepted);
    if a.conflicts != [] && !quarantine then Err(NaturalKeyConflict(a.conflicts[0]))
    else if CommonLineage(d, incoming).None? && existing != rows then Err(MixedLineage)
    else Ok(Plan(rows, a.accepted, a.conflicts))
  }

  /** What every builder guarantees of its rows: nothing left to repair, and a lineage that fits the partition. */
  ghost predicate Writable<T>(d: Dataset<T>, identity: Identity, row: T)
  {
    d.repair(row) == row && ValidLineage(d.lineage(row), identity)
  }

  ghost predicate AllWritable<T>(d: Dataset<T>, identity: Identity, rows: seq<T>)
  {
    forall i :: 0 <= i < |rows| ==> Writable(d, identity, rows[i])
  }

  /** A row the reader of this partition will accept as it was written. */
  ghost predicate Admissible<T>(d: Dataset<T>, identity: Identity, row: T)
  {
    Readable(d, row) && Writable(d, identity, row)
  }

  /** Strict mode fails with a conflict exactly when quarantine mode reports one, and otherwise agrees with it. */
  lemma StrictAgreesWithQuarantine<T>(d: Dataset<T>, same: (T, T) -> bool, existing: seq<T>, incoming: seq<T>)
    ensures var strict, lenient := PlanWrite(d, same, existing, incoming, false), PlanWrite(d, same, existing, incoming, true);
            var conflicts := Admit(d, same, Index(d, existing), incoming).conflicts;
            && (strict.Err? && strict.error.NaturalKeyConflict? <==> conflicts != [])
            && (lenient.Ok? ==> lenient.value.conflicts == conflicts)
            && (conflicts == [] ==> strict == lenient)
  {
  }

  lemma AcceptedAppendable<T(!new)>(d: Dataset<T>, same: (T, T) -> bool, identity: Identity, existing: seq<T>, incoming: seq<T>)
    requires DistinctKeys(d, existing) && AllWritable(d, identity, incoming)
    requires |existing| + |incoming| <= MAX_INT
    ensures var accepted := Admit(d, same, Index(d, existing), incoming).accepted;
            var rows := SortByKey(d, existing + accepted);
            var delta := Delta(d, existing, rows);
            && multiset(delta) == multiset(accepted) && |existing + delta| == |rows|
            && (delta != [] ==> incoming != [] && Appendable(d, existing, delta))
  {
    hide Admit, Index, SortByKey, Delta;
    var accepted := Admit(d, same, Index(d, existing), incoming).accepted;
    var delta := Delta(d, existing, SortByKey(d, existing + accepted));
    AcceptedRows(d, same, existing, incoming);
    AcceptedFromInput(d, same, Index(d, existing), incoming);
    DeltaIsAccepted(d, existing, accepted);
    SameMembers(delta, accepted);
    assert multiset(existing + delta) == multiset(existing + accepted);
    DistinctKeysPermute(d, existing + accepted, existing + delta);
    forall i | 0 <= i < |delta| ensures d.repair(delta[i]) == delta[i] {
      assert delta[i] in incoming;
    }
    if delta != [] {
      assert delta[0] in incoming;
    }
  }

  /** What is appended: the accepted rows, all of them new, once each. */
  lemma PlanAppends<T(!new)>(d: Dataset<T>, same: (T, T) -> bool, identity: Identity, existing: seq<T>, incoming: seq<T>, quarantine: bool)
    requires DistinctKeys(d, existing) && AllWritable(d, identity, incoming)
    requires |existing| + |incoming| <= MAX_INT
    requires PlanWrite(d, same, existing, incoming, quarantine).Ok?
    ensures var plan := PlanWrite(d, same, existing, incoming, quarantine).value;
            var delta := Delta(d, existing, plan.rows);
            && multiset(delta) == multiset(plan.accepted)
            && (delta != [] ==>
                  && Appendable(d, existing, delta) && |existing + delta| == |plan.rows|
                  && CommonLineage(d, incoming).Some? && ValidLineage(CommonLineage(d, incoming).value, identity))
  {
    var plan := PlanWrite(d, same, existing, incoming, quarantine).value;
    AcceptedAppendable(d, same, identity, existing, incoming);
    if Delta(d, existing, plan.rows) != [] {
      assert Writable(d, identity, incoming[0]);
      assert |existing| < |plan.rows|;
    }
  }

  lemma {:induction false} GatheredRowsReadable<T>(d: Dataset<T>, dir: Directory<T>, parts: seq<ManifestPart<T>>)
    requires Gather(d, dir, parts).Some?
    ensures forall i :: 0 <= i < |Gather(d, dir, parts).value| ==> Readable(d, Gather(d, dir, parts).value[i])
    decreases |parts|
  {
    if parts != [] {
      GatheredRowsReadable(d, dir, parts[..|parts| - 1]);
    }
  }

  /**
   How a write may end: unreadable or refused with nothing changed; otherwise the
   new states follow the three stages of appending the accepted rows, and success
   means the last stage was reached.
   */
  ghost predicate WriteOutcome<T>(d: Dataset<T>, same: (T, T) -> bool, identity: Identity, before: Directory<T>, after: Directory<T>,
                                  states: seq<Directory<T>>, from: nat, at: seq<nat>,
                                  incoming: seq<T>, quarantine: bool, gitCommit: string, r: Result<Plan<T>, WriteError>)
  {
    match ReadCommitted(d, before, identity)
    case Err(_) => r == Err(Unreadable) && after == before
    case Ok(existing) =>
      match PlanWrite(d, same, existing, incoming, quarantine)
      case Err(e) => r == Err(e) && after == before
      case Ok(plan) =>
        var delta := Delta(d, existing, plan.rows);
        && (r.Ok? ==> r.value == plan)
        && (r.Err? ==> r.error.PublishFailed? && delta != [])
        && (delta == [] ==> after == before)
        && (delta != [] ==>
              CommonLineage(d, incoming).Some? &&
              var next := NextManifest(before, identity, delta, |plan.rows|, CommonLineage(d, incoming).value, gitCommit);
              && Follows(states, from, at, before, delta, next)
              && (r.Ok? ==> Visible(after) == Stage(before, delta, next, 2)))
  }

  /** A write that succeeds returns its plan. */
  lemma OutcomeIsPlan<T>(d: Dataset<T>, same: (T, T) -> bool, identity: Identity, before: Directory<T>, after: Directory<T>,
                         states: seq<Directory<T>>, from: nat, at: seq<nat>,
                         incoming: seq<T>, quarantine: bool, gitCommit: string, r: Result<Plan<T>, WriteError>)
    requires WriteOutcome(d, same, identity, before, after, states, from, at, incoming, quarantine, gitCommit, r) && r.Ok?
    ensures ReadCommitted(d, before, identity).Ok?
    ensures r == PlanWrite(d, same, ReadCommitted(d, before, identity).value, incoming, quarantine)
  {
  }

  /** A whole write over a real directory. */
  method WriteRows<T(==, !new)>(store: Store<T>, d: Dataset<T>, same: (T, T) -> bool, identity: Identity, incoming: seq<T>, quarantine: bool, gitCommit: string)
    returns (r: Result<Plan<T>, WriteError>, ghost at: seq<nat>)
    requires store.Valid() && ValidGitCommit(gitCommit) && AllWritable(d, identity, incoming)
    requires ReadCommitted(d, store.files, identity).Ok? ==> |ReadCommitted(d, store.files, identity).value| + |incoming| <= MAX_INT
    modifies store
    ensures store.Valid() && old(store.states) <= store.states
    ensures WriteOutcome(d, same, identity, old(store.files), store.files, store.states, |old(store.states)|, at, incoming, quarantine, gitCommit, r)
  {
    hide ReadCommitted, DistinctKeys, Admit, SortByKey, Index, Delta, Writable, AllWritable, CommonLineage,
         Follows, Stage, NextManifest, ValidGitCommit, ValidLineage, Appendable, Visible;
    at := [];
    ReadingDistinct(Target(d, same, identity), store.files);
    var existing := ReadPartition(d, store.files, identity);
    if existing.Err? {
      return Err(Unreadable), at;
    }
    var rows, accepted, conflicts := AdmitRows(d, same, existing.value, incoming);
    if conflicts != [] && !quarantine {
      return Err(NaturalKeyConflict(conflicts[0])), at;
    }
    var lineage := CommonLineage(d, incoming);
    if lineage.None? && existing.value != rows {
      return Err(MixedLineage), at;
    }
    PlanAppends(d, same, identity, existing.value, incoming, quarantine);
    var published;
    published, at := store.Publish(d, identity, existing.value, rows,
                                   if lineage.Some? then lineage.value else Lineage("", "", "", ""), gitCommit);
    return if published.Ok? then Ok(Plan(rows, accepted, conflicts)) else Err(PublishFailed(published.error)), at;
  }

  // ---------- histories of writes ----------

  /** One partition as its writer sees it. */
  datatype Target<!T> = Target(d: Dataset<T>, same: (T, T) -> bool, identity: Identity)
  {
    ghost function Read(dir: Directory<T>): Result<seq<T>, ReadError>
    {
      ReadCommitted(d, dir, identity)
    }
  }

  /** One call: its rows, its mode, and the last stage the disk reached before the call ended or the process died. */
  datatype Attempt<T> = Attempt(incoming: seq<T>, quarantine: bool, gitCommit: string, reached: nat)

  ghost predicate ValidAttempt<T>(t: Target<T>, dir: Directory<T>, a: Attempt<T>)
  {
    && a.reached <= 2 && ValidGitCommit(a.gitCommit) && AllWritable(t.d, t.identity, a.incoming)
    && (t.Read(dir).Ok? ==> |t.Read(dir).value| + |a.incoming| <= MAX_INT)
  }

  /** The rows an attempt would append to this directory; none when it fails before writing. */
  ghost function Appends<T>(t: Target<T>, dir: Directory<T>, a: Attempt<T>): seq<T>
  {
    match t.Read(dir)
    case Err(_) => []
    case Ok(existing) =>
      match PlanWrite(t.d, t.same, existing, a.incoming, a.quarantine)
      case Err(_) => []
      case Ok(plan) => Delta(t.d, existing, plan.rows)
  }

  /** The directory an attempt leaves behind, temporary files aside. */
  ghost function After<T>(t: Target<T>, dir: Directory<T>, a: Attempt<T>): Directory<T>
  {
    var delta, lineage := Appends(t, dir, a), CommonLineage(t.d, a.incoming);
    if delta == [] || lineage.None? || a.reached > 2 then Visible(dir)
    else
      var total := |t.Read(dir).value + delta|;
      Stage(dir, delta, NextManifest(dir, t.identity, delta, total, lineage.value, a.gitCommit), a.reached)
  }

  /** The only gap in the protocol: the very first publication stopped between its two renames. */
  ghost predicate FirstWriteCut<T>(t: Target<T>, dir: Directory<T>, a: Attempt<T>)
  {
    a.reached == 1 && ManifestFile !in dir && Appends(t, dir, a) != []
  }

  ghost predicate PartsTrue<T>(dir: Directory<T>)
  {
    forall name :: name in dir && name.PartFile? ==> dir[name] == RowData(name.hash.content)
  }

  /** The attempt commits a row that the reader rejects. */
  ghost predicate CommitsUnreadable<T>(t: Target<T>, dir: Directory<T>, a: Attempt<T>)
  {
    a.reached == 2 && !AllReadable(t.d, Appends(t, dir, a))
  }

  lemma VisiblePartsTrue<T>(t: Target<T>, dir: Directory<T>)
    requires PartsTrue(dir)
    ensures PartsTrue(Visible(dir)) && t.Read(Visible(dir)) == t.Read(dir)
  {
    ReadIgnoresTemporaries(t.d, dir, t.identity);
  }

  lemma StagePartsTrue<T>(dir: Directory<T>, delta: seq<T>, next: Manifest<T>, k: nat)
    requires PartsTrue(dir) && k <= 2
    ensures PartsTrue(Stage(dir, delta, next, k))
  {
  }

  /** One attempt keeps parts true to their names; what a reader gets afterwards. */
  lemma AttemptReads<T(!new)>(t: Target<T>, dir: Directory<T>, a: Attempt<T>)
    requires PartsTrue(dir) && ValidAttempt(t, dir, a)
    ensures var before, after := t.Read(dir), After(t, dir, a);
            && PartsTrue(after)
            && t.Read(after) == (if before.Err? || FirstWriteCut(t, dir, a) || CommitsUnreadable(t, dir, a) then Err(MigrationRequired)
                                 else if a.reached == 2 then Ok(before.value + Appends(t, dir, a)) else before)
            && (before.Err? ==> after == Visible(dir))
  {
    var before, delta := t.Read(dir), Appends(t, dir, a);
    VisiblePartsTrue(t, dir);
    if delta == [] {
      assert before.Ok? ==> before.value + delta == before.value;
    } else {
      PlanAppends(t.d, t.same, t.identity, before.value, a.incoming, a.quarantine);
      var lineage := CommonLineage(t.d, a.incoming).value;
      StageReads(t.d, dir, t.identity, delta, lineage, a.gitCommit, a.reached);
      StagePartsTrue(dir, delta, NextManifest(dir, t.identity, delta, |before.value + delta|, lineage, a.gitCommit), a.reached);
    }
  }

  /** The directory after a history of attempts that started from nothing. */
  ghost function AfterAll<T>(t: Target<T>, history: seq<Attempt<T>>): Directory<T>
  {
    if history == [] then map[]
    else After(t, AfterAll(t, history[..|history| - 1]), history[|history| - 1])
  }

  ghost predicate ValidHistory<T>(t: Target<T>, history: seq<Attempt<T>>)
  {
    history == [] ||
    (ValidHistory(t, history[..|history| - 1]) &&
     ValidAttempt(t, AfterAll(t, history[..|history| - 1]), history[|history| - 1]))
  }

  /** The attempt makes the partition unreadable: a first publication stopped between its renames, or a rejected row committed. */
  ghost predicate Spoils<T>(t: Target<T>, dir: Directory<T>, a: Attempt<T>)
  {
    FirstWriteCut(t, dir, a) || CommitsUnreadable(t, dir, a)
  }

  /** Attempt k of the history spoiled the partition. */
  ghost predicate SpoiledAt<T>(t: Target<T>, history: seq<Attempt<T>>, k: nat)
  {
    k < |history| && Spoils(t, AfterAll(t, history[..k]), history[k])
  }

  lemma SpoiledPrefix<T>(t: Target<T>, history: seq<Attempt<T>>, k: nat)
    requires history != []
    ensures var n := |history| - 1;
            SpoiledAt(t, history, k) <==> if k == n then Spoils(t, AfterAll(t, history[..n]), history[n]) else SpoiledAt(t, history[..n], k)
  {
    hide Spoils, AfterAll;
    if k < |history| - 1 {
      assert history[..|history| - 1][..k] == history[..k];
    }
  }

  lemma SpoiledInside<T>(t: Target<T>, history: seq<Attempt<T>>, k: nat)
    requires SpoiledAt(t, history, k)
    ensures k < |history|
  {
  }

  /**
   Over any history the partition is unreadable exactly when some attempt was a first
   publication stopped between its renames, or committed a row that the reader rejects.
   */
  lemma {:induction false} UnreadableIffSpoiled<T(!new)>(t: Target<T>, history: seq<Attempt<T>>)
    requires ValidHistory(t, history)
    ensures PartsTrue(AfterAll(t, history))
    ensures t.Read(AfterAll(t, history)).Err? <==> exists k :: SpoiledAt(t, history, k)
    decreases |history|
  {
    if history == [] {
    } else {
      hide After, FirstWriteCut, CommitsUnreadable, PartsTrue, ValidAttempt, SpoiledAt, ReadCommitted;
      var n := |history| - 1;
      UnreadableIffSpoiled(t, history[..n]);
      AttemptReads(t, AfterAll(t, history[..n]), history[n]);
      forall k: nat ensures SpoiledAt(t, history, k) <==> if k == n then Spoils(t, AfterAll(t, history[..n]), history[n]) else SpoiledAt(t, history[..n], k) {
        SpoiledPrefix(t, history, k);
      }
      assert SpoiledAt(t, history, n) <==> Spoils(t, AfterAll(t, history[..n]), history[n]);
      if k: nat :| SpoiledAt(t, history[..n], k) {
        assert k < n by {
          SpoiledInside(t, history[..n], k);
        }
        assert SpoiledAt(t, history, k);
      }
    }
  }

  /** When every row offered can be read back, only the first-write cut is left. */
  lemma UnreadableIffCut<T(!new)>(t: Target<T>, history: seq<Attempt<T>>)
    requires ValidHistory(t, history)
    requires forall k :: 0 <= k < |history| ==> AllReadable(t.d, history[k].incoming)
    ensures t.Read(AfterAll(t, history)).Err? <==>
            exists k :: 0 <= k < |history| && FirstWriteCut(t, AfterAll(t, history[..k]), history[k])
  {
    hide AfterAll, ValidHistory, FirstWriteCut, AllReadable;
    UnreadableIffSpoiled(t, history);
    if k: nat :| SpoiledAt(t, history, k) {
      if CommitsUnreadable(t, AfterAll(t, history[..k]), history[k]) {
        AppendsFromInput(t, AfterAll(t, history[..k]), history[k]);
      }
      assert FirstWriteCut(t, AfterAll(t, history[..k]), history[k]);
    }
    if k :| 0 <= k < |history| && FirstWriteCut(t, AfterAll(t, history[..k]), history[k]) {
      assert SpoiledAt(t, history, k);
    }
  }

  lemma AppendsFromInput<T(!new)>(t: Target<T>, dir: Directory<T>, a: Attempt<T>)
    requires AllReadable(t.d, a.incoming)
    ensures AllReadable(t.d, Appends(t, dir, a))
  {
    ReadingDistinct(t, dir);
    hide ReadCommitted, Admit, Readable, DistinctKeys;
    if t.Read(dir).Ok? && PlanWrite(t.d, t.same, t.Read(dir).value, a.incoming, a.quarantine).Ok? {
      var existing := t.Read(dir).value;
      var accepted := Admit(t.d, t.same, Index(t.d, existing), a.incoming).accepted;
      AcceptedRows(t.d, t.same, existing, a.incoming);
      AcceptedFromInput(t.d, t.same, Index(t.d, existing), a.incoming);
      DeltaIsAccepted(t.d, existing, accepted);
      SameMembers(Appends(t, dir, a), accepted);
      forall i | 0 <= i < |Appends(t, dir, a)| ensures Readable(t.d, Appends(t, dir, a)[i]) {
        assert Appends(t, dir, a)[i] in a.incoming;
      }
    }
  }

  /**
   Committed rows stay in place: every later reading of a history extends every
   earlier one, keys still unique; and an unreadable partition never changes again.
   */
  lemma {:induction false} CommittedHistory<T(!new)>(t: Target<T>, history: seq<Attempt<T>>, n: nat)
    requires ValidHistory(t, history) && n <= |history|
    ensures var past, now := AfterAll(t, history[..n]), AfterAll(t, history);
            && (t.Read(now).Ok? ==> t.Read(past).Ok? && t.Read(past).value <= t.Read(now).value && DistinctKeys(t.d, t.Read(now).value))
            && (t.Read(past).Err? ==> Visible(now) == Visible(past))
    decreases |history|
  {
    hide PartsTrue, ValidAttempt, FirstWriteCut, CommitsUnreadable, ReadCommitted, After, DistinctKeys, Visible;
    UnreadableIffSpoiled(t, history);
    ReadingDistinct(t, AfterAll(t, history));
    if n == |history| {
      assert history[..n] == history;
    } else {
      var front := history[..|history| - 1];
      assert front[..n] == history[..n];
      CommittedHistory(t, front, n);
      UnreadableIffSpoiled(t, front);
      AttemptReads(t, AfterAll(t, front), history[|history| - 1]);
      VisibleTwice(AfterAll(t, front));
    }
  }

  lemma ReadingDistinct<T>(t: Target<T>, dir: Directory<T>)
    ensures t.Read(dir).Ok? ==> DistinctKeys(t.d, t.Read(dir).value)
  {
  }

  lemma VisibleTwice<T>(dir: Directory<T>)
    ensures Visible(Visible(dir)) == Visible(dir)
  {
  }

  /** A stage that a real write showed is what an attempt reaching that stage leaves behind. */
  lemma StagesAreAttempts<T(!new)>(t: Target<T>, dir: Directory<T>, a: Attempt<T>)
    requires ValidAttempt(t, dir, a) && Appends(t, dir, a) != []
    ensures CommonLineage(t.d, a.incoming).Some?
    ensures var plan := PlanWrite(t.d, t.same, t.Read(dir).value, a.incoming, a.quarantine).value;
            After(t, dir, a) ==
            Stage(dir, Appends(t, dir, a), NextManifest(dir, t.identity, Appends(t, dir, a), |plan.rows|, CommonLineage(t.d, a.incoming).value, a.gitCommit), a.reached)
  {
    ReadingDistinct(t, dir);
    hide ReadCommitted, PlanWrite, Delta, Writable, AllWritable, DistinctKeys, CommonLineage, Stage, NextManifest, ValidGitCommit, ValidLineage;
    PlanAppends(t.d, t.same, t.identity, t.Read(dir).value, a.incoming, a.quarantine);
  }

  lemma AdmitOne<T>(d: Dataset<T>, same: (T, T) -> bool, known: map<string, T>, row: T)
    ensures Admit(d, same, known, [row]) == AdmitRow(d, same, Admitted(known, [], [], 0), row)
  {
    assert [row][..|[row]| - 1] == [];
    assert Admit(d, same, known, []) == Admitted(known, [], [], 0);
  }

  lemma EmptyReads<T>(t: Target<T>)
    ensures t.Read(map[]) == Ok([]) && PartsTrue<T>(map[])
  {
  }

  /** Writing one row under a new key appends it. */
  lemma NewRowAppends<T(!new)>(t: Target<T>, dir: Directory<T>, row: T, quarantine: bool, gitCommit: string, reached: nat)
    requires Writable(t.d, t.identity, row) && ValidGitCommit(gitCommit) && reached <= 2
    requires t.Read(dir).Ok? && |t.Read(dir).value| < MAX_INT && t.d.key(row) !in KeysOf(t.d, t.Read(dir).value)
    ensures var a := Attempt([row], quarantine, gitCommit, reached);
            ValidAttempt(t, dir, a) && Appends(t, dir, a) == [row]
  {
    hide ReadCommitted, Writable, SortByKey, Delta, DistinctKeys, ValidLineage;
    var a, existing := Attempt([row], quarantine, gitCommit, reached), t.Read(dir).value;
    assert ValidAttempt(t, dir, a);
    ReadingDistinct(t, dir);
    IndexIsIndex(t.d, existing);
    AdmitOne(t.d, t.same, Index(t.d, existing), row);
    SharedLineage(t, row);
    PlanAppends(t.d, t.same, t.identity, existing, [row], quarantine);
    var delta := Appends(t, dir, a);
    assert |multiset(delta)| == |multiset([row])| == 1;
    assert delta[0] in multiset(delta) && delta[0] in multiset([row]);
  }

  lemma SharedLineage<T>(t: Target<T>, row: T)
    requires Writable(t.d, t.identity, row)
    ensures CommonLineage(t.d, [row]).Some?
  {
    assert !IsUuid("");
  }

  /** What one row, written to an empty partition as far as `reached`, leaves for a reader. */
  lemma OneRowReads<T(!new)>(t: Target<T>, row: T, gitCommit: string, reached: nat)
    requires Writable(t.d, t.identity, row) && ValidGitCommit(gitCommit) && reached <= 2
    ensures var history := [Attempt([row], false, gitCommit, reached)];
            && ValidHistory(t, history)
            && t.Read(AfterAll(t, history)) ==
               if reached == 0 then Ok([]) else if reached == 2 && Readable(t.d, row) then Ok([row]) else Err(MigrationRequired)
  {
    var a := Attempt([row], false, gitCommit, reached);
    var history, none: seq<Attempt<T>> := [a], [];
    assert history[..|history| - 1] == none;
    EmptyReads(t);
    NewRowAppends(t, map[], row, false, gitCommit, reached);
    hide ValidAttempt, Appends, After, ReadCommitted, Writable;
    assert AfterAll(t, none) == map[] && ValidHistory(t, none);
    AttemptReads(t, map[], a);
    assert [] + [row] == [row];
    assert AllReadable(t.d, [row]) <==> Readable(t.d, [row][0]);
  }

  /** The gap is real: one row, written to an empty partition and stopped between the renames, leaves it unreadable. */
  lemma FirstWriteCutHappens<T(!new)>(t: Target<T>, row: T, gitCommit: string)
    requires Writable(t.d, t.identity, row) && ValidGitCommit(gitCommit)
    ensures var history := [Attempt([row], false, gitCommit, 1)];
            ValidHistory(t, history) && t.Read(AfterAll(t, history)) == Err(MigrationRequired)
  {
    OneRowReads(t, row, gitCommit, 1);
  }

  // ---------- retries and batches ----------

  /** After the accepted rows are committed, in whatever order, the next call starts from what this one knew. */
  lemma KnownAfter<T(!new)>(d: Dataset<T>, same: (T, T) -> bool, existing: seq<T>, accepted: seq<T>, delta: seq<T>, incoming: seq<T>)
    requires DistinctKeys(d, existing) && multiset(delta) == multiset(accepted)
    requires accepted == Admit(d, same, Index(d, existing), incoming).accepted
    ensures DistinctKeys(d, existing + delta)
    ensures Index(d, existing + delta) == Admit(d, same, Index(d, existing), incoming).known
  {
    AcceptedRows(d, same, existing, incoming);
    assert multiset(existing + delta) == multiset(existing + accepted);
    DistinctKeysPermute(d, existing + accepted, existing + delta);
    IndexIsIndex(d, existing + delta);
    IndexUnique(d, Index(d, existing + delta), Admit(d, same, Index(d, existing), incoming).known, existing + delta, existing + accepted);
  }

  /** Writing the same rows again admits none of them. */
  lemma RepeatAddsNothing<T(!new)>(t: Target<T>, existing: seq<T>, incoming: seq<T>, quarantine: bool)
    requires DistinctKeys(t.d, existing) && AllWritable(t.d, t.identity, incoming)
    requires |existing| + |incoming| <= MAX_INT
    requires PlanWrite(t.d, t.same, existing, incoming, quarantine).Ok?
    ensures var delta := Delta(t.d, existing, PlanWrite(t.d, t.same, existing, incoming, quarantine).value.rows);
            DistinctKeys(t.d, existing + delta) && Admit(t.d, t.same, Index(t.d, existing + delta), incoming).accepted == []
  {
    var plan := PlanWrite(t.d, t.same, existing, incoming, quarantine).value;
    var delta := Delta(t.d, existing, plan.rows);
    PlanAppends(t.d, t.same, t.identity, existing, incoming, quarantine);
    AcceptedFromInput(t.d, t.same, Index(t.d, existing), incoming);
    KnownAfter(t.d, t.same, existing, plan.accepted, delta, incoming);
    NothingNew(t.d, t.same, Index(t.d, existing + delta), incoming);
  }

  lemma NothingAcceptedNothingAppended<T(!new)>(t: Target<T>, dir: Directory<T>, a: Attempt<T>)
    requires t.Read(dir).Ok? && ValidAttempt(t, dir, a)
    requires Admit(t.d, t.same, Index(t.d, t.Read(dir).value), a.incoming).accepted == []
    ensures Appends(t, dir, a) == []
  {
    var existing := t.Read(dir).value;
    if PlanWrite(t.d, t.same, existing, a.incoming, a.quarantine).Ok? {
      PlanAppends(t.d, t.same, t.identity, existing, a.incoming, a.quarantine);
      assert |multiset(Appends(t, dir, a))| == 0;
    }
  }

  lemma AppendsDependOnRows<T>(t: Target<T>, a: Directory<T>, b: Directory<T>, attempt: Attempt<T>, again: Attempt<T>)
    requires t.Read(a) == t.Read(b) && attempt.incoming == again.incoming && attempt.quarantine == again.quarantine
    ensures Appends(t, a, attempt) == Appends(t, b, again)
  {
  }

  /** Repeating an attempt that was cut anywhere but at the first write reaches the rows the whole attempt would have. */
  lemma RetryReaches<T(!new)>(t: Target<T>, dir: Directory<T>, a: Attempt<T>)
    requires PartsTrue(dir) && ValidAttempt(t, dir, a) && !FirstWriteCut(t, dir, a)
    requires ValidAttempt(t, After(t, dir, a), a)
    ensures var whole := a.(reached := 2);
            t.Read(After(t, After(t, dir, a), whole)) == t.Read(After(t, dir, whole))
  {
    hide PartsTrue, ReadCommitted, After, PlanWrite, Appends, FirstWriteCut, AllReadable;
    var whole, cut := a.(reached := 2), After(t, dir, a);
    AttemptReads(t, dir, a);
    assert !FirstWriteCut(t, dir, whole) && !FirstWriteCut(t, cut, whole) by {
      OnlyStageOneCuts(t, dir, whole);
      OnlyStageOneCuts(t, cut, whole);
    }
    AttemptReads(t, dir, whole);
    AttemptReads(t, cut, whole);
    AppendsDependOnRows(t, dir, dir, a, whole);
    if t.Read(dir).Ok? {
      if a.reached == 2 {
        if t.Read(cut).Ok? {
          RepeatedAppends(t, dir, a, cut, whole);
          assert t.Read(cut).value + [] == t.Read(cut).value;
          NothingUnreadable(t.d);
        }
      } else {
        AppendsDependOnRows(t, dir, cut, whole, whole);
      }
    }
  }

  lemma NothingUnreadable<T>(d: Dataset<T>)
    ensures AllReadable(d, [])
  {
  }

  lemma OnlyStageOneCuts<T>(t: Target<T>, dir: Directory<T>, a: Attempt<T>)
    requires a.reached != 1
    ensures !FirstWriteCut(t, dir, a)
  {
  }

  lemma RepeatedAppends<T(!new)>(t: Target<T>, dir: Directory<T>, a: Attempt<T>, later: Directory<T>, again: Attempt<T>)
    requires t.Read(dir).Ok? && ValidAttempt(t, dir, a)
    requires t.Read(later) == Ok(t.Read(dir).value + Appends(t, dir, a)) && ValidAttempt(t, later, again)
    requires again.incoming == a.incoming && again.quarantine == a.quarantine
    ensures Appends(t, later, again) == []
  {
    var existing := t.Read(dir).value;
    if PlanWrite(t.d, t.same, existing, a.incoming, a.quarantine).Ok? {
      RepeatAddsNothing(t, existing, a.incoming, a.quarantine);
      NothingAcceptedNothingAppended(t, later, again);
    } else {
      assert existing + [] == existing;
    }
  }

  /** What an uninterrupted quarantining write of one lineage leaves for a reader. */
  lemma WholeWriteReads<T(!new)>(t: Target<T>, dir: Directory<T>, a: Attempt<T>)
    requires PartsTrue(dir) && ValidAttempt(t, dir, a) && t.Read(dir).Ok?
    requires a.quarantine && a.reached == 2 && CommonLineage(t.d, a.incoming).Some?
    ensures var existing, after := t.Read(dir).value, After(t, dir, a);
            var admitted := Admit(t.d, t.same, Index(t.d, existing), a.incoming);
            && PartsTrue(after) && (t.Read(after).Ok? <==> AllReadable(t.d, admitted.accepted))
            && (t.Read(after).Ok? ==>
                  && DistinctKeys(t.d, t.Read(after).value)
                  && multiset(t.Read(after).value) == multiset(existing + admitted.accepted)
                  && |t.Read(after).value| <= |existing| + |a.incoming|
                  && Index(t.d, t.Read(after).value) == admitted.known)
  {
    hide ReadCommitted, Admit, Readable, Index, SortByKey, ValidLineage, Writable, After;
    var existing := t.Read(dir).value;
    ReadingDistinct(t, dir);
    AttemptReads(t, dir, a);
    OnlyStageOneCuts(t, dir, a);
    PlanAppends(t.d, t.same, t.identity, existing, a.incoming, true);
    AcceptedFromInput(t.d, t.same, Index(t.d, existing), a.incoming);
    var accepted := Admit(t.d, t.same, Index(t.d, existing), a.incoming).accepted;
    SameMembers(Appends(t, dir, a), accepted);
    SameReadability(t.d, Appends(t, dir, a), accepted);
    KnownAfter(t.d, t.same, existing, accepted, Appends(t, dir, a), a.incoming);
  }

  /** The row is committed, or one that counts as the same stands under its key. */
  ghost predicate Holds<T(!new)>(d: Dataset<T>, same: (T, T) -> bool, rows: seq<T>, x: T)
  {
    exists y :: y in rows && d.key(y) == d.key(x) && same(y, x)
  }

  ghost predicate HoldsAll<T(!new)>(d: Dataset<T>, same: (T, T) -> bool, rows: seq<T>, incoming: seq<T>)
  {
    forall i :: 0 <= i < |incoming| ==> Holds(d, same, rows, incoming[i])
  }

  /**
   An uninterrupted strict write of one lineage is all or nothing: with a conflict it
   leaves the partition alone, without one it does what quarantine mode does, and the
   partition then holds every row offered exactly when there was none.
   */
  lemma StrictWholeWrite<T(!new)>(t: Target<T>, dir: Directory<T>, a: Attempt<T>)
    requires PartsTrue(dir) && ValidAttempt(t, dir, a) && t.Read(dir).Ok?
    requires !a.quarantine && a.reached == 2 && CommonLineage(t.d, a.incoming).Some?
    requires forall x :: x in a.incoming ==> t.same(x, x)
    ensures var existing, after := t.Read(dir).value, After(t, dir, a);
            var conflicts := Admit(t.d, t.same, Index(t.d, existing), a.incoming).conflicts;
            && (if conflicts != [] then t.Read(after) == t.Read(dir) else after == After(t, dir, a.(quarantine := true)))
            && (t.Read(after).Ok? ==> (HoldsAll(t.d, t.same, t.Read(after).value, a.incoming) <==> conflicts == []))
  {
    hide ReadCommitted, Admit, Index, HoldsAll, Readable, Delta, SortByKey, DistinctKeys, CommonLineage;
    var existing, lenient := t.Read(dir).value, a.(quarantine := true);
    var admitted := Admit(t.d, t.same, Index(t.d, existing), a.incoming);
    ReadingDistinct(t, dir);
    VisiblePartsTrue(t, dir);
    if admitted.conflicts != [] {
      assert After(t, dir, a) == Visible(dir);
      if HoldsAll(t.d, t.same, existing, a.incoming) {
        HeldHasNoConflict(t.d, t.same, existing, a.incoming);
      }
    } else {
      StrictAgreesWithQuarantine(t.d, t.same, existing, a.incoming);
      assert Appends(t, dir, a) == Appends(t, dir, lenient);
      WholeWriteReads(t, dir, lenient);
      if t.Read(After(t, dir, a)).Ok? {
        NoConflictHolds(t.d, t.same, existing, a.incoming, t.Read(After(t, dir, a)).value);
      }
    }
  }

  lemma HeldHasNoConflict<T(!new)>(d: Dataset<T>, same: (T, T) -> bool, existing: seq<T>, incoming: seq<T>)
    requires DistinctKeys(d, existing) && HoldsAll(d, same, existing, incoming)
    ensures Admit(d, same, Index(d, existing), incoming).conflicts == []
  {
    IndexIsIndex(d, existing);
    var known := Index(d, existing);
    hide Index;
    forall i | 0 <= i < |incoming| ensures d.key(incoming[i]) in known && same(known[d.key(incoming[i])], incoming[i]) {
      assert Holds(d, same, existing, incoming[i]);
      var y :| y in existing && d.key(y) == d.key(incoming[i]) && same(y, incoming[i]);
      var k :| 0 <= k < |existing| && existing[k] == y;
    }
    KeysWithin(d, known, incoming);
    NothingNew(d, same, known, incoming);
  }

  lemma KeysWithin<T>(d: Dataset<T>, known: map<string, T>, incoming: seq<T>)
    requires forall i :: 0 <= i < |incoming| ==> d.key(incoming[i]) in known
    ensures KeysOf(d, incoming) <= known.Keys
  {
  }

  lemma NoConflictHolds<T(!new)>(d: Dataset<T>, same: (T, T) -> bool, existing: seq<T>, incoming: seq<T>, rows: seq<T>)
    requires Admit(d, same, Index(d, existing), incoming).conflicts == [] && forall x :: x in incoming ==> same(x, x)
    requires DistinctKeys(d, rows) && Index(d, rows) == Admit(d, same, Index(d, existing), incoming).known
    ensures HoldsAll(d, same, rows, incoming)
  {
    NoConflictMeansSame(d, same, Index(d, existing), incoming);
    IndexIsIndex(d, rows);
    var known := Index(d, rows);
    hide Index, Admit;
    forall i | 0 <= i < |incoming| ensures Holds(d, same, rows, incoming[i]) {
      var key := d.key(incoming[i]);
      var k :| 0 <= k < |rows| && d.key(rows[k]) == key;
      assert rows[k] in rows;
    }
  }

  lemma SameReadability<T>(d: Dataset<T>, a: seq<T>, b: seq<T>)
    requires forall x :: x in a <==> x in b
    ensures AllReadable(d, a) <==> AllReadable(d, b)
  {
    hide Readable;
    if AllReadable(d, a) {
      forall i | 0 <= i < |b| ensures Readable(d, b[i]) {
        assert b[i] in a;
      }
    }
    if AllReadable(d, b) {
      forall i | 0 <= i < |a| ensures Readable(d, a[i]) {
        assert a[i] in b;
      }
    }
  }

  /** Two readings hold the same rows, perhaps in another part order, or both are refused. */
  ghost predicate SameRows<T(!new)>(d: Dataset<T>, x: Result<seq<T>, ReadError>, y: Result<seq<T>, ReadError>)
  {
    if x.Err? then y.Err?
    else y.Ok? && multiset(x.value) == multiset(y.value) && SortByKey(d, x.value) == SortByKey(d, y.value)
  }

  /** Quarantining A and then B, both to the end. */
  ghost function Split<T>(t: Target<T>, dir: Directory<T>, a: seq<T>, b: seq<T>, gitCommit: string): Directory<T>
  {
    After(t, After(t, dir, Attempt(a, true, gitCommit, 2)), Attempt(b, true, gitCommit, 2))
  }

  /** Quarantining A followed by B in one call, to the end. */
  ghost function Joint<T>(t: Target<T>, dir: Directory<T>, a: seq<T>, b: seq<T>, gitCommit: string): Directory<T>
  {
    After(t, dir, Attempt(a + b, true, gitCommit, 2))
  }

  /** What both calls of a split append together. */
  ghost predicate SplitAppendsNothing<T>(t: Target<T>, dir: Directory<T>, a: seq<T>, b: seq<T>, gitCommit: string)
  {
    && Appends(t, dir, Attempt(a, true, gitCommit, 2)) == []
    && Appends(t, After(t, dir, Attempt(a, true, gitCommit, 2)), Attempt(b, true, gitCommit, 2)) == []
  }

  ghost predicate Offered<T>(t: Target<T>, dir: Directory<T>, a: seq<T>, b: seq<T>, gitCommit: string)
  {
    && PartsTrue(dir) && t.Read(dir).Ok? && ValidGitCommit(gitCommit)
    && AllWritable(t.d, t.identity, a) && AllWritable(t.d, t.identity, b)
    && |t.Read(dir).value| + |a| + |b| <= MAX_INT
  }

  /**
   Quarantining A and then B leaves the rows that quarantining A followed by B in one
   call leaves, exactly when the two batches share one lineage or neither call has
   anything to append: a batch of mixed lineage is refused as a whole.
   */
  lemma BatchesComposeIff<T(!new)>(t: Target<T>, dir: Directory<T>, a: seq<T>, b: seq<T>, gitCommit: string)
    requires Offered(t, dir, a, b, gitCommit)
    ensures SameRows(t.d, t.Read(Split(t, dir, a, b, gitCommit)), t.Read(Joint(t, dir, a, b, gitCommit))) <==>
            CommonLineage(t.d, a + b).Some? || SplitAppendsNothing(t, dir, a, b, gitCommit)
  {
    hide PlanWrite, CommonLineage, SplitAppendsNothing, SortByKey, ReadCommitted;
    if CommonLineage(t.d, a + b).Some? {
      if a == [] {
        assert a + b == b;
        NothingOffered(t, dir, gitCommit);
        FromVisible(t, dir, Attempt(b, true, gitCommit, 2));
      } else if b == [] {
        assert a + b == a;
        AttemptReads(t, dir, Attempt(a, true, gitCommit, 2));
        NothingOffered(t, After(t, dir, Attempt(a, true, gitCommit, 2)), gitCommit);
      } else {
        OneLineageComposes(t, dir, a, b, gitCommit);
      }
    } else {
      MixedLineageAddsNothing(t, dir, a, b, gitCommit);
    }
  }

  lemma NothingOffered<T(!new)>(t: Target<T>, dir: Directory<T>, gitCommit: string)
    requires PartsTrue(dir) && ValidGitCommit(gitCommit)
    ensures Appends(t, dir, Attempt([], true, gitCommit, 2)) == [] && After(t, dir, Attempt([], true, gitCommit, 2)) == Visible(dir)
    ensures t.Read(Visible(dir)) == t.Read(dir) && PartsTrue(Visible(dir))
  {
    VisiblePartsTrue(t, dir);
    ReadingDistinct(t, dir);
    hide ReadCommitted, SortByKey, DistinctKeys;
    if t.Read(dir).Ok? && PlanWrite(t.d, t.same, t.Read(dir).value, [], true).Ok? {
      var existing := t.Read(dir).value;
      assert existing + [] == existing;
      DeltaIsAccepted(t.d, existing, []);
      assert |multiset(Appends(t, dir, Attempt([], true, gitCommit, 2)))| == 0;
    }
  }

  /** Dropping temporary files first makes no difference to what an attempt leaves. */
  lemma FromVisible<T(!new)>(t: Target<T>, dir: Directory<T>, a: Attempt<T>)
    requires PartsTrue(dir) && t.Read(Visible(dir)) == t.Read(dir)
    ensures After(t, Visible(dir), a) == After(t, dir, a)
  {
    hide ReadCommitted, PlanWrite, CommonLineage;
    VisibleTwice(dir);
    AppendsDependOnRows(t, dir, Visible(dir), a, a);
  }

  /** Batches that share one lineage leave the same rows split or joined. */
  lemma OneLineageComposes<T(!new)>(t: Target<T>, dir: Directory<T>, a: seq<T>, b: seq<T>, gitCommit: string)
    requires Offered(t, dir, a, b, gitCommit) && a != [] && b != [] && CommonLineage(t.d, a + b).Some?
    ensures SameRows(t.d, t.Read(Split(t, dir, a, b, gitCommit)), t.Read(Joint(t, dir, a, b, gitCommit)))
  {
    hide PartsTrue, ReadCommitted, After, PlanWrite, Admit, Writable, CommonLineage, DistinctKeys, Index, SortByKey, ValidGitCommit, Readable;
    var existing := t.Read(dir).value;
    LineageOfParts(t.d, a, b);
    assert AllWritable(t.d, t.identity, a + b);
    hide AllWritable;
    WholeWriteReads(t, dir, Attempt(a, true, gitCommit, 2));
    WholeWriteReads(t, dir, Attempt(a + b, true, gitCommit, 2));
    AdmitAppend(t.d, t.same, Index(t.d, existing), a, b);
    var first := After(t, dir, Attempt(a, true, gitCommit, 2));
    var one := Admit(t.d, t.same, Index(t.d, existing), a);
    var two := Admit(t.d, t.same, one.known, b);
    ReadableParts(t.d, one.accepted, two.accepted);
    if t.Read(first).Ok? {
      WholeWriteReads(t, first, Attempt(b, true, gitCommit, 2));
      if t.Read(Split(t, dir, a, b, gitCommit)).Ok? {
        SortForgetsMapOrder(t.d, t.Read(Split(t, dir, a, b, gitCommit)).value, t.Read(Joint(t, dir, a, b, gitCommit)).value);
      }
    } else {
      AttemptReads(t, first, Attempt(b, true, gitCommit, 2));
    }
  }

  lemma ReadableParts<T>(d: Dataset<T>, a: seq<T>, b: seq<T>)
    ensures AllReadable(d, a + b) <==> AllReadable(d, a) && AllReadable(d, b)
  {
    hide Readable;
    assert forall i :: 0 <= i < |a| ==> (a + b)[i] == a[i];
    assert forall i :: 0 <= i < |b| ==> (a + b)[|a| + i] == b[i];
  }

  /** A batch of mixed lineage leaves the partition as it was. */
  lemma MixedLineageAddsNothing<T(!new)>(t: Target<T>, dir: Directory<T>, a: seq<T>, b: seq<T>, gitCommit: string)
    requires Offered(t, dir, a, b, gitCommit) && CommonLineage(t.d, a + b).None?
    ensures t.Read(Joint(t, dir, a, b, gitCommit)) == t.Read(dir)
    ensures SameRows(t.d, t.Read(Split(t, dir, a, b, gitCommit)), t.Read(dir)) <==> SplitAppendsNothing(t, dir, a, b, gitCommit)
  {
    hide ReadCommitted, PlanWrite, CommonLineage, SortByKey, Readable, ValidGitCommit;
    var x, y := Attempt(a, true, gitCommit, 2), Attempt(b, true, gitCommit, 2);
    var first := After(t, dir, x);
    VisiblePartsTrue(t, dir);
    AttemptReads(t, dir, x);
    OnlyStageOneCuts(t, dir, x);
    OnlyStageOneCuts(t, first, y);
    if t.Read(first).Ok? {
      AppendsBounded(t, dir, x);
      AttemptReads(t, first, y);
    } else {
      AttemptReads(t, first, y);
    }
    hide After;
    if t.Read(first).Ok? && t.Read(Split(t, dir, a, b, gitCommit)).Ok? {
      var more := Appends(t, dir, x) + Appends(t, first, y);
      assert t.Read(dir).value + Appends(t, dir, x) + Appends(t, first, y) == t.Read(dir).value + more;
      MoreRows(t.d, t.Read(dir).value, more);
    }
  }

  /** Two rows of different lineage, offered to an empty partition: one after the other they are taken, in one call they are refused. */
  lemma MixedBatchesDiffer<T(!new)>(t: Target<T>, x: T, y: T, gitCommit: string)
    requires Writable(t.d, t.identity, x) && Writable(t.d, t.identity, y) && ValidGitCommit(gitCommit)
    requires t.d.lineage(x) != t.d.lineage(y)
    ensures !SameRows(t.d, t.Read(Split(t, map[], [x], [y], gitCommit)), t.Read(Joint(t, map[], [x], [y], gitCommit)))
  {
    hide Writable, ReadCommitted, Split, Joint, SameRows, Appends, After;
    EmptyReads(t);
    NewRowAppends(t, map[], x, true, gitCommit, 2);
    assert ([x] + [y])[0] == x && ([x] + [y])[1] == y;
    assert CommonLineage(t.d, [x] + [y]).None?;
    BatchesComposeIff(t, map[], [x], [y], gitCommit);
  }

  lemma MoreRows<T(!new)>(d: Dataset<T>, rows: seq<T>, more: seq<T>)
    ensures multiset(rows + more) == multiset(rows) <==> more == []
    ensures more == [] ==> rows + more == rows
  {
    assert |multiset(rows + more)| == |rows| + |more| && |multiset(rows)| == |rows|;
    assert more == [] ==> rows + more == rows;
  }

  lemma AppendsBounded<T(!new)>(t: Target<T>, dir: Directory<T>, a: Attempt<T>)
    requires t.Read(dir).Ok? && ValidAttempt(t, dir, a)
    ensures |Appends(t, dir, a)| <= |a.incoming|
  {
    ReadingDistinct(t, dir);
    hide ReadCommitted, Admit, SortByKey, Writable, CommonLineage;
    var existing := t.Read(dir).value;
    if PlanWrite(t.d, t.same, existing, a.incoming, a.quarantine).Ok? {
      PlanAppends(t.d, t.same, t.identity, existing, a.incoming, a.quarantine);
      AcceptedFromInput(t.d, t.same, Index(t.d, existing), a.incoming);
      SameMembers(Appends(t, dir, a), Admit(t.d, t.same, Index(t.d, existing), a.incoming).accepted);
    }
  }

  lemma LineageOfParts<T>(d: Dataset<T>, a: seq<T>, b: seq<T>)
    requires a != [] && b != [] && CommonLineage(d, a + b).Some?
    ensures CommonLineage(d, a) == CommonLineage(d, b) == CommonLineage(d, a + b)
  {
    var all := a + b;
    assert all[0] == a[0];
    forall i | 0 <= i < |a| ensures d.lineage(a[i]) == d.lineage(a[0]) {
      assert all[i] == a[i];
    }
    forall i | 0 <= i < |b| ensures d.lineage(b[i]) == d.lineage(a[0]) {
      assert all[|a| + i] == b[i];
    }
  }
}
