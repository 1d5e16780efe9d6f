/**
 The canonical form of a feature artifact registration, and what the catalog will
 later say about a registration that was accepted.
 */
module FeatureRegistration {
  import opened Wrappers
  import opened Instants
  import opened Sorting
  import opened Fields
  import opened FeatureCatalog
  import opened Patterns
  import opened Text
  import opened Manifests

  datatype Fitness = Fitness(dataset: string, historicalFitness: string, availabilityPolicy: string)

  datatype InputRef = InputRef(kind: string, path: string, sha256: string)

  /** The descriptive fields of a registration. */
  datatype Header = Header(
    artifactId: string, artifactVersion: string, featureSet: string, featureSetVersion: string, registrySha256: string,
    generatorVersion: string, gitCommit: string, universeFingerprint: string, inputFingerprint: string,
    outputManifestPath: string, outputManifestSha256: string, calendarDataSourceId: string, calendarMic: string, calendarVersion: string,
    calendarSessionFingerprint: string, decisionClockPolicy: string, status: string, createdAt: int)

  datatype Registration = Registration(
    header: Header, rowCount: int, requested: int, accepted: int, rejected: int, calendarAvailableAt: int,
    points: seq<Point>, universe: seq<Member>, fitness: seq<Fitness>, refs: seq<InputRef>, partitions: seq<Partition>)

  datatype RegistrationError = BadHeader | BadCounts | BadPoints | BadCalendar | BadUniverse | BadFitness | BadRefs | BadPartition(index: nat) | BadRowCount

  // ---------- canonical form ----------

  function TrimHeader(h: Header): Header
  {
    Header(
      TrimSpace(h.artifactId), TrimSpace(h.artifactVersion), TrimSpace(h.featureSet), TrimSpace(h.featureSetVersion), TrimSpace(h.registrySha256),
      TrimSpace(h.generatorVersion), TrimSpace(h.gitCommit), TrimSpace(h.universeFingerprint), TrimSpace(h.inputFingerprint),
      TrimSpace(h.outputManifestPath), TrimSpace(h.outputManifestSha256), TrimSpace(h.calendarDataSourceId), TrimSpace(h.calendarMic), TrimSpace(h.calendarVersion),
      TrimSpace(h.calendarSessionFingerprint), TrimSpace(h.decisionClockPolicy), if TrimSpace(h.status) == "" then "published" else TrimSpace(h.status), h.createdAt)
  }

  function TrimFitness(f: Fitness): Fitness
  {
    Fitness(TrimSpace(f.dataset), TrimSpace(f.historicalFitness), TrimSpace(f.availabilityPolicy))
  }

  function TrimRef(r: InputRef): InputRef { InputRef(TrimSpace(r.kind), TrimSpace(r.path), TrimSpace(r.sha256)) }

  function TrimPartition(p: Partition): Partition
  {
    p.(securityId := TrimSpace(p.securityId), childArtifactId := TrimSpace(p.childArtifactId), manifestPath := TrimSpace(p.manifestPath),
       manifestSha256 := TrimSpace(p.manifestSha256), partPath := TrimSpace(p.partPath), partSha256 := TrimSpace(p.partSha256))
  }

  function PointFields(): Point -> seq<Part> { (p: Point) => [Number(p.ordinal)] }

  function MemberFields(): Member -> seq<Part> { (m: Member) => [Number(m.ordinal)] }

  function FitnessFields(): Fitness -> seq<Part> { (f: Fitness) => [Word(f.dataset)] }

  function RefFields(): InputRef -> seq<Part> { (r: InputRef) => [Word(r.kind), Word(r.path), Word(r.sha256)] }

  function RefKey(): InputRef -> seq<Part> { (r: InputRef) => [Word(r.kind), Word(r.path)] }

  function PartitionFields(): Partition -> seq<Part> { (p: Partition) => [Number(p.decisionAt), Word(p.securityId)] }

  function TrimmedFitness(r: Registration): seq<Fitness> { Map((f: Fitness) => TrimFitness(f), r.fitness) }

  function TrimmedRefs(r: Registration): seq<InputRef> { Map((x: InputRef) => TrimRef(x), r.refs) }

  function TrimmedPartitions(r: Registration): seq<Partition> { Map((p: Partition) => TrimPartition(p), r.partitions) }

  /** Trimmed, and every list in its own order. */
  function Canonical(r: Registration): Registration
  {
    r.(header := TrimHeader(r.header), points := SortOn(PointFields(), r.points), universe := SortOn(MemberFields(), r.universe),
       fitness := SortOn(FitnessFields(), TrimmedFitness(r)), refs := SortOn(RefFields(), TrimmedRefs(r)),
       partitions := SortOn(PartitionFields(), TrimmedPartitions(r)))
  }

  // ---------- acceptance ----------

  predicate HeaderGood(h: Header)
  {
    && IsUuid(h.artifactId) && IsVersion(h.artifactVersion) && IsName(h.featureSet) && IsVersion(h.featureSetVersion)
    && IsLowerHex(h.registrySha256, 64) && IsLowerHex(h.universeFingerprint, 64) && IsLowerHex(h.inputFingerprint, 64)
    && IsLowerHex(h.outputManifestSha256, 64) && IsLowerHex(h.calendarSessionFingerprint, 64)
    && h.generatorVersion != "" && ValidGitCommit(h.gitCommit) && IsSafePath(h.outputManifestPath)
    && IsUuid(h.calendarDataSourceId) && IsMic(h.calendarMic) && IsName(h.calendarVersion)
    && h.decisionClockPolicy != "" && h.status in {"published", "invalid", "orphaned"} && h.createdAt != ZERO_TIME
  }

  predicate CountsGood(r: Registration)
  {
    && r.rowCount >= 0 && r.requested > 0 && r.accepted >= 0 && r.rejected >= 0
    && r.requested == r.accepted + r.rejected && r.accepted == |r.partitions|
  }

  predicate PointsGood(points: seq<Point>)
  {
    && points != []
    && (forall i :: 0 <= i < |points| ==> points[i].ordinal == i && points[i].decisionAt != ZERO_TIME)
    && (forall i :: 0 < i < |points| ==> points[i - 1].decisionAt < points[i].decisionAt)
  }

  predicate UniverseGood(universe: seq<Member>)
  {
    && universe != []
    && (forall i :: 0 <= i < |universe| ==> universe[i].ordinal == i && IsUuid(universe[i].securityId))
    && (forall i, j :: 0 <= i < j < |universe| ==> universe[i].securityId != universe[j].securityId)
  }

  predicate FitnessValid(f: Fitness)
  {
    && IsName(f.dataset)
    && f.historicalFitness in {"backtest_safe", "current_research_only", "installation_replay_only", "unsupported"}
    && f.availabilityPolicy in {"exact_publication", "source_declared", "conservative_receipt_time", "current_snapshot", "unknown"}
  }

  ghost predicate FitnessGood(fitness: seq<Fitness>)
  {
    fitness != [] && (forall i :: 0 <= i < |fitness| ==> FitnessValid(fitness[i])) && DistinctOn(FitnessFields(), fitness)
  }

  predicate RefValid(r: InputRef)
  {
    r.kind in {"manifest", "part"} && IsSafePath(r.path) && IsLowerHex(r.sha256, 64)
  }

  ghost predicate RefsGood(refs: seq<InputRef>)
  {
    (forall i :: 0 <= i < |refs| ==> RefValid(refs[i])) && DistinctOn(RefKey(), refs)
  }

  predicate PartitionFormat(p: Partition)
  {
    && IsUuid(p.securityId) && IsUuid(p.childArtifactId) && IsSafePath(p.manifestPath) && IsSafePath(p.partPath)
    && IsLowerHex(p.manifestSha256, 64) && IsLowerHex(p.partSha256, 64) && p.rowCount > 0
  }

  predicate PartitionGood(points: seq<Point>, universe: seq<Member>, p: Partition)
  {
    InUniverse(universe, p.securityId) && Scheduled(points, p.decisionAt) && PartitionFormat(p)
  }

  predicate PartitionsGood(points: seq<Point>, universe: seq<Member>, partitions: seq<Partition>)
  {
    && (forall i :: 0 <= i < |partitions| ==> PartitionGood(points, universe, partitions[i]))
    && (forall i, j :: 0 <= i < j < |partitions| ==> partitions[i].Cell() != partitions[j].Cell())
    && (forall i, j :: 0 <= i < j < |partitions| ==> partitions[i].childArtifactId != partitions[j].childArtifactId)
  }

  ghost predicate Accepted(r: Registration)
  {
    && HeaderGood(TrimHeader(r.header))
    && CountsGood(r)
    && PointsGood(SortOn(PointFields(), r.points))
    && r.calendarAvailableAt != ZERO_TIME && r.calendarAvailableAt <= SortOn(PointFields(), r.points)[0].decisionAt
    && UniverseGood(SortOn(MemberFields(), r.universe))
    && FitnessGood(TrimmedFitness(r))
    && RefsGood(TrimmedRefs(r))
    && PartitionsGood(SortOn(PointFields(), r.points), SortOn(MemberFields(), r.universe), TrimmedPartitions(r))
    && SumRows(TrimmedPartitions(r)) == r.rowCount
  }

  // ---------- the normalizing loops ----------

  method CheckPoints(points: seq<Point>) returns (ok: bool)
    ensures ok <==> PointsGood(points)
  {
    if |points| == 0 {
      return false;
    }
    for i := 0 to |points|
      invariant forall k :: 0 <= k < i ==> points[k].ordinal == k && points[k].decisionAt != ZERO_TIME
      invariant forall k :: 0 < k < i ==> points[k - 1].decisionAt < points[k].decisionAt
    {
      if points[i].ordinal != i || points[i].decisionAt == ZERO_TIME {
        return false;
      }
      if i > 0 && !(points[i].decisionAt > points[i - 1].decisionAt) {
        return false;
      }
    }
    return true;
  }

  method CheckUniverse(universe: seq<Member>) returns (ok: bool, ids: set<string>)
    ensures ok <==> UniverseGood(universe)
    ensures ok ==> forall s :: s in ids <==> InUniverse(universe, s)
  {
    ids := {};
    if |universe| == 0 {
      return false, ids;
    }
    for i := 0 to |universe|
      invariant forall k :: 0 <= k < i ==> universe[k].ordinal == k && IsUuid(universe[k].securityId)
      invariant forall k, l :: 0 <= k < l < i ==> universe[k].securityId != universe[l].securityId
      invariant forall s :: s in ids <==> exists k :: 0 <= k < i && universe[k].securityId == s
    {
      if universe[i].ordinal != i || !IsUuid(universe[i].securityId) || universe[i].securityId in ids {
        return false, ids;
      }
      ids := ids + {universe[i].securityId};
    }
    return true, ids;
  }

  method TrimLabels(fitness: seq<Fitness>) returns (trimmed: Option<seq<Fitness>>)
    ensures var all := Map((f: Fitness) => TrimFitness(f), fitness);
            && (trimmed.Some? <==> forall i :: 0 <= i < |all| ==> FitnessValid(all[i]))
            && (trimmed.Some? ==> trimmed.value == all)
  {
    hide TrimFitness, FitnessValid;
    ghost var all := Map((f: Fitness) => TrimFitness(f), fitness);
    var labels: seq<Fitness> := [];
    for i := 0 to |fitness|
      invariant labels == all[..i] && forall k :: 0 <= k < i ==> FitnessValid(all[k])
    {
      var f := TrimFitness(fitness[i]);
      assert all[i] == f;
      if !FitnessValid(f) {
        return None;
      }
      labels := labels + [f];
    }
    assert all[..|fitness|] == all;
    return Some(labels);
  }

  method DistinctDatasets(s: seq<Fitness>) returns (ok: bool)
    ensures ok <==> forall i :: 0 < i < |s| ==> FitnessFields()(s[i - 1]) != FitnessFields()(s[i])
  {
    var i := 1;
    while i < |s|
      invariant 0 < i && forall k :: 0 < k < i && k < |s| ==> FitnessFields()(s[k - 1]) != FitnessFields()(s[k])
    {
      assert FitnessFields()(s[i - 1])[0] == Word(s[i - 1].dataset) && FitnessFields()(s[i])[0] == Word(s[i].dataset);
      if s[i].dataset == s[i - 1].dataset {
        return false;
      }
      i := i + 1;
    }
    return true;
  }

  /** Trims and checks every label, sorts, and then compares neighbours. */
  method NormalizeFitness(fitness: seq<Fitness>) returns (sorted: Option<seq<Fitness>>)
    ensures var trimmed := Map((f: Fitness) => TrimFitness(f), fitness);
            && (sorted.Some? <==> FitnessGood(trimmed))
            && (sorted.Some? ==> sorted.value == SortOn(FitnessFields(), trimmed))
  {
    hide TrimFitness, FitnessValid, SortOn;
    var trimmed := TrimLabels(fitness);
    if trimmed.None? || |fitness| == 0 {
      return None;
    }
    var s := SortOn(FitnessFields(), trimmed.value);
    SortOnSorted(FitnessFields(), trimmed.value);
    DistinctPermutes(FitnessFields(), trimmed.value, s);
    NeighboursSuffice(FitnessFields(), s);
    var ok := DistinctDatasets(s);
    return if ok then Some(s) else None;
  }

  method TrimReferences(refs: seq<InputRef>) returns (trimmed: Option<seq<InputRef>>)
    ensures var all := Map((x: InputRef) => TrimRef(x), refs);
            && (trimmed.Some? <==> forall i :: 0 <= i < |all| ==> RefValid(all[i]))
            && (trimmed.Some? ==> trimmed.value == all)
  {
    hide TrimRef, RefValid;
    ghost var all := Map((x: InputRef) => TrimRef(x), refs);
    var kept: seq<InputRef> := [];
    for i := 0 to |refs|
      invariant kept == all[..i] && forall k :: 0 <= k < i ==> RefValid(all[k])
    {
      var r := TrimRef(refs[i]);
      assert all[i] == r;
      if !RefValid(r) {
        return None;
      }
      kept := kept + [r];
    }
    assert all[..|refs|] == all;
    return Some(kept);
  }

  method DistinctReferences(s: seq<InputRef>) returns (ok: bool)
    ensures ok <==> forall i :: 0 < i < |s| ==> RefKey()(s[i - 1]) != RefKey()(s[i])
  {
    var i := 1;
    while i < |s|
      invariant 0 < i && forall k :: 0 < k < i && k < |s| ==> RefKey()(s[k - 1]) != RefKey()(s[k])
    {
      assert RefKey()(s[i])[0] == Word(s[i].kind) && RefKey()(s[i])[1] == Word(s[i].path);
      assert RefKey()(s[i - 1])[0] == Word(s[i - 1].kind) && RefKey()(s[i - 1])[1] == Word(s[i - 1].path);
      if s[i].kind == s[i - 1].kind && s[i].path == s[i - 1].path {
        return false;
      }
      i := i + 1;
    }
    return true;
  }

  method NormalizeRefs(refs: seq<InputRef>) returns (sorted: Option<seq<InputRef>>)
    ensures var trimmed := Map((x: InputRef) => TrimRef(x), refs);
            && (sorted.Some? <==> RefsGood(trimmed))
            && (sorted.Some? ==> sorted.value == SortOn(RefFields(), trimmed))
  {
    hide TrimRef, SortOn, RefValid;
    var trimmed := TrimReferences(refs);
    if trimmed.None? {
      return None;
    }
    var s := SortOn(RefFields(), trimmed.value);
    SortOnSorted(RefFields(), trimmed.value);
    DistinctPermutes(RefKey(), trimmed.value, s);
    SortedOnKey(s);
    NeighboursSuffice(RefKey(), s);
    var ok := DistinctReferences(s);
    return if ok then Some(s) else None;
  }

  /** Sorted by kind, path and hash means sorted by kind and path. */
  lemma SortedOnKey(s: seq<InputRef>)
    requires Sorted(ByFields(RefFields()), s)
    ensures forall i, j :: 0 <= i < j < |s| ==> !PartsLess(RefKey()(s[j]), RefKey()(s[i]))
  {
    forall i, j | 0 <= i < j < |s| ensures !PartsLess(RefKey()(s[j]), RefKey()(s[i])) {
      assert !ByFields(RefFields())(s[j], s[i]);
      if PartsLess(RefKey()(s[j]), RefKey()(s[i])) {
        PrefixLess(RefKey()(s[j]), RefKey()(s[i]), [Word(s[j].sha256)], [Word(s[i].sha256)]);
      }
      assert RefKey()(s[j]) + [Word(s[j].sha256)] == RefFields()(s[j]) && RefKey()(s[i]) + [Word(s[i].sha256)] == RefFields()(s[i]);
    }
  }

  lemma {:induction false} PrefixLess(a: seq<Part>, b: seq<Part>, x: seq<Part>, y: seq<Part>)
    requires |a| == |b| && PartsLess(a, b)
    ensures PartsLess(a + x, b + y)
    decreases |a|
  {
    assert (a + x)[1..] == a[1..] + x && (b + y)[1..] == b[1..] + y;
    if a[0] == b[0] {
      PrefixLess(a[1..], b[1..], x, y);
    }
  }

  lemma DistinctPermutes<T(!new)>(fields: T -> seq<Part>, a: seq<T>, b: seq<T>)
    requires multiset(a) == multiset(b)
    ensures DistinctOn(fields, a) <==> DistinctOn(fields, b)
  {
    if DistinctOn(fields, a) {
      DistinctMoves(fields, a, b);
    }
    if DistinctOn(fields, b) {
      DistinctMoves(fields, b, a);
    }
  }

  lemma DistinctMoves<T(!new)>(fields: T -> seq<Part>, a: seq<T>, b: seq<T>)
    requires multiset(a) == multiset(b) && DistinctOn(fields, a)
    ensures DistinctOn(fields, b)
  {
    forall i, j | 0 <= i < j < |b| ensures fields(b[i]) != fields(b[j]) {
      var k, l := TwoPlaces(a, b, i, j);
    }
  }

  predicate FreshIn(partitions: seq<Partition>, p: Partition)
  {
    forall k :: 0 <= k < |partitions| ==> partitions[k].Cell() != p.Cell() && partitions[k].childArtifactId != p.childArtifactId
  }

  lemma OneMorePartition(points: seq<Point>, universe: seq<Member>, partitions: seq<Partition>, n: nat)
    requires n < |partitions|
    ensures PartitionsGood(points, universe, partitions[..n + 1]) <==>
              PartitionsGood(points, universe, partitions[..n]) && PartitionGood(points, universe, partitions[n]) && FreshIn(partitions[..n], partitions[n])
    ensures PartitionsGood(points, universe, partitions) ==> PartitionsGood(points, universe, partitions[..n + 1])
    ensures SumRows(partitions[..n + 1]) == SumRows(partitions[..n]) + partitions[n].rowCount
  {
    hide PartitionGood;
    var before, after := partitions[..n], partitions[..n + 1];
    assert after[n] == partitions[n] && after[..n] == before;
    assert forall k :: 0 <= k < n ==> after[k] == before[k] == partitions[k];
  }

  /** The cells and children of the partitions seen so far. */
  ghost predicate Seen(partitions: seq<Partition>, cells: set<(string, int)>, children: set<string>)
  {
    && (forall cell :: cell in cells <==> HasCell(partitions, cell))
    && (forall c :: c in children <==> exists k :: 0 <= k < |partitions| && partitions[k].childArtifactId == c)
  }

  lemma SeenOneMore(partitions: seq<Partition>, cells: set<(string, int)>, children: set<string>, p: Partition)
    requires Seen(partitions, cells, children)
    ensures Seen(partitions + [p], cells + {p.Cell()}, children + {p.childArtifactId})
    ensures FreshIn(partitions, p) <==> p.Cell() !in cells && p.childArtifactId !in children
  {
    HasOneMore(partitions, p);
    var all := partitions + [p];
    assert all[|partitions|] == p && forall k :: 0 <= k < |partitions| ==> all[k] == partitions[k];
    forall c ensures c in children + {p.childArtifactId} <==> exists k :: 0 <= k < |all| && all[k].childArtifactId == c {
      if c in children {
        var k :| 0 <= k < |partitions| && partitions[k].childArtifactId == c;
        assert all[k].childArtifactId == c;
      }
      if c == p.childArtifactId {
        assert all[|partitions|].childArtifactId == c;
      }
    }
    assert HasCell(partitions, p.Cell()) <==> p.Cell() in cells;
  }

  /** Trims and checks every partition against the schedule and the universe, with sets of cells and children seen. */
  method CheckPartitions(points: seq<Point>, universe: seq<Member>, ids: set<string>, partitions: seq<Partition>)
    returns (r: Result<seq<Partition>, RegistrationError>, rows: int)
    requires forall s :: s in ids <==> InUniverse(universe, s)
    ensures var trimmed := Map((p: Partition) => TrimPartition(p), partitions);
            && (r.Ok? <==> PartitionsGood(points, universe, trimmed))
            && (r.Ok? ==> r.value == trimmed && rows == SumRows(trimmed))
  {
    hide TrimPartition, InUniverse, Scheduled, SumRows, PartitionsGood, Seen, FreshIn, PartitionFormat;
    ghost var all := Map((p: Partition) => TrimPartition(p), partitions);
    var times := set i | 0 <= i < |points| :: points[i].decisionAt;
    TimesAreScheduled(points);
    var trimmed: seq<Partition> := [];
    var cells: set<(string, int)>, children: set<string> := {}, {};
    rows := 0;
    NothingChecked(points, universe);
    for i := 0 to |partitions|
      invariant trimmed == all[..i] && rows == SumRows(all[..i]) && PartitionsGood(points, universe, all[..i])
      invariant Seen(trimmed, cells, children)
    {
      var p := TrimPartition(partitions[i]);
      assert all[i] == p;
      OneMorePartition(points, universe, all, i);
      SeenOneMore(trimmed, cells, children, p);
      if p.securityId !in ids || p.decisionAt !in times || !PartitionFormat(p) || p.Cell() in cells || p.childArtifactId in children {
        return Err(BadPartition(i)), rows;
      }
      trimmed, rows := trimmed + [p], rows + p.rowCount;
      cells, children := cells + {p.Cell()}, children + {p.childArtifactId};
    }
    assert all[..|partitions|] == all;
    return Ok(trimmed), rows;
  }

  lemma NothingChecked(points: seq<Point>, universe: seq<Member>)
    ensures PartitionsGood(points, universe, []) && SumRows([]) == 0 && Seen([], {}, {})
  {
  }

  lemma TimesAreScheduled(points: seq<Point>)
    ensures forall t :: Scheduled(points, t) <==> t in set i | 0 <= i < |points| :: points[i].decisionAt
  {
  }

  method Normalized(r: Registration) returns (n: Result<Registration, RegistrationError>)
    ensures n.Ok? <==> Accepted(r)
    ensures n.Ok? ==> n.value == Canonical(r)
  {
    hide PointsGood, UniverseGood, FitnessGood, RefsGood, PartitionsGood, SumRows, TrimHeader, HeaderGood, TrimFitness, TrimRef, TrimPartition, SortOn;
    if !HeaderGood(TrimHeader(r.header)) {
      return Err(BadHeader);
    }
    if !CountsGood(r) {
      return Err(BadCounts);
    }
    var points := SortOn(PointFields(), r.points);
    var good := CheckPoints(points);
    if !good {
      return Err(BadPoints);
    }
    GoodPointsExist(points);
    if r.calendarAvailableAt == ZERO_TIME || r.calendarAvailableAt > points[0].decisionAt {
      return Err(BadCalendar);
    }
    var universe := SortOn(MemberFields(), r.universe);
    var ids;
    good, ids := CheckUniverse(universe);
    if !good {
      return Err(BadUniverse);
    }
    var fitness := NormalizeFitness(r.fitness);
    if fitness.None? {
      return Err(BadFitness);
    }
    var refs := NormalizeRefs(r.refs);
    if refs.None? {
      return Err(BadRefs);
    }
    var partitions, rows := CheckPartitions(points, universe, ids, r.partitions);
    if partitions.Err? {
      return Err(partitions.error);
    }
    if rows != r.rowCount {
      return Err(BadRowCount);
    }
    return Ok(r.(header := TrimHeader(r.header), points := points, universe := universe, fitness := fitness.value, refs := refs.value,
                 partitions := SortOn(PartitionFields(), partitions.value)));
  }

  lemma GoodPointsExist(points: seq<Point>)
    requires PointsGood(points)
    ensures |points| > 0
  {
  }

  // ---------- the order of the input lists does not matter ----------

  ghost predicate Rearranged(a: Registration, b: Registration)
  {
    && a == b.(points := a.points, universe := a.universe, fitness := a.fitness, refs := a.refs, partitions := a.partitions)
    && multiset(a.points) == multiset(b.points) && multiset(a.universe) == multiset(b.universe)
    && multiset(a.fitness) == multiset(b.fitness) && multiset(a.refs) == multiset(b.refs) && multiset(a.partitions) == multiset(b.partitions)
  }

  lemma NumbersDiffer(a: int, b: int)
    requires [Number(a)] == [Number(b)]
    ensures a == b
  {
    assert [Number(a)][0] == [Number(b)][0];
  }

  lemma GoodPointsDistinct(s: seq<Point>)
    requires PointsGood(SortOn(PointFields(), s))
    ensures forall x, y :: x in s && y in s && PointFields()(x) == PointFields()(y) ==> x == y
  {
    SortOnSorted(PointFields(), s);
    var t := SortOn(PointFields(), s);
    SameMembers(t, s);
    hide SortOn;
    forall x, y | x in s && y in s && PointFields()(x) == PointFields()(y) ensures x == y {
      NumbersDiffer(x.ordinal, y.ordinal);
      var i :| 0 <= i < |t| && t[i] == x;
      var j :| 0 <= j < |t| && t[j] == y;
    }
  }

  lemma GoodMembersDistinct(s: seq<Member>)
    requires UniverseGood(SortOn(MemberFields(), s))
    ensures forall x, y :: x in s && y in s && MemberFields()(x) == MemberFields()(y) ==> x == y
  {
    SortOnSorted(MemberFields(), s);
    var t := SortOn(MemberFields(), s);
    SameMembers(t, s);
    hide SortOn;
    forall x, y | x in s && y in s && MemberFields()(x) == MemberFields()(y) ensures x == y {
      NumbersDiffer(x.ordinal, y.ordinal);
      var i :| 0 <= i < |t| && t[i] == x;
      var j :| 0 <= j < |t| && t[j] == y;
    }
  }

  lemma DistinctMeansDistinct<T(!new)>(fields: T -> seq<Part>, s: seq<T>)
    requires DistinctOn(fields, s)
    ensures forall x, y :: x in s && y in s && fields(x) == fields(y) ==> x == y
  {
    forall x, y | x in s && y in s && fields(x) == fields(y) ensures x == y {
      var i :| 0 <= i < |s| && s[i] == x;
      var j :| 0 <= j < |s| && s[j] == y;
    }
  }

  lemma RefsDistinct(s: seq<InputRef>)
    requires DistinctOn(RefKey(), s)
    ensures forall x, y :: x in s && y in s && RefFields()(x) == RefFields()(y) ==> x == y
  {
    forall x, y | x in s && y in s && RefFields()(x) == RefFields()(y) ensures x == y {
      var a, b := RefFields()(x), RefFields()(y);
      assert a[0] == b[0] && a[1] == b[1] && a[2] == b[2];
    }
  }

  lemma CellsDistinct(s: seq<Partition>)
    requires forall i, j :: 0 <= i < j < |s| ==> s[i].Cell() != s[j].Cell()
    ensures forall x, y :: x in s && y in s && PartitionFields()(x) == PartitionFields()(y) ==> x == y
  {
    forall x, y | x in s && y in s && PartitionFields()(x) == PartitionFields()(y) ensures x == y {
      var a, b := PartitionFields()(x), PartitionFields()(y);
      assert a[0] == b[0] && a[1] == b[1];
      var i :| 0 <= i < |s| && s[i] == x;
      var j :| 0 <= j < |s| && s[j] == y;
    }
  }

  lemma {:induction false} SumRowsIsTotal(s: seq<Partition>)
    ensures SumRows(s) == Total(Map((p: Partition) => p.rowCount, s))
    decreases |s|
  {
    if s != [] {
      SumRowsIsTotal(s[..|s| - 1]);
      var counts := Map((p: Partition) => p.rowCount, s);
      assert counts[..|s| - 1] == Map((p: Partition) => p.rowCount, s[..|s| - 1]);
    }
  }

  lemma SumRowsPermutes(a: seq<Partition>, b: seq<Partition>)
    requires multiset(a) == multiset(b)
    ensures SumRows(a) == SumRows(b)
  {
    SumRowsIsTotal(a);
    SumRowsIsTotal(b);
    MapPermutes((p: Partition) => p.rowCount, a, b);
    TotalPermutes(Map((p: Partition) => p.rowCount, a), Map((p: Partition) => p.rowCount, b));
  }

  lemma PartitionsGoodMoves(points: seq<Point>, universe: seq<Member>, a: seq<Partition>, b: seq<Partition>)
    requires multiset(a) == multiset(b) && PartitionsGood(points, universe, a)
    ensures PartitionsGood(points, universe, b)
  {
    SameMembers(a, b);
    hide PartitionGood;
    forall i | 0 <= i < |b| ensures PartitionGood(points, universe, b[i]) {
      assert b[i] in a;
      var k :| 0 <= k < |a| && a[k] == b[i];
    }
    forall i, j | 0 <= i < j < |b| ensures b[i].Cell() != b[j].Cell() && b[i].childArtifactId != b[j].childArtifactId {
      var k, l := TwoPlaces(a, b, i, j);
    }
  }

  lemma FitnessGoodMoves(a: seq<Fitness>, b: seq<Fitness>)
    requires multiset(a) == multiset(b) && FitnessGood(a)
    ensures FitnessGood(b)
  {
    SameMembers(a, b);
    DistinctPermutes(FitnessFields(), a, b);
    forall i | 0 <= i < |b| ensures FitnessValid(b[i]) {
      assert b[i] in a;
    }
  }

  lemma RefsGoodMoves(a: seq<InputRef>, b: seq<InputRef>)
    requires multiset(a) == multiset(b) && RefsGood(a)
    ensures RefsGood(b)
  {
    SameMembers(a, b);
    DistinctPermutes(RefKey(), a, b);
    forall i | 0 <= i < |b| ensures RefValid(b[i]) {
      assert b[i] in a;
    }
  }

  /** The sorted lists of a rearranged registration are the same lists. */
  lemma RearrangedLists(a: Registration, b: Registration)
    requires Rearranged(a, b) && Accepted(b)
    ensures SortOn(PointFields(), a.points) == SortOn(PointFields(), b.points)
    ensures SortOn(MemberFields(), a.universe) == SortOn(MemberFields(), b.universe)
    ensures SortOn(FitnessFields(), TrimmedFitness(a)) == SortOn(FitnessFields(), TrimmedFitness(b))
    ensures SortOn(RefFields(), TrimmedRefs(a)) == SortOn(RefFields(), TrimmedRefs(b))
    ensures SortOn(PartitionFields(), TrimmedPartitions(a)) == SortOn(PartitionFields(), TrimmedPartitions(b))
    ensures multiset(TrimmedFitness(a)) == multiset(TrimmedFitness(b)) && multiset(TrimmedRefs(a)) == multiset(TrimmedRefs(b))
    ensures multiset(TrimmedPartitions(a)) == multiset(TrimmedPartitions(b))
  {
    MapPermutes((f: Fitness) => TrimFitness(f), a.fitness, b.fitness);
    MapPermutes((x: InputRef) => TrimRef(x), a.refs, b.refs);
    MapPermutes((p: Partition) => TrimPartition(p), a.partitions, b.partitions);
    GoodPointsDistinct(b.points);
    GoodMembersDistinct(b.universe);
    DistinctMeansDistinct(FitnessFields(), TrimmedFitness(b));
    RefsDistinct(TrimmedRefs(b));
    CellsDistinct(TrimmedPartitions(b));
    hide TrimmedFitness, TrimmedRefs, TrimmedPartitions, SortOn, PointsGood, UniverseGood, FitnessGood, RefsGood, PartitionsGood, SumRows;
    SortOnForgetsOrder(PointFields(), b.points, a.points);
    SortOnForgetsOrder(MemberFields(), b.universe, a.universe);
    SortOnForgetsOrder(FitnessFields(), TrimmedFitness(b), TrimmedFitness(a));
    SortOnForgetsOrder(RefFields(), TrimmedRefs(b), TrimmedRefs(a));
    SortOnForgetsOrder(PartitionFields(), TrimmedPartitions(b), TrimmedPartitions(a));
  }

  /** Handing the lists over in another order changes neither acceptance nor the canonical form. */
  lemma OrderIrrelevant(a: Registration, b: Registration)
    requires Rearranged(a, b) && Accepted(b)
    ensures Accepted(a) && Canonical(a) == Canonical(b)
  {
    hide HeaderGood, TrimHeader;
    RearrangedLists(a, b);
    FitnessGoodMoves(TrimmedFitness(b), TrimmedFitness(a));
    RefsGoodMoves(TrimmedRefs(b), TrimmedRefs(a));
    PartitionsGoodMoves(SortOn(PointFields(), b.points), SortOn(MemberFields(), b.universe), TrimmedPartitions(b), TrimmedPartitions(a));
    SumRowsPermutes(TrimmedPartitions(b), TrimmedPartitions(a));
    SameMembers(a.partitions, b.partitions);
    hide TrimmedFitness, TrimmedRefs, TrimmedPartitions, SortOn, PointsGood, UniverseGood, FitnessGood, RefsGood, PartitionsGood, SumRows;
  }

  lemma TrimmedOnce(p: Partition)
    ensures TrimPartition(TrimPartition(p)) == TrimPartition(p)
  {
    TrimSpaceTrims(p.securityId);
    TrimSpaceTrims(p.childArtifactId);
    TrimSpaceTrims(p.manifestPath);
    TrimSpaceTrims(p.manifestSha256);
    TrimSpaceTrims(p.partPath);
    TrimSpaceTrims(p.partSha256);
    hide TrimSpace;
  }

  lemma HeaderTrimmedOnce(h: Header)
    ensures TrimHeader(TrimHeader(h)) == TrimHeader(h)
  {
    TrimmedAlready("published");
    TrimSpaceTrims(h.artifactId);
    TrimSpaceTrims(h.artifactVersion);
    TrimSpaceTrims(h.featureSet);
    TrimSpaceTrims(h.featureSetVersion);
    TrimSpaceTrims(h.registrySha256);
    TrimSpaceTrims(h.generatorVersion);
    TrimSpaceTrims(h.gitCommit);
    TrimSpaceTrims(h.universeFingerprint);
    TrimSpaceTrims(h.inputFingerprint);
    TrimSpaceTrims(h.outputManifestPath);
    TrimSpaceTrims(h.outputManifestSha256);
    TrimSpaceTrims(h.calendarDataSourceId);
    TrimSpaceTrims(h.calendarMic);
    TrimSpaceTrims(h.calendarVersion);
    TrimSpaceTrims(h.calendarSessionFingerprint);
    TrimSpaceTrims(h.decisionClockPolicy);
    TrimSpaceTrims(h.status);
    hide TrimSpace;
  }

  /** The same registration with its texts already trimmed. */
  function Trimmed(r: Registration): Registration
  {
    r.(header := TrimHeader(r.header), fitness := TrimmedFitness(r), refs := TrimmedRefs(r), partitions := TrimmedPartitions(r))
  }

  lemma TrimmedTrims(r: Registration)
    ensures TrimmedFitness(Trimmed(r)) == TrimmedFitness(r) && TrimmedRefs(Trimmed(r)) == TrimmedRefs(r)
    ensures TrimmedPartitions(Trimmed(r)) == TrimmedPartitions(r)
    ensures Accepted(r) ==> Accepted(Trimmed(r))
    ensures Canonical(Trimmed(r)) == Canonical(r)
  {
    hide TrimSpace, SortOn, PointsGood, UniverseGood, FitnessGood, RefsGood, PartitionsGood, SumRows, HeaderGood;
    HeaderTrimmedOnce(r.header);
    forall i | 0 <= i < |r.fitness| ensures TrimFitness(TrimFitness(r.fitness[i])) == TrimFitness(r.fitness[i]) {
      TrimSpaceTrims(r.fitness[i].dataset);
      TrimSpaceTrims(r.fitness[i].historicalFitness);
      TrimSpaceTrims(r.fitness[i].availabilityPolicy);
    }
    forall i | 0 <= i < |r.refs| ensures TrimRef(TrimRef(r.refs[i])) == TrimRef(r.refs[i]) {
      TrimSpaceTrims(r.refs[i].kind);
      TrimSpaceTrims(r.refs[i].path);
      TrimSpaceTrims(r.refs[i].sha256);
    }
    forall i | 0 <= i < |r.partitions| ensures TrimPartition(TrimPartition(r.partitions[i])) == TrimPartition(r.partitions[i]) {
      TrimmedOnce(r.partitions[i]);
    }
    hide TrimHeader, TrimFitness, TrimRef, TrimPartition;
    assert TrimmedFitness(Trimmed(r)) == TrimmedFitness(r);
    assert TrimmedRefs(Trimmed(r)) == TrimmedRefs(r);
    assert TrimmedPartitions(Trimmed(r)) == TrimmedPartitions(r);
  }

  /** A canonical registration is accepted again and is its own canonical form. */
  lemma CanonicalIdempotent(r: Registration)
    requires Accepted(r)
    ensures Accepted(Canonical(r)) && Canonical(Canonical(r)) == Canonical(r)
  {
    TrimmedTrims(r);
    CanonicalRearranges(r);
    OrderIrrelevant(Canonical(r), Trimmed(r));
  }

  lemma CanonicalRearranges(r: Registration)
    ensures Rearranged(Canonical(r), Trimmed(r))
  {
    SortByElements(ByFields(PointFields()), r.points);
    SortByElements(ByFields(MemberFields()), r.universe);
    SortByElements(ByFields(FitnessFields()), TrimmedFitness(r));
    SortByElements(ByFields(RefFields()), TrimmedRefs(r));
    SortByElements(ByFields(PartitionFields()), TrimmedPartitions(r));
    hide SortBy, TrimmedFitness, TrimmedRefs, TrimmedPartitions;
  }

  // ---------- what the catalog says about an accepted registration ----------

  function StoredPoint(p: Point): Point { p.(decisionAt := CanonicalTime(p.decisionAt)) }

  function StoredPartition(p: Partition): Partition { p.(decisionAt := CanonicalTime(p.decisionAt)) }

  function PointTime(): Point -> seq<Part> { (p: Point) => [Number(p.decisionAt)] }

  function MemberId(): Member -> seq<Part> { (m: Member) => [Word(m.securityId)] }

  function ChildId(): Partition -> seq<Part> { (p: Partition) => [Word(p.childArtifactId)] }

  /** The rows one artifact has in its child tables. */
  datatype Lineage = Lineage(points: seq<Point>, universe: seq<Member>, refs: seq<InputRef>, fitness: seq<Fitness>, partitions: seq<Partition>)

  function LineageOf(c: Registration): Lineage
  {
    Lineage(Map((p: Point) => StoredPoint(p), c.points), c.universe, c.refs, c.fitness, Map((p: Partition) => StoredPartition(p), c.partitions))
  }

  /** No row repeats a primary or a unique key of its table. */
  ghost predicate KeysUnique(rows: Lineage)
  {
    && DistinctOn(PointFields(), rows.points) && DistinctOn(PointTime(), rows.points)
    && DistinctOn(MemberFields(), rows.universe) && DistinctOn(MemberId(), rows.universe)
    && DistinctOn(RefKey(), rows.refs)
    && DistinctOn(FitnessFields(), rows.fitness)
    && DistinctOn(PartitionFields(), rows.partitions) && DistinctOn(ChildId(), rows.partitions)
  }

  /** Inserts rows one by one into a table with two unique keys; None when a key is taken. */
  method InsertRows<T>(rows: seq<T>, primary: T -> seq<Part>, unique: T -> seq<Part>) returns (table: Option<seq<T>>)
    ensures table.Some? <==> DistinctOn(primary, rows) && DistinctOn(unique, rows)
    ensures table.Some? ==> table.value == rows
  {
    var inserted: seq<T> := [];
    var primaryKeys: set<seq<Part>>, uniqueKeys: set<seq<Part>> := {}, {};
    for i := 0 to |rows|
      invariant inserted == rows[..i]
      invariant forall k :: k in primaryKeys <==> exists j :: 0 <= j < i && primary(rows[j]) == k
      invariant forall k :: k in uniqueKeys <==> exists j :: 0 <= j < i && unique(rows[j]) == k
      invariant DistinctOn(primary, rows[..i]) && DistinctOn(unique, rows[..i])
    {
      if primary(rows[i]) in primaryKeys || unique(rows[i]) in uniqueKeys {
        return None;
      }
      primaryKeys, uniqueKeys := primaryKeys + {primary(rows[i])}, uniqueKeys + {unique(rows[i])};
      inserted := inserted + [rows[i]];
    }
    assert rows[..|rows|] == rows;
    return Some(inserted);
  }

  /** The five loops of one transaction; any refused row rolls everything back. */
  method InsertFeatureArtifactLineage(c: Registration) returns (stored: Option<Lineage>)
    ensures stored.Some? <==> KeysUnique(LineageOf(c))
    ensures stored.Some? ==> stored.value == LineageOf(c)
  {
    hide DistinctOn;
    var rows := LineageOf(c);
    var points := InsertRows(rows.points, PointFields(), PointTime());
    if points.None? {
      return None;
    }
    var universe := InsertRows(rows.universe, MemberFields(), MemberId());
    if universe.None? {
      return None;
    }
    var refs := InsertRows(rows.refs, RefKey(), RefKey());
    if refs.None? {
      return None;
    }
    var fitness := InsertRows(rows.fitness, FitnessFields(), FitnessFields());
    if fitness.None? {
      return None;
    }
    var partitions := InsertRows(rows.partitions, PartitionFields(), ChildId());
    if partitions.None? {
      return None;
    }
    return Some(Lineage(points.value, universe.value, refs.value, fitness.value, partitions.value));
  }

  /** No two decisions fall into one microsecond. */
  predicate Apart(points: seq<Point>)
  {
    forall i, j :: 0 <= i < j < |points| ==> CanonicalTime(points[i].decisionAt) != CanonicalTime(points[j].decisionAt)
  }

  lemma ApartMoves(a: seq<Point>, b: seq<Point>)
    requires multiset(a) == multiset(b) && Apart(a)
    ensures Apart(b)
  {
    hide CanonicalTime;
    forall i, j | 0 <= i < j < |b| ensures CanonicalTime(b[i].decisionAt) != CanonicalTime(b[j].decisionAt) {
      var k, l := TwoPlaces(a, b, i, j);
    }
  }

  lemma StoredPointsDistinct(points: seq<Point>)
    requires PointsGood(points)
    ensures var stored := Map((p: Point) => StoredPoint(p), points);
            DistinctOn(PointFields(), stored) && (DistinctOn(PointTime(), stored) <==> Apart(points))
  {
    var stored := Map((p: Point) => StoredPoint(p), points);
    hide CanonicalTime;
    forall i, j | 0 <= i < j < |stored| ensures PointFields()(stored[i]) != PointFields()(stored[j]) {
      assert PointFields()(stored[i])[0] == Number(i) && PointFields()(stored[j])[0] == Number(j);
    }
    forall i | 0 <= i < |stored| ensures PointTime()(stored[i]) == [Number(CanonicalTime(points[i].decisionAt))] {
    }
    if DistinctOn(PointTime(), stored) {
      forall i, j | 0 <= i < j < |points| ensures CanonicalTime(points[i].decisionAt) != CanonicalTime(points[j].decisionAt) {
        assert PointTime()(stored[i]) != PointTime()(stored[j]);
      }
    }
    if Apart(points) {
      forall i, j | 0 <= i < j < |stored| ensures PointTime()(stored[i]) != PointTime()(stored[j]) {
        assert PointTime()(stored[i])[0] == Number(CanonicalTime(points[i].decisionAt)) && PointTime()(stored[j])[0] == Number(CanonicalTime(points[j].decisionAt));
      }
    }
  }

  lemma MembersDistinct(universe: seq<Member>)
    requires UniverseGood(universe)
    ensures DistinctOn(MemberFields(), universe) && DistinctOn(MemberId(), universe)
  {
    forall i, j | 0 <= i < j < |universe| ensures MemberFields()(universe[i]) != MemberFields()(universe[j]) && MemberId()(universe[i]) != MemberId()(universe[j]) {
      assert MemberFields()(universe[i])[0] == Number(i) && MemberFields()(universe[j])[0] == Number(j);
      assert MemberId()(universe[i])[0] == Word(universe[i].securityId) && MemberId()(universe[j])[0] == Word(universe[j].securityId);
    }
  }

  /** Cells stay apart in storage when the decisions do. */
  lemma StoredCellsDistinct(points: seq<Point>, universe: seq<Member>, partitions: seq<Partition>)
    requires Apart(points) && PartitionsGood(points, universe, partitions)
    ensures var stored := Map((p: Partition) => StoredPartition(p), partitions);
            DistinctOn(PartitionFields(), stored) && DistinctOn(ChildId(), stored)
  {
    var stored := Map((p: Partition) => StoredPartition(p), partitions);
    hide CanonicalTime;
    forall i, j | 0 <= i < j < |stored| ensures PartitionFields()(stored[i]) != PartitionFields()(stored[j]) && ChildId()(stored[i]) != ChildId()(stored[j]) {
      var a, b := partitions[i], partitions[j];
      assert PartitionGood(points, universe, a) && PartitionGood(points, universe, b) && a.Cell() != b.Cell();
      var k :| 0 <= k < |points| && points[k].decisionAt == a.decisionAt;
      var l :| 0 <= l < |points| && points[l].decisionAt == b.decisionAt;
      assert PartitionFields()(stored[i])[0] == Number(CanonicalTime(a.decisionAt)) && PartitionFields()(stored[j])[0] == Number(CanonicalTime(b.decisionAt));
      assert PartitionFields()(stored[i])[1] == Word(a.securityId) && PartitionFields()(stored[j])[1] == Word(b.securityId);
      assert ChildId()(stored[i])[0] == Word(a.childArtifactId) && ChildId()(stored[j])[0] == Word(b.childArtifactId);
    }
  }

  lemma AcceptedKeys(r: Registration)
    requires Accepted(r)
    ensures DistinctOn(RefKey(), Canonical(r).refs) && DistinctOn(FitnessFields(), Canonical(r).fitness)
  {
    hide SortBy, PointsGood, UniverseGood, PartitionsGood, SumRows, TrimmedFitness, TrimmedRefs, TrimmedPartitions, DistinctOn, FitnessValid;
    SortByElements(ByFields(RefFields()), TrimmedRefs(r));
    SortByElements(ByFields(FitnessFields()), TrimmedFitness(r));
    DistinctPermutes(RefKey(), TrimmedRefs(r), Canonical(r).refs);
    DistinctPermutes(FitnessFields(), TrimmedFitness(r), Canonical(r).fitness);
  }

  /** An accepted registration can be stored exactly when no two of its decisions fall into one microsecond. */
  lemma StoresIffApart(r: Registration)
    requires Accepted(r)
    ensures KeysUnique(LineageOf(Canonical(r))) <==> Apart(r.points)
  {
    hide Accepted, Canonical, Apart, DistinctOn, PointsGood, UniverseGood, PartitionsGood, SumRows, CountsGood;
    var c := Canonical(r);
    AcceptedCanonical(r);
    AcceptedKeys(r);
    CanonicalPoints(r);
    StoredPointsDistinct(c.points);
    MembersDistinct(c.universe);
    if Apart(c.points) {
      ApartMoves(c.points, r.points);
      StoredCellsDistinct(c.points, c.universe, c.partitions);
    }
    if Apart(r.points) {
      ApartMoves(r.points, c.points);
    }
  }

  lemma CanonicalPoints(r: Registration)
    ensures multiset(Canonical(r).points) == multiset(r.points)
  {
    SortByElements(ByFields(PointFields()), r.points);
    hide SortBy;
  }

  // ---------- the column checks ----------

  /** The checks on the columns of the six tables. */
  predicate ChecksHold(c: Registration, rows: Lineage)
  {
    && HeaderFits(c.header) && CountsFit(c) && TimesFit(c, rows.points) && RowsFit(rows)
  }

  predicate HeaderFits(h: Header)
  {
    && IsVersion(h.artifactVersion) && IsName(h.featureSet) && IsVersion(h.featureSetVersion) && IsColumnPath(h.outputManifestPath)
    && IsLowerHex(h.registrySha256, 64) && IsLowerHex(h.universeFingerprint, 64) && IsLowerHex(h.inputFingerprint, 64)
    && IsLowerHex(h.outputManifestSha256, 64) && IsLowerHex(h.calendarSessionFingerprint, 64)
    && h.generatorVersion != "" && ValidGitCommit(h.gitCommit) && IsMic(h.calendarMic) && IsName(h.calendarVersion)
    && h.decisionClockPolicy != "" && h.status in {"published", "invalid", "orphaned"}
  }

  predicate CountsFit(c: Registration)
  {
    c.rowCount >= 0 && c.requested > 0 && c.accepted >= 0 && c.rejected >= 0 && c.requested == c.accepted + c.rejected
  }

  /** The decision range and the calendar boundary, to the microsecond. */
  predicate TimesFit(c: Registration, points: seq<Point>)
  {
    points != [] && points[0].decisionAt <= points[|points| - 1].decisionAt && CanonicalTime(c.calendarAvailableAt) <= points[0].decisionAt
  }

  predicate RowsFit(rows: Lineage)
  {
    && (forall i :: 0 <= i < |rows.points| ==> rows.points[i].ordinal >= 0)
    && (forall i :: 0 <= i < |rows.universe| ==> rows.universe[i].ordinal >= 0)
    && (forall i :: 0 <= i < |rows.refs| ==> RefFits(rows.refs[i]))
    && (forall i :: 0 <= i < |rows.fitness| ==> FitnessValid(rows.fitness[i]))
    && (forall i :: 0 <= i < |rows.partitions| ==> PartitionFits(rows.partitions[i]))
  }

  predicate RefFits(r: InputRef) { r.kind in {"manifest", "part"} && IsColumnPath(r.path) && IsLowerHex(r.sha256, 64) }

  predicate PartitionFits(p: Partition)
  {
    && IsColumnPath(p.manifestPath) && IsColumnPath(p.partPath) && IsLowerHex(p.manifestSha256, 64) && IsLowerHex(p.partSha256, 64)
    && p.rowCount > 0
  }

  /** No path of the registration has two dots in a row. */
  predicate NoTwoDots(r: Registration)
  {
    && !HasTwoDots(r.header.outputManifestPath)
    && (forall i :: 0 <= i < |r.refs| ==> !HasTwoDots(r.refs[i].path))
    && (forall i :: 0 <= i < |r.partitions| ==> !HasTwoDots(r.partitions[i].manifestPath) && !HasTwoDots(r.partitions[i].partPath))
  }

  /** A trimmed path that the registration takes fails its column only for two dots in a row. */
  lemma SafePathFits(path: string)
    requires IsSafePath(path) && TrimSpace(path) == path
    ensures IsColumnPath(path) <==> !HasTwoDots(path)
  {
    TrimSpaceTrims(path);
    hide TrimSpace;
    assert path[0] != ' ' && path[0] in path;
  }

  /** Every text of the canonical form is trimmed. */
  ghost predicate PathsTrimmed(c: Registration)
  {
    && TrimSpace(c.header.outputManifestPath) == c.header.outputManifestPath
    && (forall i :: 0 <= i < |c.refs| ==> TrimSpace(c.refs[i].path) == c.refs[i].path)
    && (forall i :: 0 <= i < |c.partitions| ==> TrimSpace(c.partitions[i].manifestPath) == c.partitions[i].manifestPath && TrimSpace(c.partitions[i].partPath) == c.partitions[i].partPath)
  }

  lemma CanonicalPaths(r: Registration)
    ensures PathsTrimmed(Canonical(r))
  {
    var c := Canonical(r);
    TrimSpaceTrims(r.header.outputManifestPath);
    SortByElements(ByFields(RefFields()), TrimmedRefs(r));
    SortByElements(ByFields(PartitionFields()), TrimmedPartitions(r));
    SameMembers(c.refs, TrimmedRefs(r));
    SameMembers(c.partitions, TrimmedPartitions(r));
    hide TrimSpace, SortBy;
    forall i | 0 <= i < |c.refs| ensures TrimSpace(c.refs[i].path) == c.refs[i].path {
      assert c.refs[i] in TrimmedRefs(r);
      var k :| 0 <= k < |r.refs| && TrimmedRefs(r)[k] == c.refs[i];
      TrimSpaceTrims(r.refs[k].path);
    }
    forall i | 0 <= i < |c.partitions| ensures TrimSpace(c.partitions[i].manifestPath) == c.partitions[i].manifestPath && TrimSpace(c.partitions[i].partPath) == c.partitions[i].partPath {
      assert c.partitions[i] in TrimmedPartitions(r);
      var k :| 0 <= k < |r.partitions| && TrimmedPartitions(r)[k] == c.partitions[i];
      TrimSpaceTrims(r.partitions[k].manifestPath);
      TrimSpaceTrims(r.partitions[k].partPath);
    }
  }

  lemma HeaderChecks(h: Header)
    requires HeaderGood(h) && TrimSpace(h.outputManifestPath) == h.outputManifestPath
    ensures HeaderFits(h) <==> !HasTwoDots(h.outputManifestPath)
  {
    SafePathFits(h.outputManifestPath);
    hide IsUuid, IsVersion, IsName, IsLowerHex, IsSafePath, IsColumnPath, HasTwoDots, IsMic, ValidGitCommit, TrimSpace;
  }

  lemma RowChecks(c: Registration)
    requires PathsTrimmed(c) && PointsGood(c.points) && UniverseGood(c.universe) && RefsGood(c.refs) && FitnessGood(c.fitness) && PartitionsGood(c.points, c.universe, c.partitions)
    ensures var rows := LineageOf(c);
            && (forall i :: 0 <= i < |rows.points| ==> rows.points[i].ordinal >= 0) && (forall i :: 0 <= i < |rows.universe| ==> rows.universe[i].ordinal >= 0)
            && (forall i :: 0 <= i < |rows.fitness| ==> FitnessValid(rows.fitness[i]))
            && (forall i :: 0 <= i < |rows.refs| ==> (RefFits(rows.refs[i]) <==> !HasTwoDots(c.refs[i].path)))
            && |rows.partitions| == |c.partitions| && rows.refs == c.refs
            && (forall i :: 0 <= i < |rows.partitions| ==> (PartitionFits(rows.partitions[i]) <==> !HasTwoDots(c.partitions[i].manifestPath) && !HasTwoDots(c.partitions[i].partPath)))
  {
    hide IsUuid, IsName, IsLowerHex, IsSafePath, IsColumnPath, HasTwoDots, TrimSpace, DistinctOn, CanonicalTime;
    forall i | 0 <= i < |c.refs| ensures RefFits(c.refs[i]) <==> !HasTwoDots(c.refs[i].path) {
      assert RefValid(c.refs[i]);
      SafePathFits(c.refs[i].path);
    }
    forall i | 0 <= i < |c.partitions|
      ensures PartitionFits(StoredPartition(c.partitions[i])) <==> !HasTwoDots(c.partitions[i].manifestPath) && !HasTwoDots(c.partitions[i].partPath)
    {
      assert PartitionGood(c.points, c.universe, c.partitions[i]);
      SafePathFits(c.partitions[i].manifestPath);
      SafePathFits(c.partitions[i].partPath);
    }
  }

  lemma TimesFitAnyway(c: Registration)
    requires PointsGood(c.points) && c.calendarAvailableAt <= c.points[0].decisionAt
    ensures TimesFit(c, LineageOf(c).points)
  {
    var last := |c.points| - 1;
    PointsRise(c.points, last);
    CanonicalMonotone(c.calendarAvailableAt, c.points[0].decisionAt);
    CanonicalMonotone(c.points[0].decisionAt, c.points[last].decisionAt);
  }

  lemma CalendarFirst(r: Registration)
    requires Accepted(r)
    ensures Canonical(r).points != [] && Canonical(r).calendarAvailableAt <= Canonical(r).points[0].decisionAt
  {
    hide HeaderGood, RefsGood, FitnessGood, UniverseGood, PartitionsGood, SumRows, SortOn, TrimHeader, TrimmedFitness, TrimmedRefs, TrimmedPartitions;
  }

  lemma {:induction false} PointsRise(points: seq<Point>, i: nat)
    requires PointsGood(points) && i < |points|
    ensures points[0].decisionAt <= points[i].decisionAt
  {
    if i > 0 {
      PointsRise(points, i - 1);
    }
  }

  lemma CanonicalListsGood(r: Registration)
    requires Accepted(r)
    ensures HeaderGood(Canonical(r).header) && RefsGood(Canonical(r).refs) && FitnessGood(Canonical(r).fitness)
  {
    CanonicalRearranges(r);
    hide HeaderGood, RefsGood, FitnessGood, PointsGood, UniverseGood, PartitionsGood, SumRows, SortOn, TrimHeader, TrimmedFitness, TrimmedRefs, TrimmedPartitions;
    FitnessGoodMoves(TrimmedFitness(r), Canonical(r).fitness);
    RefsGoodMoves(TrimmedRefs(r), Canonical(r).refs);
  }

  /** Two dots in a row are all that is left for the column checks to refuse. */
  lemma ChecksIffNoTwoDots(r: Registration)
    requires Accepted(r)
    ensures ChecksHold(Canonical(r), LineageOf(Canonical(r))) <==> NoTwoDots(Canonical(r))
  {
    hide Canonical, Accepted, PointsGood, UniverseGood, RefsGood, FitnessGood, PartitionsGood, HeaderGood, HeaderFits, TimesFit, FitnessValid, RefFits, PartitionFits, IsUuid, IsVersion, IsName, IsLowerHex,
         IsSafePath, IsColumnPath, HasTwoDots, IsMic, ValidGitCommit, TrimSpace, LineageOf, SumRows;
    var c := Canonical(r);
    CanonicalPaths(r);
    AcceptedCanonical(r);
    CanonicalListsGood(r);
    CalendarFirst(r);
    RowChecks(c);
    TimesFitAnyway(c);
    HeaderChecks(c.header);
  }

  /** An accepted registration can be stored exactly when its decisions are a microsecond apart and no path has two dots in a row. */
  lemma StoresIff(r: Registration)
    requires Accepted(r)
    ensures KeysUnique(LineageOf(Canonical(r))) && ChecksHold(Canonical(r), LineageOf(Canonical(r))) <==> Apart(r.points) && NoTwoDots(Canonical(r))
  {
    StoresIffApart(r);
    ChecksIffNoTwoDots(r);
  }

  // ---------- registering ----------

  /** One row of feature_artifacts with its child rows; the registration stands for its hash. */
  datatype Artifact = Artifact(registration: Registration, lineage: Lineage)

  type Artifacts = map<string, Artifact>

  /** The columns of the content index. */
  function Content(c: Registration): (string, string, string) { (c.header.featureSet, c.header.featureSetVersion, c.header.inputFingerprint) }

  predicate ContentTaken(rows: Artifacts, c: Registration)
  {
    exists id | id in rows :: Content(rows[id].registration) == Content(c)
  }

  datatype RegisterError = Invalid(cause: RegistrationError) | NotPublished | Conflict | Refused

  /** What one call answers: whether the artifact was there already. */
  ghost predicate Registers(rows: Artifacts, r: Registration, after: Artifacts, reply: Result<bool, RegisterError>)
  {
    var c := Canonical(r);
    var id := c.header.artifactId;
    if !Accepted(r) then reply.Err? && reply.error.Invalid? && after == rows
    else if c.header.status != "published" then reply == Err(NotPublished) && after == rows
    else if id in rows then reply == (if rows[id].registration == c then Ok(true) else Err(Conflict)) && after == rows
    else if ContentTaken(rows, c) || !Apart(r.points) || !NoTwoDots(c) then reply == Err(Refused) && after == rows
    else reply == Ok(false) && after == rows[id := Artifact(c, LineageOf(c))]
  }

  /** Everything stored was accepted, is canonical, and differs from every other artifact in its content columns. */
  ghost predicate Registered(rows: Artifacts)
  {
    && (forall id :: id in rows ==>
          && rows[id].registration.header.artifactId == id && rows[id].lineage == LineageOf(rows[id].registration)
          && Accepted(rows[id].registration) && Canonical(rows[id].registration) == rows[id].registration && KeysUnique(rows[id].lineage))
    && (forall a, b :: a in rows && b in rows && a != b ==> Content(rows[a].registration) != Content(rows[b].registration))
  }

  lemma AddingKeeps(rows: Artifacts, c: Registration)
    requires Registered(rows) && Accepted(c) && Canonical(c) == c && KeysUnique(LineageOf(c)) && c.header.artifactId !in rows && !ContentTaken(rows, c)
    ensures Registered(rows[c.header.artifactId := Artifact(c, LineageOf(c))])
  {
    hide Accepted, Canonical, LineageOf, KeysUnique;
  }

  lemma RegisteringKeeps(rows: Artifacts, r: Registration, after: Artifacts, reply: Result<bool, RegisterError>)
    requires Registered(rows) && Registers(rows, r, after, reply)
    ensures Registered(after) && forall id :: id in rows ==> id in after && after[id] == rows[id]
  {
    hide Accepted, Canonical, LineageOf, KeysUnique, Apart, NoTwoDots, ChecksHold, Registered, ContentTaken;
    if Accepted(r) && after != rows {
      CanonicalIdempotent(r);
      StoresIff(r);
      AddingKeeps(rows, Canonical(r));
    }
  }

  class ArtifactStore {
    var rows: Artifacts

    ghost predicate Valid() reads this { Registered(rows) }

    constructor ()
      ensures Valid() && rows == map[]
    {
      rows := map[];
    }

    /** One transaction: the artifact row, then its child rows, all or nothing. */
    method RegisterFeatureArtifact(r: Registration) returns (reply: Result<bool, RegisterError>)
      requires Valid()
      modifies this
      ensures Valid() && Registers(old(rows), r, rows, reply)
    {
      hide Accepted, Canonical, LineageOf, KeysUnique, Apart, NoTwoDots, ChecksHold, Registered;
      ghost var before := rows;
      var normalized := Normalized(r);
      if normalized.Err? {
        return Err(Invalid(normalized.error));
      }
      var c := normalized.value;
      if c.header.status != "published" {
        return Err(NotPublished);
      }
      var id := c.header.artifactId;
      if id in rows {
        return if rows[id].registration == c then Ok(true) else Err(Conflict);
      }
      StoresIff(r);
      if ContentTaken(rows, c) {
        return Err(Refused);
      }
      var lineage := InsertFeatureArtifactLineage(c);
      if lineage.None? || !ChecksHold(c, lineage.value) {
        return Err(Refused);
      }
      rows := rows[id := Artifact(c, lineage.value)];
      RegisteringKeeps(before, r, rows, Ok(false));
      return Ok(false);
    }
  }

  // ---------- accepted registrations that cannot be stored ----------

  /** Two decisions, one security and no partition. */
  function Sample(path: string, second: int): Registration
  {
    Registration(
      Header(NilUuid(), "1.0.0", "prices", "1.0.0", ZeroHash(), "v1", "unknown", ZeroHash(), ZeroHash(), path, ZeroHash(), NilUuid(), "XNAS", "v1", ZeroHash(), "close", "published", 0),
      0, 2, 0, 2, 1000, [Point(0, 1000), Point(1, second)], [Member(0, NilUuid())], [Fitness("prices", "unsupported", "unknown")], [], [])
  }

  /** Two decisions a nanosecond apart are accepted, but their rows have one key. */
  lemma SharedMicrosecondIsRefused()
    ensures Accepted(Sample("part", 1001)) && !KeysUnique(LineageOf(Canonical(Sample("part", 1001))))
  {
    SampleIsAccepted("part", 1001);
    hide Accepted, Canonical, LineageOf, KeysUnique, TrimSpace;
    var r := Sample("part", 1001);
    StoresIffApart(r);
    assert CanonicalTime(r.points[0].decisionAt) == CanonicalTime(r.points[1].decisionAt);
  }

  /** Two dots inside a component are accepted and refused by the column. */
  lemma TwoDotsAreRefused()
    ensures Accepted(Sample("v1..2", 5000)) && KeysUnique(LineageOf(Canonical(Sample("v1..2", 5000))))
    ensures !ChecksHold(Canonical(Sample("v1..2", 5000)), LineageOf(Canonical(Sample("v1..2", 5000))))
  {
    hide Accepted, Canonical, LineageOf, KeysUnique, TrimSpace, ChecksHold, HasTwoDots;
    var r := Sample("v1..2", 5000);
    assert TrimSpace("v1..2") == "v1..2" by {
      TrimmedAlready("v1..2");
    }
    SampleIsAccepted("v1..2", 5000);
    CanonicalOutput(r);
    StoresIff(r);
    StoresIffApart(r);
    assert CanonicalTime(1000) == 1000 && CanonicalTime(5000) == 5000;
    DotsInside();
  }

  lemma DotsInside()
    ensures HasTwoDots("v1..2")
  {
    assert "v1..2"[2] == '.' && "v1..2"[3] == '.';
  }

  lemma CanonicalOutput(r: Registration)
    ensures Canonical(r).header.outputManifestPath == TrimSpace(r.header.outputManifestPath)
  {
  }

  lemma SampleIsAccepted(path: string, second: int)
    requires path != "" && path != "." && path != ".." && '/' !in path && '\\' !in path && '\0' !in path
    requires TrimSpace(path) == path && second > 1000
    ensures Accepted(Sample(path, second))
  {
    hide SortOn, TrimmedFitness, FitnessGood, TrimmedRefs, TrimmedPartitions, PartitionsGood, SumRows, RefsGood, PointFields, MemberFields, TrimHeader, HeaderGood;
    var r := Sample(path, second);
    LabelsGood(r);
    NothingListed(r);
    TwoPointsGood(second);
    OneMemberGood(r);
    SampleHeaderGood(path, second);
    hide PointsGood, UniverseGood;
  }

  lemma NamesFit()
    ensures IsName("prices") && IsName("v1") && IsMic("XNAS")
  {
  }

  lemma WordsTrimmed()
    ensures TrimSpace("1.0.0") == "1.0.0" && TrimSpace("prices") == "prices" && TrimSpace("v1") == "v1" && TrimSpace("unknown") == "unknown"
    ensures TrimSpace("XNAS") == "XNAS" && TrimSpace("close") == "close" && TrimSpace("published") == "published"
  {
    TrimmedAlready("1.0.0");
    TrimmedAlready("prices");
    TrimmedAlready("v1");
    TrimmedAlready("unknown");
    TrimmedAlready("XNAS");
    TrimmedAlready("close");
    TrimmedAlready("published");
  }

  lemma SampleHeaderGood(path: string, second: int)
    requires path != "" && path != "." && path != ".." && '/' !in path && '\\' !in path && '\0' !in path && TrimSpace(path) == path
    ensures HeaderGood(TrimHeader(Sample(path, second).header))
  {
    hide TrimSpace, IsSafePath, IsVersion, IsName, IsMic, IsLowerHex, IsUuid, ZeroHash, NilUuid;
    UuidTrimmed(NilUuid());
    HashTrimmed(ZeroHash());
    WordsTrimmed();
    VersionOne();
    assert IsName("prices") && IsName("v1") && IsMic("XNAS") by {
      NamesFit();
    }
    PlainNameSafe(path);
  }

  lemma TwoPointsGood(second: int)
    requires second > 1000
    ensures var points := SortOn(PointFields(), [Point(0, 1000), Point(1, second)]); PointsGood(points) && points[0].decisionAt == 1000
  {
    SortedAlready(Point(0, 1000), Point(1, second));
    hide SortOn;
  }

  lemma OneMemberGood(r: Registration)
    requires r.universe == [Member(0, NilUuid())]
    ensures UniverseGood(SortOn(MemberFields(), r.universe))
  {
    OneMember(Member(0, NilUuid()));
    hide SortOn;
  }

  lemma NothingListed(r: Registration)
    requires r.refs == [] && r.partitions == []
    ensures RefsGood(TrimmedRefs(r)) && SumRows(TrimmedPartitions(r)) == 0
    ensures PartitionsGood(SortOn(PointFields(), r.points), SortOn(MemberFields(), r.universe), TrimmedPartitions(r))
  {
  }

  lemma OneMember(m: Member)
    ensures SortOn(MemberFields(), [m]) == [m]
  {
    assert [m][1..] == [];
    assert SortBy(ByFields(MemberFields()), [m][1..]) == [];
  }

  lemma LabelsGood(r: Registration)
    requires r.fitness == [Fitness("prices", "unsupported", "unknown")]
    ensures FitnessGood(TrimmedFitness(r))
  {
    TrimmedAlready("prices");
    TrimmedAlready("unsupported");
    TrimmedAlready("unknown");
    hide TrimSpace;
    assert TrimmedFitness(r) == [TrimFitness(r.fitness[0])];
  }

  lemma SortedAlready(a: Point, b: Point)
    requires a.ordinal < b.ordinal
    ensures SortOn(PointFields(), [a, b]) == [a, b]
  {
    var less := ByFields(PointFields());
    assert PointFields()(a)[0] == Number(a.ordinal) && PointFields()(b)[0] == Number(b.ordinal);
    assert [a, b][1..] == [b] && [b][1..] == [];
    assert SortBy(less, [b]) == [b];
    assert !less(b, a);
  }

  // ---------- reading it back ----------

  /** The rows a catalog query returns for a stored canonical registration; `partitions` come back in some order. */
  ghost predicate ReadBack(c: Registration, st: Stored)
  {
    && st.rowCount == c.rowCount && st.requested == c.requested && st.accepted == c.accepted && st.rejected == c.rejected
    && st.points == LineageOf(c).points && st.universe == c.universe && st.fitnessCount == |c.fitness|
    && multiset(st.partitions) == multiset(LineageOf(c).partitions)
  }

  lemma NoCellRepeats(c: Registration, st: Stored, cell: (string, int))
    requires KeysUnique(LineageOf(c)) && ReadBack(c, st)
    ensures !RepeatedCell(st.partitions, cell)
  {
    var stored := LineageOf(c).partitions;
    hide LineageOf, DistinctOn;
    if RepeatedCell(st.partitions, cell) {
      var i, j :| 0 <= i < j < |st.partitions| && st.partitions[i].Cell() == cell && st.partitions[j].Cell() == cell;
      var k, l := TwoPlaces(stored, st.partitions, i, j);
      var a, b := if k < l then k else l, if k < l then l else k;
      SameCellSameKey(stored, a, b);
    }
  }

  lemma SameCellSameKey(stored: seq<Partition>, a: nat, b: nat)
    requires a < b < |stored| && stored[a].Cell() == stored[b].Cell()
    ensures !DistinctOn(PartitionFields(), stored)
  {
    assert PartitionFields()(stored[a]) == PartitionFields()(stored[b]);
  }

  lemma StoredInGrid(c: Registration, st: Stored)
    requires ReadBack(c, st) && PartitionsGood(c.points, c.universe, c.partitions)
    ensures forall i :: 0 <= i < |st.partitions| ==> InUniverse(st.universe, st.partitions[i].securityId) && Scheduled(st.points, st.partitions[i].decisionAt)
  {
    var stored := Map((p: Partition) => StoredPartition(p), c.partitions);
    SameMembers(st.partitions, stored);
    forall i | 0 <= i < |st.partitions| ensures InUniverse(st.universe, st.partitions[i].securityId) && Scheduled(st.points, st.partitions[i].decisionAt) {
      assert st.partitions[i] in stored;
      var k :| 0 <= k < |stored| && stored[k] == st.partitions[i];
      assert PartitionGood(c.points, c.universe, c.partitions[k]);
      var j :| 0 <= j < |c.points| && c.points[j].decisionAt == c.partitions[k].decisionAt;
      assert st.points[j].decisionAt == st.partitions[i].decisionAt;
    }
  }

  lemma StoredRows(c: Registration, st: Stored)
    requires ReadBack(c, st)
    ensures SumRows(st.partitions) == SumRows(c.partitions) && |st.partitions| == |c.partitions|
  {
    var stored := Map((p: Partition) => StoredPartition(p), c.partitions);
    SumRowsPermutes(st.partitions, stored);
    SumRowsIsTotal(stored);
    SumRowsIsTotal(c.partitions);
    assert Map((p: Partition) => p.rowCount, stored) == Map((p: Partition) => p.rowCount, c.partitions);
    SameMembers(st.partitions, stored);
  }

  /**
   An accepted registration that could be stored is reported inconsistent exactly
   when its requested partitions are not decisions times securities.
   */
  lemma CatalogVerdict(r: Registration, st: Stored)
    requires Accepted(r) && KeysUnique(LineageOf(Canonical(r))) && ReadBack(Canonical(r), st)
    ensures !Clean(st) <==> r.requested != |r.points| * |r.universe|
  {
    hide Canonical, Accepted, SumRows, PartitionsGood, KeysUnique, RepeatedCell;
    var c := Canonical(r);
    AcceptedCanonical(r);
    StoredInGrid(c, st);
    StoredRows(c, st);
    forall x ensures IssueHolds(st, x) <==> x == GridMismatch && r.requested != |r.points| * |r.universe| {
      AcceptedIssues(c, st, x);
      if x.DuplicatePartition? {
        NoCellRepeats(c, st, x.cell);
      }
    }
    if r.requested != |r.points| * |r.universe| {
      assert IssueHolds(st, GridMismatch);
    }
  }

  lemma AcceptedCanonical(r: Registration)
    requires Accepted(r)
    ensures var c := Canonical(r);
            && CountsGood(c) && PointsGood(c.points) && UniverseGood(c.universe) && c.fitness != []
            && PartitionsGood(c.points, c.universe, c.partitions) && SumRows(c.partitions) == c.rowCount
            && |c.points| == |r.points| && |c.universe| == |r.universe| && c.requested == r.requested
  {
    hide SortOn, PointsGood, UniverseGood, RefsGood, PartitionsGood, SumRows, HeaderGood, TrimHeader, FitnessValid, DistinctOn, TrimmedRefs, TrimPartition;
    CanonicalRearranges(r);
    var c, t := Canonical(r), Trimmed(r);
    SameMembers(c.points, t.points);
    SameMembers(c.universe, t.universe);
    SameMembers(c.fitness, t.fitness);
    SameMembers(c.partitions, t.partitions);
    PartitionsGoodMoves(c.points, c.universe, t.partitions, c.partitions);
    SumRowsPermutes(c.partitions, t.partitions);
  }

  lemma AcceptedIssues(c: Registration, st: Stored, x: Issue)
    requires CountsGood(c) && PointsGood(c.points) && UniverseGood(c.universe) && c.fitness != [] && SumRows(c.partitions) == c.rowCount
    requires st.rowCount == c.rowCount && st.requested == c.requested && st.accepted == c.accepted && st.rejected == c.rejected
    requires |st.points| == |c.points| && st.universe == c.universe && st.fitnessCount == |c.fitness|
    requires SumRows(st.partitions) == SumRows(c.partitions) && |st.partitions| == |c.partitions|
    requires forall i :: 0 <= i < |st.partitions| ==> InUniverse(st.universe, st.partitions[i].securityId) && Scheduled(st.points, st.partitions[i].decisionAt)
    ensures IssueHolds(st, x) <==>
              (x == GridMismatch && c.requested != |c.points| * |c.universe|) || (x.DuplicatePartition? && RepeatedCell(st.partitions, x.cell))
  {
    hide InUniverse, Scheduled, SumRows, RepeatedCell;
  }
}
