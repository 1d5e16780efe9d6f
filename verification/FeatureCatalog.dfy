/**
 Accounting for the decision-by-security grid of a feature artifact: every
 inconsistency is named, and a clean artifact's cells add up.
 */
module FeatureCatalog {
  import opened Wrappers

  datatype Point = Point(ordinal: int, decisionAt: int)

  datatype Member = Member(ordinal: int, securityId: string)

  datatype Partition = Partition(
    securityId: string, decisionAt: int, childArtifactId: string, manifestPath: string, manifestSha256: string,
    partPath: string, partSha256: string, rowCount: int)
  {
    function Cell(): (string, int) { (securityId, decisionAt) }
  }

  /** A registration as the catalog reads it back. */
  datatype Stored = Stored(
    rowCount: int, requested: int, accepted: int, rejected: int,
    points: seq<Point>, universe: seq<Member>, fitnessCount: nat, partitions: seq<Partition>)

  datatype Coverage = Coverage(decisionAt: int, expected: int, accepted: int, unaccounted: int, acceptedRows: int)

  datatype CoverageStatus = Inconsistent | EmptyGrid | Complete | PartialGrid

  datatype Issue =
    | NoPoints
    | NoUniverse
    | NoFitness
    | GridMismatch
    | CountsInconsistent
    | DuplicateSecurity(securityId: string)
    | OutsideUniverse(securityId: string)
    | OutsideSchedule(decisionAt: int)
    | DuplicatePartition(cell: (string, int))
    | RowSumMismatch
    | LineageInconsistent

  datatype Summary = Summary(
    expectedPartitions: int, gridConsistent: bool, rowCountConsistent: bool, issues: set<Issue>, coverage: seq<Coverage>, status: CoverageStatus)

  // ---------- sums and look-ups ----------

  function SumRows(partitions: seq<Partition>): int
  {
    if partitions == [] then 0 else SumRows(partitions[..|partitions| - 1]) + partitions[|partitions| - 1].rowCount
  }

  predicate Scheduled(points: seq<Point>, t: int) { exists i :: 0 <= i < |points| && points[i].decisionAt == t }

  predicate InUniverse(universe: seq<Member>, s: string) { exists i :: 0 <= i < |universe| && universe[i].securityId == s }

  /** The place a decision time is counted at: of equal times the last one. */
  predicate CountedAt(points: seq<Point>, t: int, i: nat)
  {
    i < |points| && points[i].decisionAt == t && forall j :: i < j < |points| ==> points[j].decisionAt != t
  }

  function AcceptedAt(points: seq<Point>, partitions: seq<Partition>, i: nat): nat
  {
    if partitions == [] then 0
    else
      var front, last := partitions[..|partitions| - 1], partitions[|partitions| - 1];
      AcceptedAt(points, front, i) + if CountedAt(points, last.decisionAt, i) then 1 else 0
  }

  function RowsAt(points: seq<Point>, partitions: seq<Partition>, i: nat): int
  {
    if partitions == [] then 0
    else
      var front, last := partitions[..|partitions| - 1], partitions[|partitions| - 1];
      RowsAt(points, front, i) + if CountedAt(points, last.decisionAt, i) then last.rowCount else 0
  }

  function Expected(st: Stored): int { |st.points| * |st.universe| }

  /** What each issue text means. */
  predicate IssueHolds(st: Stored, x: Issue)
  {
    match x
    case NoPoints => st.points == []
    case NoUniverse => st.universe == []
    case NoFitness => st.fitnessCount == 0
    case GridMismatch => Expected(st) != st.requested
    case CountsInconsistent => st.requested != st.accepted + st.rejected
    case DuplicateSecurity(s) => RepeatedSecurity(st.universe, s)
    case OutsideUniverse(s) => !InUniverse(st.universe, s) && HasSecurity(st.partitions, s)
    case OutsideSchedule(t) => !Scheduled(st.points, t) && HasTime(st.partitions, t)
    case DuplicatePartition(cell) => RepeatedCell(st.partitions, cell)
    case RowSumMismatch => SumRows(st.partitions) != st.rowCount
    case LineageInconsistent => st.accepted != |st.partitions| || SumRows(st.partitions) != st.rowCount
  }

  predicate RepeatedSecurity(universe: seq<Member>, s: string)
  {
    exists i, j :: 0 <= i < j < |universe| && universe[i].securityId == s && universe[j].securityId == s
  }

  predicate RepeatedCell(partitions: seq<Partition>, cell: (string, int))
  {
    exists i, j :: 0 <= i < j < |partitions| && partitions[i].Cell() == cell && partitions[j].Cell() == cell
  }

  predicate HasSecurity(partitions: seq<Partition>, s: string) { exists i :: 0 <= i < |partitions| && partitions[i].securityId == s }

  predicate HasTime(partitions: seq<Partition>, t: int) { exists i :: 0 <= i < |partitions| && partitions[i].decisionAt == t }

  predicate HasCell(partitions: seq<Partition>, cell: (string, int)) { exists i :: 0 <= i < |partitions| && partitions[i].Cell() == cell }

  ghost predicate Clean(st: Stored) { forall x :: !IssueHolds(st, x) }

  function CoverageAt(st: Stored, partitions: seq<Partition>, i: nat): Coverage
    requires i < |st.points|
  {
    Coverage(st.points[i].decisionAt, |st.universe|, AcceptedAt(st.points, partitions, i), 0, RowsAt(st.points, partitions, i))
  }

  function Accounted(c: Coverage): Coverage
  {
    if c.expected >= c.accepted then c.(unaccounted := c.expected - c.accepted) else c
  }

  // ---------- the summary ----------

  method ScanUniverse(universe: seq<Member>) returns (ids: set<string>, issues: set<Issue>)
    ensures forall s :: s in ids <==> InUniverse(universe, s)
    ensures forall x :: x in issues <==> x.DuplicateSecurity? && RepeatedSecurity(universe, x.securityId)
  {
    ids, issues := {}, {};
    for i := 0 to |universe|
      invariant forall s :: s in ids <==> InUniverse(universe[..i], s)
      invariant forall x :: x in issues <==> x.DuplicateSecurity? && RepeatedSecurity(universe[..i], x.securityId)
    {
      var s := universe[i].securityId;
      ScanMember(universe, i);
      if s in ids {
        issues := issues + {DuplicateSecurity(s)};
      }
      ids := ids + {s};
    }
    assert universe[..|universe|] == universe;
  }

  lemma ScanMember(universe: seq<Member>, i: nat)
    requires i < |universe|
    ensures forall s :: InUniverse(universe[..i + 1], s) <==> InUniverse(universe[..i], s) || s == universe[i].securityId
    ensures forall s :: RepeatedSecurity(universe[..i + 1], s) <==>
                          RepeatedSecurity(universe[..i], s) || (s == universe[i].securityId && InUniverse(universe[..i], s))
  {
    var before, after := universe[..i], universe[..i + 1];
    forall s ensures InUniverse(after, s) <==> InUniverse(before, s) || s == universe[i].securityId {
      assert after[i].securityId == universe[i].securityId;
      if InUniverse(before, s) {
        var k :| 0 <= k < |before| && before[k].securityId == s;
        assert after[k].securityId == s;
      }
      if InUniverse(after, s) && s != universe[i].securityId {
        var k :| 0 <= k < |after| && after[k].securityId == s;
        assert before[k].securityId == s;
      }
    }
    forall s ensures RepeatedSecurity(after, s) <==> RepeatedSecurity(before, s) || (s == universe[i].securityId && InUniverse(before, s)) {
      if RepeatedSecurity(before, s) {
        var k, l :| 0 <= k < l < |before| && before[k].securityId == s && before[l].securityId == s;
        assert after[k].securityId == s && after[l].securityId == s;
      }
      if s == universe[i].securityId && InUniverse(before, s) {
        var k :| 0 <= k < |before| && before[k].securityId == s;
        assert after[k].securityId == s && after[i].securityId == s;
      }
      if RepeatedSecurity(after, s) {
        var k, l :| 0 <= k < l < |after| && after[k].securityId == s && after[l].securityId == s;
        assert before[k].securityId == s;
        assert l < i ==> before[l].securityId == s;
      }
    }
  }

  method IndexDecisions(points: seq<Point>) returns (indexes: map<int, nat>)
    ensures forall t :: t in indexes <==> Scheduled(points, t)
    ensures forall t :: t in indexes ==> CountedAt(points, t, indexes[t])
  {
    indexes := map[];
    for i := 0 to |points|
      invariant forall t :: t in indexes <==> exists k :: 0 <= k < i && points[k].decisionAt == t
      invariant forall t :: t in indexes ==>
                  indexes[t] < i && points[indexes[t]].decisionAt == t && forall j :: indexes[t] < j < i ==> points[j].decisionAt != t
    {
      indexes := indexes[points[i].decisionAt := i];
    }
  }

  /** The issues that a list of partitions raises. */
  predicate PartitionIssue(st: Stored, partitions: seq<Partition>, x: Issue)
  {
    match x
    case OutsideUniverse(s) => !InUniverse(st.universe, s) && HasSecurity(partitions, s)
    case OutsideSchedule(t) => !Scheduled(st.points, t) && HasTime(partitions, t)
    case DuplicatePartition(cell) => RepeatedCell(partitions, cell)
    case _ => false
  }

  lemma HasOneMore(partitions: seq<Partition>, p: Partition)
    ensures forall s :: HasSecurity(partitions + [p], s) <==> HasSecurity(partitions, s) || s == p.securityId
    ensures forall t :: HasTime(partitions + [p], t) <==> HasTime(partitions, t) || t == p.decisionAt
    ensures forall cell :: HasCell(partitions + [p], cell) <==> HasCell(partitions, cell) || cell == p.Cell()
  {
    var n, all := |partitions|, partitions + [p];
    assert all[n] == p && forall k :: 0 <= k < n ==> all[k] == partitions[k];
    forall s ensures HasSecurity(all, s) <==> HasSecurity(partitions, s) || s == p.securityId {
      if k :| 0 <= k < n && partitions[k].securityId == s { assert all[k].securityId == s; }
      if s == p.securityId { assert all[n].securityId == s; }
    }
    forall t ensures HasTime(all, t) <==> HasTime(partitions, t) || t == p.decisionAt {
      if k :| 0 <= k < n && partitions[k].decisionAt == t { assert all[k].decisionAt == t; }
      if t == p.decisionAt { assert all[n].decisionAt == t; }
    }
    forall cell ensures HasCell(all, cell) <==> HasCell(partitions, cell) || cell == p.Cell() {
      if k :| 0 <= k < n && partitions[k].Cell() == cell { assert all[k].Cell() == cell; }
      if cell == p.Cell() { assert all[n].Cell() == cell; }
    }
  }

  lemma RepeatedOneMore(partitions: seq<Partition>, p: Partition, cell: (string, int))
    ensures RepeatedCell(partitions + [p], cell) <==> RepeatedCell(partitions, cell) || (cell == p.Cell() && HasCell(partitions, cell))
  {
    var n, all := |partitions|, partitions + [p];
    assert all[n] == p && forall k :: 0 <= k < n ==> all[k] == partitions[k];
    if k, l :| 0 <= k < l < n && partitions[k].Cell() == cell && partitions[l].Cell() == cell {
      assert all[k].Cell() == cell && all[l].Cell() == cell;
    }
    if k :| 0 <= k < n && partitions[k].Cell() == cell && cell == p.Cell() {
      assert all[k].Cell() == cell && all[n].Cell() == cell;
    }
    if k, l :| 0 <= k < l < |all| && all[k].Cell() == cell && all[l].Cell() == cell {
      assert partitions[k].Cell() == cell;
      assert l < n ==> partitions[l].Cell() == cell;
    }
  }

  lemma PartitionIssueStep(st: Stored, partitions: seq<Partition>, p: Partition, x: Issue)
    ensures PartitionIssue(st, partitions + [p], x) <==>
              || PartitionIssue(st, partitions, x)
              || (x == OutsideUniverse(p.securityId) && !InUniverse(st.universe, p.securityId))
              || (x == OutsideSchedule(p.decisionAt) && !Scheduled(st.points, p.decisionAt))
              || (x == DuplicatePartition(p.Cell()) && HasCell(partitions, p.Cell()))
  {
    HasOneMore(partitions, p);
    if x.DuplicatePartition? {
      RepeatedOneMore(partitions, p, x.cell);
    }
    hide InUniverse, Scheduled, HasSecurity, HasTime, HasCell, RepeatedCell;
  }

  lemma CountStep(st: Stored, n: nat, i: nat)
    requires n < |st.partitions| && i < |st.points|
    ensures CoverageAt(st, st.partitions[..n + 1], i) ==
              var c := CoverageAt(st, st.partitions[..n], i);
              if CountedAt(st.points, st.partitions[n].decisionAt, i) then
                c.(accepted := c.accepted + 1, acceptedRows := c.acceptedRows + st.partitions[n].rowCount)
              else c
  {
    assert st.partitions[..n + 1][..n] == st.partitions[..n];
  }

  /** What the scan holds after the first `n` partitions. */
  ghost predicate Scanned(st: Stored, n: nat, coverage: seq<Coverage>, issues: set<Issue>, keys: set<(string, int)>, rows: int)
    requires n <= |st.partitions|
  {
    var seen := st.partitions[..n];
    && |coverage| == |st.points| && (forall i :: 0 <= i < |st.points| ==> coverage[i] == CoverageAt(st, seen, i))
    && (forall x :: x in issues <==> PartitionIssue(st, seen, x))
    && (forall cell :: cell in keys <==> HasCell(seen, cell))
    && rows == SumRows(seen)
  }

  lemma KeepsScanned(st: Stored, n: nat, issues: set<Issue>, keys: set<(string, int)>, rows: int, found: set<Issue>, ids: set<string>, indexes: map<int, nat>)
    requires n < |st.partitions|
    requires forall x :: x in issues <==> PartitionIssue(st, st.partitions[..n], x)
    requires forall cell :: cell in keys <==> HasCell(st.partitions[..n], cell)
    requires rows == SumRows(st.partitions[..n])
    requires forall s :: s in ids <==> InUniverse(st.universe, s)
    requires forall t :: t in indexes <==> Scheduled(st.points, t)
    requires found == RaisedBy(st, st.partitions[n], ids, indexes, keys)
    ensures forall x :: x in issues + found <==> PartitionIssue(st, st.partitions[..n + 1], x)
    ensures forall cell :: cell in keys + {st.partitions[n].Cell()} <==> HasCell(st.partitions[..n + 1], cell)
    ensures rows + st.partitions[n].rowCount == SumRows(st.partitions[..n + 1])
  {
    var p, before := st.partitions[n], st.partitions[..n];
    assert st.partitions[..n + 1] == before + [p] && (before + [p])[..n] == before;
    HasOneMore(before, p);
    hide PartitionIssue, InUniverse, Scheduled, HasCell;
    forall x ensures x in issues + found <==> PartitionIssue(st, before + [p], x) {
      PartitionIssueStep(st, before, p, x);
    }
  }

  method ScanPartitions(st: Stored, ids: set<string>, indexes: map<int, nat>) returns (coverage: seq<Coverage>, issues: set<Issue>, rows: int)
    requires forall s :: s in ids <==> InUniverse(st.universe, s)
    requires forall t :: t in indexes <==> Scheduled(st.points, t)
    requires forall t :: t in indexes ==> CountedAt(st.points, t, indexes[t])
    ensures |coverage| == |st.points| && forall i :: 0 <= i < |st.points| ==> coverage[i] == CoverageAt(st, st.partitions, i)
    ensures forall x :: x in issues <==> PartitionIssue(st, st.partitions, x)
    ensures rows == SumRows(st.partitions)
  {
    hide PartitionIssue, InUniverse, Scheduled, CountedAt, CoverageAt, HasCell, SumRows;
    coverage := seq(|st.points|, i requires 0 <= i < |st.points| => Coverage(st.points[i].decisionAt, |st.universe|, 0, 0, 0));
    issues, rows := {}, 0;
    var keys: set<(string, int)> := {};
    FreshCoverage(st);
    NothingRaised(st);
    for n := 0 to |st.partitions|
      invariant Scanned(st, n, coverage, issues, keys, rows)
    {
      var found := RaisedBy(st, st.partitions[n], ids, indexes, keys);
      KeepsScanned(st, n, issues, keys, rows, found, ids, indexes);
      coverage := CountPartition(st, n, coverage, indexes);
      issues, keys, rows := issues + found, keys + {st.partitions[n].Cell()}, rows + st.partitions[n].rowCount;
    }
    assert st.partitions[..|st.partitions|] == st.partitions;
  }

  function RaisedBy(st: Stored, p: Partition, ids: set<string>, indexes: map<int, nat>, keys: set<(string, int)>): (r: set<Issue>)
    ensures forall x :: x in r <==>
              || (x == OutsideUniverse(p.securityId) && p.securityId !in ids)
              || (x == OutsideSchedule(p.decisionAt) && p.decisionAt !in indexes)
              || (x == DuplicatePartition(p.Cell()) && p.Cell() in keys)
  {
    (if p.securityId !in ids then {OutsideUniverse(p.securityId)} else {})
    + (if p.decisionAt !in indexes then {OutsideSchedule(p.decisionAt)} else {})
    + (if p.Cell() in keys then {DuplicatePartition(p.Cell())} else {})
  }

  lemma NothingRaised(st: Stored)
    ensures forall x :: !PartitionIssue(st, st.partitions[..0], x)
    ensures forall cell :: !HasCell(st.partitions[..0], cell)
    ensures SumRows(st.partitions[..0]) == 0
  {
  }

  lemma FreshCoverage(st: Stored)
    ensures forall i :: 0 <= i < |st.points| ==> CoverageAt(st, st.partitions[..0], i) == Coverage(st.points[i].decisionAt, |st.universe|, 0, 0, 0)
  {
  }

  method CountPartition(st: Stored, n: nat, coverage: seq<Coverage>, indexes: map<int, nat>) returns (after: seq<Coverage>)
    requires n < |st.partitions| && |coverage| == |st.points|
    requires forall i :: 0 <= i < |st.points| ==> coverage[i] == CoverageAt(st, st.partitions[..n], i)
    requires forall t :: t in indexes <==> Scheduled(st.points, t)
    requires forall t :: t in indexes ==> CountedAt(st.points, t, indexes[t])
    ensures |after| == |st.points| && forall i :: 0 <= i < |st.points| ==> after[i] == CoverageAt(st, st.partitions[..n + 1], i)
  {
    var partition := st.partitions[n];
    after := coverage;
    if partition.decisionAt in indexes {
      var i := indexes[partition.decisionAt];
      var c := coverage[i];
      after := coverage[i := c.(accepted := c.accepted + 1, acceptedRows := c.acceptedRows + partition.rowCount)];
    }
    hide CoverageAt;
    forall i | 0 <= i < |st.points| ensures after[i] == CoverageAt(st, st.partitions[..n + 1], i) {
      CountStep(st, n, i);
    }
  }

  function StatusOf(st: Stored, issues: set<Issue>): CoverageStatus
  {
    if issues != {} then Inconsistent
    else if st.accepted == 0 then EmptyGrid
    else if st.accepted == st.requested then Complete
    else PartialGrid
  }

  function HeadIssues(st: Stored): (r: set<Issue>)
    ensures forall x :: x in r <==> (x.NoPoints? || x.NoUniverse? || x.NoFitness? || x.GridMismatch? || x.CountsInconsistent?) && IssueHolds(st, x)
  {
    (if st.points == [] then {NoPoints} else {})
    + (if st.universe == [] then {NoUniverse} else {})
    + (if st.fitnessCount == 0 then {NoFitness} else {})
    + (if Expected(st) != st.requested then {GridMismatch} else {})
    + (if st.requested != st.accepted + st.rejected then {CountsInconsistent} else {})
  }

  function TailIssues(st: Stored, rows: int): (r: set<Issue>)
    requires rows == SumRows(st.partitions)
    ensures forall x :: x in r <==> (x.RowSumMismatch? || x.LineageInconsistent?) && IssueHolds(st, x)
  {
    (if rows != st.rowCount then {RowSumMismatch} else {})
    + (if st.accepted != |st.partitions| || rows != st.rowCount then {LineageInconsistent} else {})
  }

  method Summarize(st: Stored) returns (r: Summary)
    ensures forall x :: x in r.issues <==> IssueHolds(st, x)
    ensures |r.coverage| == |st.points| && forall i :: 0 <= i < |st.points| ==> r.coverage[i] == Accounted(CoverageAt(st, st.partitions, i))
    ensures r.expectedPartitions == Expected(st) && (r.gridConsistent <==> Expected(st) == st.requested)
    ensures r.rowCountConsistent <==> st.accepted == |st.partitions| && SumRows(st.partitions) == st.rowCount
    ensures r.status == StatusOf(st, r.issues)
    ensures r.status.Inconsistent? <==> !Clean(st)
  {
    hide PartitionIssue, InUniverse, Scheduled, CountedAt, CoverageAt, Accounted, SumRows, IssueHolds, RepeatedSecurity;
    var expected := |st.points| * |st.universe|;
    var indexes := IndexDecisions(st.points);
    var ids, repeated := ScanUniverse(st.universe);
    var coverage, cells, rows := ScanPartitions(st, ids, indexes);
    var consistent := st.accepted == |st.partitions| && rows == st.rowCount;
    var issues := HeadIssues(st) + repeated + cells + TailIssues(st, rows);
    forall x ensures x in issues <==> IssueHolds(st, x) {
      IssueKinds(st, x);
    }
    var accounted := Account(st, coverage);
    r := Summary(expected, expected == st.requested, consistent, issues, accounted, StatusOf(st, issues));
  }

  lemma IssueKinds(st: Stored, x: Issue)
    ensures IssueHolds(st, x) <==>
              || ((x.NoPoints? || x.NoUniverse? || x.NoFitness? || x.GridMismatch? || x.CountsInconsistent?) && IssueHolds(st, x))
              || (x.DuplicateSecurity? && RepeatedSecurity(st.universe, x.securityId))
              || PartitionIssue(st, st.partitions, x)
              || ((x.RowSumMismatch? || x.LineageInconsistent?) && IssueHolds(st, x))
  {
    hide InUniverse, Scheduled, HasSecurity, HasTime, RepeatedCell, RepeatedSecurity, SumRows, Expected;
  }

  method Account(st: Stored, coverage: seq<Coverage>) returns (accounted: seq<Coverage>)
    requires |coverage| == |st.points| && forall i :: 0 <= i < |st.points| ==> coverage[i] == CoverageAt(st, st.partitions, i)
    ensures |accounted| == |st.points| && forall i :: 0 <= i < |st.points| ==> accounted[i] == Accounted(CoverageAt(st, st.partitions, i))
  {
    hide CoverageAt;
    accounted := [];
    for i := 0 to |coverage|
      invariant |accounted| == i && forall k :: 0 <= k < i ==> accounted[k] == Accounted(CoverageAt(st, st.partitions, k))
    {
      var c := coverage[i];
      if c.expected >= c.accepted {
        c := c.(unaccounted := c.expected - c.accepted);
      }
      accounted := accounted + [c];
    }
  }

  // ---------- counting cells ----------

  function CellsOf(partitions: seq<Partition>): set<(string, int)>
  {
    set i | 0 <= i < |partitions| :: partitions[i].Cell()
  }

  function IdsOf(universe: seq<Member>): set<string>
  {
    set i | 0 <= i < |universe| :: universe[i].securityId
  }

  function TimesOf(points: seq<Point>): set<int>
  {
    set i | 0 <= i < |points| :: points[i].decisionAt
  }

  ghost predicate NoRepeats(partitions: seq<Partition>)
  {
    forall i, j :: 0 <= i < j < |partitions| ==> partitions[i].Cell() != partitions[j].Cell()
  }

  lemma {:induction false} DistinctCellsCount(partitions: seq<Partition>)
    requires NoRepeats(partitions)
    ensures |CellsOf(partitions)| == |partitions|
    decreases |partitions|
  {
    if partitions != [] {
      var front, last := partitions[..|partitions| - 1], partitions[|partitions| - 1];
      DistinctCellsCount(front);
      assert CellsOf(partitions) == CellsOf(front) + {last.Cell()} by {
        forall cell | cell in CellsOf(partitions) ensures cell in CellsOf(front) + {last.Cell()} {
          var i :| 0 <= i < |partitions| && partitions[i].Cell() == cell;
          assert i < |front| ==> front[i].Cell() == cell;
        }
        forall cell | cell in CellsOf(front) ensures cell in CellsOf(partitions) {
          var i :| 0 <= i < |front| && front[i].Cell() == cell;
          assert partitions[i].Cell() == cell;
        }
        assert partitions[|partitions| - 1].Cell() == last.Cell();
      }
      assert last.Cell() !in CellsOf(front);
    }
  }

  lemma {:induction false} IdsAtMost(universe: seq<Member>)
    ensures |IdsOf(universe)| <= |universe|
    decreases |universe|
  {
    if universe != [] {
      var front, last := universe[..|universe| - 1], universe[|universe| - 1];
      IdsAtMost(front);
      assert IdsOf(universe) == IdsOf(front) + {last.securityId} by {
        assert forall i :: 0 <= i < |front| ==> front[i] == universe[i];
        assert universe[|front|] == last;
      }
    }
  }

  lemma {:induction false} TimesAtMost(points: seq<Point>)
    ensures |TimesOf(points)| <= |points|
    decreases |points|
  {
    if points != [] {
      var front, last := points[..|points| - 1], points[|points| - 1];
      TimesAtMost(front);
      assert TimesOf(points) == TimesOf(front) + {last.decisionAt} by {
        assert forall i :: 0 <= i < |front| ==> front[i] == points[i];
        assert points[|front|] == last;
      }
    }
  }

  function Column<A(==), B(==)>(s: A, times: set<B>): set<(A, B)>
  {
    set t | t in times :: (s, t)
  }

  function Grid<A(==), B(==)>(ids: set<A>, times: set<B>): set<(A, B)>
  {
    set s, t | s in ids && t in times :: (s, t)
  }

  lemma {:induction false} ColumnSize<A, B>(s: A, times: set<B>)
    ensures |Column(s, times)| == |times|
    decreases times
  {
    if t :| t in times {
      ColumnSize(s, times - {t});
      assert Column(s, times) == Column(s, times - {t}) + {(s, t)};
    } else {
      assert times == {} && Column(s, times) == {};
    }
  }

  lemma GridSplit<A, B>(ids: set<A>, s: A, times: set<B>)
    requires s in ids
    ensures Grid(ids, times) == Grid(ids - {s}, times) + Column(s, times) && Grid(ids - {s}, times) !! Column(s, times)
    ensures |Grid(ids, times)| == |Grid(ids - {s}, times)| + |Column(s, times)|
  {
  }

  lemma ProductStep(a: nat, b: nat)
    requires a > 0
    ensures (a - 1) * b + b == a * b
  {
  }

  lemma {:induction false} GridSize<A, B>(ids: set<A>, times: set<B>)
    ensures |Grid(ids, times)| == |ids| * |times|
    decreases ids
  {
    if s :| s in ids {
      GridSize(ids - {s}, times);
      ColumnSize(s, times);
      GridSplit(ids, s, times);
      hide Grid, Column;
      assert |ids - {s}| == |ids| - 1;
      ProductStep(|ids|, |times|);
    } else {
      assert ids == {} && Grid(ids, times) == {};
    }
  }

  lemma SubsetOfEqualSize<T>(a: set<T>, b: set<T>)
    requires a <= b && |a| >= |b|
    ensures a == b
  {
    assert b == a + (b - a);
  }

  lemma ProductBound(a: nat, b: nat, c: nat, d: nat)
    requires a <= c && b <= d
    ensures a * b <= c * d
  {
    assert c * d - a * b == (c - a) * d + a * (d - b);
  }

  /** What a clean artifact's partitions are: distinct cells of the grid. */
  lemma CleanCells(st: Stored)
    requires Clean(st)
    ensures NoRepeats(st.partitions) && CellsOf(st.partitions) <= Grid(IdsOf(st.universe), TimesOf(st.points))
    ensures forall i :: 0 <= i < |st.partitions| ==> InUniverse(st.universe, st.partitions[i].securityId) && Scheduled(st.points, st.partitions[i].decisionAt)
  {
    forall i, j | 0 <= i < j < |st.partitions| ensures st.partitions[i].Cell() != st.partitions[j].Cell() {
      assert !IssueHolds(st, DuplicatePartition(st.partitions[i].Cell()));
    }
    forall i | 0 <= i < |st.partitions|
      ensures InUniverse(st.universe, st.partitions[i].securityId) && Scheduled(st.points, st.partitions[i].decisionAt)
    {
      assert !IssueHolds(st, OutsideUniverse(st.partitions[i].securityId)) && HasSecurity(st.partitions, st.partitions[i].securityId);
      assert !IssueHolds(st, OutsideSchedule(st.partitions[i].decisionAt)) && HasTime(st.partitions, st.partitions[i].decisionAt);
    }
  }

  /** A complete artifact holds every cell of the decision-by-security grid, exactly once. */
  lemma CompleteMeansFullGrid(st: Stored, issues: set<Issue>)
    requires forall x :: x in issues <==> IssueHolds(st, x)
    requires StatusOf(st, issues).Complete?
    ensures Clean(st) && NoRepeats(st.partitions)
    ensures CellsOf(st.partitions) == Grid(IdsOf(st.universe), TimesOf(st.points))
    ensures |st.partitions| == |st.points| * |st.universe|
  {
    assert Clean(st);
    CleanCells(st);
    assert !IssueHolds(st, GridMismatch) && !IssueHolds(st, LineageInconsistent);
    hide IssueHolds, SumRows;
    DistinctCellsCount(st.partitions);
    IdsAtMost(st.universe);
    TimesAtMost(st.points);
    GridSize(IdsOf(st.universe), TimesOf(st.points));
    ProductBound(|IdsOf(st.universe)|, |TimesOf(st.points)|, |st.universe|, |st.points|);
    SubsetOfEqualSize(CellsOf(st.partitions), Grid(IdsOf(st.universe), TimesOf(st.points)));
  }

  // ---------- conservation ----------

  function PartitionsAt(points: seq<Point>, partitions: seq<Partition>, i: nat): (r: seq<Partition>)
    ensures |r| == AcceptedAt(points, partitions, i)
    ensures forall p :: p in r ==> p in partitions && CountedAt(points, p.decisionAt, i)
  {
    if partitions == [] then []
    else
      var front, last := partitions[..|partitions| - 1], partitions[|partitions| - 1];
      assert partitions == front + [last];
      PartitionsAt(points, front, i) + if CountedAt(points, last.decisionAt, i) then [last] else []
  }

  lemma {:induction false} PartitionsAtDistinct(points: seq<Point>, partitions: seq<Partition>, i: nat)
    requires NoRepeats(partitions)
    ensures NoRepeats(PartitionsAt(points, partitions, i))
    decreases |partitions|
  {
    if partitions != [] {
      var front, last := partitions[..|partitions| - 1], partitions[|partitions| - 1];
      PartitionsAtDistinct(points, front, i);
      var kept := PartitionsAt(points, front, i);
      forall k | 0 <= k < |kept| ensures kept[k].Cell() != last.Cell() {
        assert kept[k] in front;
        var j :| 0 <= j < |front| && front[j] == kept[k];
        assert partitions[j] == front[j];
      }
    }
  }

  /** No decision has more accepted cells than there are securities. */
  lemma AcceptedWithinUniverse(st: Stored, i: nat)
    requires Clean(st) && i < |st.points|
    ensures AcceptedAt(st.points, st.partitions, i) <= |st.universe|
  {
    CleanCells(st);
    PartitionsAtDistinct(st.points, st.partitions, i);
    hide IssueHolds;
    var at := PartitionsAt(st.points, st.partitions, i);
    DistinctCellsCount(at);
    var t := st.points[i].decisionAt;
    var column := Row(IdsOf(st.universe), t);
    forall cell | cell in CellsOf(at) ensures cell in column {
      var k :| 0 <= k < |at| && at[k].Cell() == cell;
      assert at[k] in at;
      var j :| 0 <= j < |st.partitions| && st.partitions[j] == at[k];
      assert InUniverse(st.universe, st.partitions[j].securityId);
    }
    RowSize(IdsOf(st.universe), t);
    IdsAtMost(st.universe);
    SubsetSize(CellsOf(at), column);
  }

  function Row<A(==), B(==)>(ids: set<A>, t: B): set<(A, B)>
  {
    set s | s in ids :: (s, t)
  }

  lemma {:induction false} RowSize<A, B>(ids: set<A>, t: B)
    ensures |Row(ids, t)| == |ids|
    decreases ids
  {
    if s :| s in ids {
      RowSize(ids - {s}, t);
      assert Row(ids, t) == Row(ids - {s}, t) + {(s, t)};
    } else {
      assert ids == {} && Row(ids, t) == {};
    }
  }

  lemma SubsetSize<T>(a: set<T>, b: set<T>)
    requires a <= b
    ensures |a| <= |b|
  {
    assert b == a + (b - a);
  }

  function SumAccepted(points: seq<Point>, partitions: seq<Partition>, n: nat): nat
  {
    if n == 0 then 0 else SumAccepted(points, partitions, n - 1) + AcceptedAt(points, partitions, n - 1)
  }

  function SumUnaccounted(st: Stored, n: nat): int
    requires n <= |st.points|
  {
    if n == 0 then 0 else SumUnaccounted(st, n - 1) + Accounted(CoverageAt(st, st.partitions, n - 1)).unaccounted
  }

  lemma {:induction false} SumStep(points: seq<Point>, front: seq<Partition>, p: Partition, n: nat)
    ensures SumAccepted(points, front + [p], n) == SumAccepted(points, front, n) + if exists i: nat :: i < n && CountedAt(points, p.decisionAt, i) then 1 else 0
    decreases n
  {
    if n > 0 {
      SumStep(points, front, p, n - 1);
      var all := front + [p];
      assert all[..|all| - 1] == front;
      assert CountedAt(points, p.decisionAt, n - 1) ==> !exists i: nat :: i < n - 1 && CountedAt(points, p.decisionAt, i);
    }
  }

  lemma {:induction false} LastTime(points: seq<Point>, t: int, i: nat) returns (k: nat)
    requires i < |points| && points[i].decisionAt == t
    ensures CountedAt(points, t, k)
    decreases |points| - i
  {
    if j: nat :| i < j < |points| && points[j].decisionAt == t {
      k := LastTime(points, t, j);
    } else {
      k := i;
    }
  }

  lemma {:induction false} EveryPartitionCounted(points: seq<Point>, partitions: seq<Partition>)
    requires forall i :: 0 <= i < |partitions| ==> Scheduled(points, partitions[i].decisionAt)
    ensures SumAccepted(points, partitions, |points|) == |partitions|
    decreases |partitions|
  {
    if partitions == [] {
      NothingAccepted(points, |points|);
    } else {
      var front, last := partitions[..|partitions| - 1], partitions[|partitions| - 1];
      EveryPartitionCounted(points, front);
      assert partitions == front + [last];
      SumStep(points, front, last, |points|);
      var i :| 0 <= i < |points| && points[i].decisionAt == last.decisionAt;
      var k := LastTime(points, last.decisionAt, i);
    }
  }

  lemma {:induction false} NothingAccepted(points: seq<Point>, n: nat)
    ensures SumAccepted(points, [], n) == 0
  {
    if n > 0 {
      NothingAccepted(points, n - 1);
    }
  }

  lemma {:induction false} UnaccountedSum(st: Stored, n: nat)
    requires n <= |st.points| && forall i :: 0 <= i < |st.points| ==> AcceptedAt(st.points, st.partitions, i) <= |st.universe|
    ensures SumUnaccounted(st, n) == n * |st.universe| - SumAccepted(st.points, st.partitions, n)
  {
    if n > 0 {
      UnaccountedSum(st, n - 1);
      assert n * |st.universe| == (n - 1) * |st.universe| + |st.universe|;
    }
  }

  /** Without issues, what the decisions leave unaccounted adds up to the rejected partitions. */
  lemma UnaccountedIsRejected(st: Stored)
    requires Clean(st)
    ensures SumUnaccounted(st, |st.points|) == st.rejected
    ensures forall i :: 0 <= i < |st.points| ==> 0 <= Accounted(CoverageAt(st, st.partitions, i)).unaccounted <= |st.universe|
  {
    forall i | 0 <= i < |st.points| ensures AcceptedAt(st.points, st.partitions, i) <= |st.universe| {
      AcceptedWithinUniverse(st, i);
    }
    CleanCells(st);
    EveryPartitionCounted(st.points, st.partitions);
    UnaccountedSum(st, |st.points|);
    assert !IssueHolds(st, GridMismatch) && !IssueHolds(st, LineageInconsistent) && !IssueHolds(st, CountsInconsistent);
  }
}
