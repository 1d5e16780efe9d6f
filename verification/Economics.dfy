/**
 Economic observations get local revisions: a value that repeats the latest one
 is not stored again, a changed value is stored under a higher revision.
 */
module Economics {
  import opened Wrappers
  import opened Manifests
  import opened Publication
  import opened PartitionStore
  import opened Admission
  import opened Sorting
  import opened Writes
  import opened Rows
  import opened RowAdmission
  import Decimals
  import Instants
  import Text

  // ---------- keys inside one series ----------

  lemma CommonHead(head: string, x: string, y: string)
    requires head + x == head + y
    ensures x == y
  {
    assert (head + x)[|head|..] == x && (head + y)[|head|..] == y;
  }

  /** Inside one series the natural key is the observation time, the publication time and the revision. */
  lemma KeyFields(a: EconomicRow, b: EconomicRow)
    requires a.source == b.source && a.seriesId == b.seriesId
    ensures EconomicKey(a) == EconomicKey(b) <==> a.observedAt == b.observedAt && a.publishedAt == b.publishedAt && a.revision == b.revision
    ensures EconomicSeriesKey(a) == EconomicSeriesKey(b) <==> a.observedAt == b.observedAt
  {
    var head := a.source + [Text.UNIT_SEPARATOR] + (a.seriesId + [Text.UNIT_SEPARATOR]);
    var x := [Text.Sprint(a.observedAt), Text.Sprint(a.publishedAt), Text.Sprint(a.revision)];
    var y := [Text.Sprint(b.observedAt), Text.Sprint(b.publishedAt), Text.Sprint(b.revision)];
    KeySplits(a);
    KeySplits(b);
    if EconomicSeriesKey(a) == EconomicSeriesKey(b) {
      CommonHead(head, Text.Sprint(a.observedAt), Text.Sprint(b.observedAt));
      Text.SprintInjective(a.observedAt, b.observedAt);
    }
    if EconomicKey(a) == EconomicKey(b) {
      CommonHead(head, Text.Join(x), Text.Join(y));
      PlainFields(a.observedAt, a.publishedAt, a.revision);
      PlainFields(b.observedAt, b.publishedAt, b.revision);
      Text.JoinInjective(x, y);
      assert x[0] == y[0] && x[1] == y[1] && x[2] == y[2];
      Text.SprintInjective(a.observedAt, b.observedAt);
      Text.SprintInjective(a.publishedAt, b.publishedAt);
      Text.SprintInjective(a.revision, b.revision);
    }
  }

  lemma JoinStep(field: string, rest: seq<string>)
    requires rest != []
    ensures Text.Join([field] + rest) == field + [Text.UNIT_SEPARATOR] + Text.Join(rest)
  {
    assert ([field] + rest)[1..] == rest;
  }

  lemma KeySplits(r: EconomicRow)
    ensures var head := r.source + [Text.UNIT_SEPARATOR] + (r.seriesId + [Text.UNIT_SEPARATOR]);
            && EconomicKey(r) == head + Text.Join([Text.Sprint(r.observedAt), Text.Sprint(r.publishedAt), Text.Sprint(r.revision)])
            && EconomicSeriesKey(r) == head + Text.Sprint(r.observedAt)
  {
    var head := r.source + [Text.UNIT_SEPARATOR] + (r.seriesId + [Text.UNIT_SEPARATOR]);
    var tail := [Text.Sprint(r.observedAt), Text.Sprint(r.publishedAt), Text.Sprint(r.revision)];
    SplitTwo(r.source, r.seriesId, tail);
    SplitTwo(r.source, r.seriesId, [Text.Sprint(r.observedAt)]);
    assert [r.source] + ([r.seriesId] + tail) == [r.source, r.seriesId, Text.Sprint(r.observedAt), Text.Sprint(r.publishedAt), Text.Sprint(r.revision)];
    assert [r.source] + ([r.seriesId] + [Text.Sprint(r.observedAt)]) == [r.source, r.seriesId, Text.Sprint(r.observedAt)];
    assert Text.Join([Text.Sprint(r.observedAt)]) == Text.Sprint(r.observedAt);
  }

  lemma SplitTwo(a: string, b: string, tail: seq<string>)
    requires tail != []
    ensures Text.Join([a] + ([b] + tail)) == a + [Text.UNIT_SEPARATOR] + (b + [Text.UNIT_SEPARATOR]) + Text.Join(tail)
  {
    JoinStep(a, [b] + tail);
    JoinStep(b, tail);
    hide Text.Join;
    assert a + [Text.UNIT_SEPARATOR] + (b + [Text.UNIT_SEPARATOR] + Text.Join(tail)) ==
           a + [Text.UNIT_SEPARATOR] + (b + [Text.UNIT_SEPARATOR]) + Text.Join(tail);
  }

  lemma PlainFields(a: int, b: int, c: int)
    ensures forall i :: 0 <= i < 3 ==> Text.Plain([Text.Sprint(a), Text.Sprint(b), Text.Sprint(c)][i])
  {
    Text.SprintPlain(a);
    Text.SprintPlain(b);
    Text.SprintPlain(c);
  }

  /** Where a row of one observation time lands among the others: publication time and then revision, as texts. */
  predicate LandsBefore(a: EconomicRow, b: EconomicRow)
  {
    || Text.Less(Text.Sprint(a.publishedAt), Text.Sprint(b.publishedAt))
    || (a.publishedAt == b.publishedAt && Text.Less(Text.Sprint(a.revision), Text.Sprint(b.revision)))
  }

  lemma KeyOrder(a: EconomicRow, b: EconomicRow)
    requires a.source == b.source && a.seriesId == b.seriesId && a.observedAt == b.observedAt
    ensures Text.Less(EconomicKey(a), EconomicKey(b)) <==> LandsBefore(a, b)
  {
    var head := a.source + [Text.UNIT_SEPARATOR] + (a.seriesId + [Text.UNIT_SEPARATOR]);
    var time := Text.Sprint(a.observedAt) + [Text.UNIT_SEPARATOR];
    KeySplits(a);
    KeySplits(b);
    ThreeFields(a.observedAt, a.publishedAt, a.revision);
    ThreeFields(b.observedAt, b.publishedAt, b.revision);
    hide Text.Join, Text.Sprint, Text.Less, EconomicKey;
    var x := Text.Sprint(a.publishedAt) + [Text.UNIT_SEPARATOR] + Text.Sprint(a.revision);
    var y := Text.Sprint(b.publishedAt) + [Text.UNIT_SEPARATOR] + Text.Sprint(b.revision);
    Text.LessCommonHead(head, time + x, time + y);
    Text.LessCommonHead(time, x, y);
    Text.SprintAbove(a.publishedAt);
    Text.SprintAbove(b.publishedAt);
    Text.LessJoined(Text.Sprint(a.publishedAt), Text.Sprint(a.revision), Text.Sprint(b.publishedAt), Text.Sprint(b.revision));
    if Text.Sprint(a.publishedAt) == Text.Sprint(b.publishedAt) {
      Text.SprintInjective(a.publishedAt, b.publishedAt);
    }
  }

  lemma ThreeFields(a: int, b: int, c: int)
    ensures Text.Join([Text.Sprint(a), Text.Sprint(b), Text.Sprint(c)]) ==
            Text.Sprint(a) + [Text.UNIT_SEPARATOR] + (Text.Sprint(b) + [Text.UNIT_SEPARATOR] + Text.Sprint(c))
  {
    var x, y, z := Text.Sprint(a), Text.Sprint(b), Text.Sprint(c);
    assert [x, y, z][1..] == [y, z] && [y, z][1..] == [z];
    assert Text.Join([z]) == z;
  }

  lemma LandsOnce(a: EconomicRow, b: EconomicRow)
    ensures !(LandsBefore(a, b) && LandsBefore(b, a)) && !LandsBefore(a, a)
  {
    Text.LessTrichotomy(Text.Sprint(a.publishedAt), Text.Sprint(b.publishedAt));
    Text.LessTrichotomy(Text.Sprint(a.revision), Text.Sprint(b.revision));
    Text.LessTrichotomy(Text.Sprint(a.publishedAt), Text.Sprint(a.publishedAt));
    Text.LessTrichotomy(Text.Sprint(a.revision), Text.Sprint(a.revision));
    hide Text.Sprint, Text.Less;
  }

  // ---------- choosing a revision ----------

  /** The highest committed revision of the observation, the first of them when tied. */
  function Latest(rows: seq<EconomicRow>, r: EconomicRow): Option<EconomicRow>
  {
    if rows == [] then None
    else
      var best, v := Latest(rows[..|rows| - 1], r), rows[|rows| - 1];
      if EconomicSeriesKey(v) == EconomicSeriesKey(r) && (best.None? || v.revision > best.value.revision) then Some(v) else best
  }

  method LatestEconomic(rows: seq<EconomicRow>, r: EconomicRow) returns (best: Option<EconomicRow>)
    ensures best == Latest(rows, r)
  {
    best := None;
    for i := 0 to |rows|
      invariant best == Latest(rows[..i], r)
    {
      assert rows[..i + 1][..i] == rows[..i];
      if EconomicSeriesKey(rows[i]) == EconomicSeriesKey(r) && (best.None? || rows[i].revision > best.value.revision) {
        best := Some(rows[i]);
      }
    }
    assert rows[..|rows|] == rows;
  }

  datatype Decision = Keep(revision: int) | Conflict(key: string) | Append(row: EconomicRow)

  function Revise(existing: seq<EconomicRow>, r: EconomicRow): Decision
  {
    var latest := Latest(existing, r);
    if r.source == "alfred" || latest.None? then Append(r)
    else if latest.value.value == r.value then
      if EconomicKey(latest.value) == EconomicKey(r) && !SameEconomic(latest.value, r) then Conflict(EconomicKey(r))
      else Keep(latest.value.revision)
    else if r.revision <= latest.value.revision then Append(r.(revision := latest.value.revision + 1))
    else Append(r)
  }

  datatype EconomicError = BadIdentity | BadObservation | ValueConflict(key: string) | Failed(cause: WriteError)

  datatype Revised = Revised(built: seq<EconomicRow>, incoming: seq<EconomicRow>, revisions: seq<int>)

  function AddDecision(before: Revised, r: EconomicRow, decision: Decision): Revised
    requires !decision.Conflict?
  {
    if decision.Keep? then Revised(before.built + [r], before.incoming, before.revisions + [decision.revision])
    else Revised(before.built + [r], before.incoming + [decision.row], before.revisions + [decision.row.revision])
  }

  /** Builds and revises a batch against the committed rows; the first failure wins. */
  function Prepare(existing: seq<EconomicRow>, obs: seq<EconomicObservation>): Result<Revised, EconomicError>
  {
    if obs == [] then Ok(Revised([], [], []))
    else
      var before, built := Prepare(existing, obs[..|obs| - 1]), BuildEconomic(obs[|obs| - 1]);
      if before.Err? then before
      else if built.Err? then Err(EconomicError.BadObservation)
      else
        var decision := Revise(existing, built.value);
        if decision.Conflict? then Err(ValueConflict(decision.key)) else Ok(AddDecision(before.value, built.value, decision))
  }

  lemma {:induction false} PreparePrefix(existing: seq<EconomicRow>, obs: seq<EconomicObservation>, n: nat)
    requires n <= |obs| && Prepare(existing, obs[..n]).Err?
    ensures Prepare(existing, obs) == Prepare(existing, obs[..n])
    decreases |obs|
  {
    hide BuildEconomic, Revise;
    if n == |obs| {
      assert obs[..n] == obs;
    } else {
      assert obs[..|obs| - 1][..n] == obs[..n];
      PreparePrefix(existing, obs[..|obs| - 1], n);
    }
  }

  // ---------- the revision discipline ----------

  ghost predicate OneSeries(rows: seq<EconomicRow>, source: string, seriesId: string)
  {
    forall i :: 0 <= i < |rows| ==> rows[i].source == source && rows[i].seriesId == seriesId
  }

  /** In write order, the revisions of one observation time strictly increase. */
  ghost predicate RevisionsRise(rows: seq<EconomicRow>)
  {
    forall i, j :: 0 <= i < j < |rows| && rows[i].observedAt == rows[j].observedAt ==> rows[i].revision < rows[j].revision
  }

  ghost predicate Neighbours(rows: seq<EconomicRow>, i: nat, j: nat)
    requires i < j < |rows|
  {
    rows[i].observedAt == rows[j].observedAt && forall k :: i < k < j ==> rows[k].observedAt != rows[i].observedAt
  }

  /** Neighbouring revisions of one observation time hold different values. */
  ghost predicate NeighboursDiffer(rows: seq<EconomicRow>)
  {
    forall i, j :: 0 <= i < j < |rows| && Neighbours(rows, i, j) ==> rows[i].value != rows[j].value
  }

  /** No row of the same observation time lands between the two. */
  ghost predicate NothingBetween(rows: seq<EconomicRow>, a: EconomicRow, b: EconomicRow)
  {
    forall c :: c in rows && c.observedAt == a.observedAt ==> !(LandsBefore(a, c) && LandsBefore(c, b))
  }

  /** Per observation time, rows that land later have higher revisions, and rows that land next to each other differ in value. */
  ghost predicate Orderly(rows: seq<EconomicRow>)
  {
    forall a, b :: a in rows && b in rows && a.observedAt == b.observedAt && LandsBefore(a, b) ==>
      a.revision < b.revision && (NothingBetween(rows, a, b) ==> a.value != b.value)
  }

  lemma {:induction false} LatestIsHighest(rows: seq<EconomicRow>, r: EconomicRow)
    requires OneSeries(rows, r.source, r.seriesId)
    ensures var best := Latest(rows, r);
            && (best.None? <==> forall i :: 0 <= i < |rows| ==> rows[i].observedAt != r.observedAt)
            && (best.Some? ==> best.value in rows && best.value.observedAt == r.observedAt)
            && (forall i :: 0 <= i < |rows| && rows[i].observedAt == r.observedAt ==> rows[i].revision <= best.value.revision)
    decreases |rows|
  {
    hide EconomicSeriesKey, EconomicKey;
    if rows != [] {
      LatestIsHighest(rows[..|rows| - 1], r);
      KeyFields(rows[|rows| - 1], r);
    }
  }

  /** Under the discipline the latest revision is the one written last. */
  lemma LatestIsLast(rows: seq<EconomicRow>, r: EconomicRow, i: nat)
    requires OneSeries(rows, r.source, r.seriesId) && RevisionsRise(rows)
    requires i < |rows| && rows[i].observedAt == r.observedAt
    requires forall k :: i < k < |rows| ==> rows[k].observedAt != r.observedAt
    ensures Latest(rows, r) == Some(rows[i])
  {
    LatestIsHighest(rows, r);
    var best := Latest(rows, r).value;
    var k :| 0 <= k < |rows| && rows[k] == best;
    assert k <= i;
  }

  /** What one decision promises about the row it appends. */
  ghost predicate Improves(existing: seq<EconomicRow>, r: EconomicRow, row: EconomicRow)
  {
    && row == r.(revision := row.revision)
    && (forall i :: 0 <= i < |existing| && existing[i].observedAt == r.observedAt ==> existing[i].revision < row.revision)
    && (Latest(existing, r).Some? ==> Latest(existing, r).value.value != r.value)
  }

  lemma DecisionImproves(existing: seq<EconomicRow>, r: EconomicRow)
    requires OneSeries(existing, r.source, r.seriesId) && r.source != "alfred"
    ensures var decision := Revise(existing, r);
            && (decision.Append? ==> Improves(existing, r, decision.row))
            && (decision.Keep? ==> Holds(existing, r.observedAt, decision.revision, r.value))
  {
    hide EconomicKey, EconomicSeriesKey, SameEconomic, Latest;
    LatestIsHighest(existing, r);
    if Latest(existing, r).Some? {
      var k :| 0 <= k < |existing| && existing[k] == Latest(existing, r).value;
    }
  }

  ghost predicate Holds(rows: seq<EconomicRow>, observedAt: int, revision: int, value: string)
  {
    exists k :: 0 <= k < |rows| && rows[k].observedAt == observedAt && rows[k].revision == revision && rows[k].value == value
  }

  /** Everything a prepared batch promises before it is merged. */
  ghost predicate Prepared(existing: seq<EconomicRow>, p: Revised)
  {
    && |p.revisions| == |p.built|
    && (forall m :: 0 <= m < |p.incoming| ==> Improves(existing, p.incoming[m], p.incoming[m]))
    && (forall i :: 0 <= i < |p.built| ==> Holds(existing + p.incoming, p.built[i].observedAt, p.revisions[i], p.built[i].value))
  }

  lemma HoldsMore(rows: seq<EconomicRow>, more: seq<EconomicRow>, observedAt: int, revision: int, value: string)
    requires Holds(rows, observedAt, revision, value)
    requires forall x :: x in rows ==> x in more
    ensures Holds(more, observedAt, revision, value)
  {
    var k :| 0 <= k < |rows| && rows[k].observedAt == observedAt && rows[k].revision == revision && rows[k].value == value;
    assert rows[k] in more;
    var j :| 0 <= j < |more| && more[j] == rows[k];
  }

  lemma LatestIgnoresRevision(rows: seq<EconomicRow>, r: EconomicRow, revision: int)
    ensures Latest(rows, r.(revision := revision)) == Latest(rows, r)
    decreases |rows|
  {
    assert EconomicSeriesKey(r.(revision := revision)) == EconomicSeriesKey(r);
    if rows != [] {
      LatestIgnoresRevision(rows[..|rows| - 1], r, revision);
    }
  }

  lemma AddKeepsHeld(existing: seq<EconomicRow>, p: Revised, r: EconomicRow, decision: Decision)
    requires Prepared(existing, p) && !decision.Conflict?
    requires decision.Append? ==> decision.row == r.(revision := decision.row.revision)
    requires decision.Keep? ==> Holds(existing, r.observedAt, decision.revision, r.value)
    ensures var q := AddDecision(p, r, decision);
            forall i :: 0 <= i < |q.built| ==> Holds(existing + q.incoming, q.built[i].observedAt, q.revisions[i], q.built[i].value)
  {
    var q := AddDecision(p, r, decision);
    hide Holds, Improves;
    assert forall x :: x in existing + p.incoming ==> x in existing + q.incoming;
    forall i | 0 <= i < |q.built| ensures Holds(existing + q.incoming, q.built[i].observedAt, q.revisions[i], q.built[i].value) {
      if i < |p.built| {
        HoldsMore(existing + p.incoming, existing + q.incoming, q.built[i].observedAt, q.revisions[i], q.built[i].value);
      } else if decision.Append? {
        HoldsLast(existing + p.incoming, decision.row);
        assert existing + q.incoming == existing + p.incoming + [decision.row];
      } else {
        HoldsMore(existing, existing + q.incoming, r.observedAt, decision.revision, r.value);
      }
    }
  }

  lemma HoldsLast(rows: seq<EconomicRow>, row: EconomicRow)
    ensures Holds(rows + [row], row.observedAt, row.revision, row.value)
  {
    assert (rows + [row])[|rows|] == row;
  }

  lemma AddKeepsImproved(existing: seq<EconomicRow>, p: Revised, r: EconomicRow, decision: Decision)
    requires Prepared(existing, p) && !decision.Conflict?
    requires decision.Append? ==> Improves(existing, decision.row, decision.row)
    ensures var q := AddDecision(p, r, decision);
            forall m :: 0 <= m < |q.incoming| ==> Improves(existing, q.incoming[m], q.incoming[m])
  {
    hide Holds, Improves;
  }

  lemma AddKeepsPrepared(existing: seq<EconomicRow>, p: Revised, r: EconomicRow)
    requires Prepared(existing, p) && OneSeries(existing, r.source, r.seriesId) && r.source != "alfred"
    requires !Revise(existing, r).Conflict?
    ensures Prepared(existing, AddDecision(p, r, Revise(existing, r)))
  {
    var decision := Revise(existing, r);
    DecisionImproves(existing, r);
    if decision.Append? {
      LatestIgnoresRevision(existing, r, decision.row.revision);
      assert Improves(existing, decision.row, decision.row);
    }
    hide Revise, Latest, Improves, Holds;
    AddKeepsHeld(existing, p, r, decision);
    AddKeepsImproved(existing, p, r, decision);
  }

  ghost predicate SeriesBatch(obs: seq<EconomicObservation>, source: string, seriesId: string)
  {
    forall i :: 0 <= i < |obs| ==> obs[i].source == source && obs[i].seriesId == seriesId
  }

  lemma PrepareStep(existing: seq<EconomicRow>, obs: seq<EconomicObservation>)
    requires obs != [] && Prepare(existing, obs).Ok?
    ensures var before, built := Prepare(existing, obs[..|obs| - 1]), BuildEconomic(obs[|obs| - 1]);
            && before.Ok? && built.Ok? && !Revise(existing, built.value).Conflict?
            && Prepare(existing, obs).value == AddDecision(before.value, built.value, Revise(existing, built.value))
  {
    hide BuildEconomic, Revise, AddDecision;
  }

  lemma {:induction false} BuiltInStep(existing: seq<EconomicRow>, obs: seq<EconomicObservation>)
    requires Prepare(existing, obs).Ok?
    ensures var p := Prepare(existing, obs).value;
            && |p.built| == |p.revisions| == |obs|
            && forall i :: 0 <= i < |obs| ==> BuildEconomic(obs[i]) == Ok(p.built[i])
    decreases |obs|
  {
    hide Revise, BuildEconomic;
    if obs != [] {
      PrepareStep(existing, obs);
      hide Prepare;
      BuiltInStep(existing, obs[..|obs| - 1]);
    }
  }

  lemma {:induction false} BatchIsPrepared(existing: seq<EconomicRow>, obs: seq<EconomicObservation>, source: string, seriesId: string)
    requires OneSeries(existing, source, seriesId) && source != "alfred"
    requires SeriesBatch(obs, source, seriesId) && Prepare(existing, obs).Ok?
    ensures Prepared(existing, Prepare(existing, obs).value)
    decreases |obs|
  {
    if obs != [] {
      hide Prepare, Revise, BuildEconomic, Prepared, AddDecision;
      var front, last := obs[..|obs| - 1], obs[|obs| - 1];
      PrepareStep(existing, obs);
      BatchIsPrepared(existing, front, source, seriesId);
      BuiltInStep(existing, front);
      EconomicTimes(last);
      AddKeepsPrepared(existing, Prepare(existing, front).value, BuildEconomic(last).value);
    } else {
      assert existing + [] == existing;
    }
  }

  lemma EconomicTimes(o: EconomicObservation)
    requires BuildEconomic(o).Ok?
    ensures var r := BuildEconomic(o).value;
            && r.source == o.source && r.seriesId == o.seriesId
            && r.observedAt * Instants.MICRO == o.temporal.observedAt
  {
    hide Decimals.CanonicalDecimal, ValidProvenance, StampOf, Instants.ValidTemporal;
  }

  /** Appending rows that improve on the committed ones keeps the discipline exactly when the appended rows obey it themselves. */
  lemma DisciplineKeptIff(existing: seq<EconomicRow>, delta: seq<EconomicRow>, source: string, seriesId: string)
    requires OneSeries(existing, source, seriesId) && OneSeries(delta, source, seriesId)
    requires RevisionsRise(existing) && NeighboursDiffer(existing)
    requires forall x :: x in delta ==> Improves(existing, x, x)
    ensures RevisionsRise(existing + delta) && NeighboursDiffer(existing + delta) <==> RevisionsRise(delta) && NeighboursDiffer(delta)
  {
    hide Improves, Neighbours;
    var after := existing + delta;
    if RevisionsRise(after) && NeighboursDiffer(after) {
      TailDiscipline(existing, delta);
    }
    if RevisionsRise(delta) && NeighboursDiffer(delta) {
      forall i, j | 0 <= i < j < |after| && after[i].observedAt == after[j].observedAt
        ensures after[i].revision < after[j].revision && (Neighbours(after, i, j) ==> after[i].value != after[j].value)
      {
        JoinedPair(existing, delta, source, seriesId, i, j);
      }
      SameTimeWhenNeighbours(after);
    }
  }

  lemma SameTimeWhenNeighbours(rows: seq<EconomicRow>)
    ensures forall i, j :: 0 <= i < j < |rows| && Neighbours(rows, i, j) ==> rows[i].observedAt == rows[j].observedAt
  {
  }

  lemma TailDiscipline(existing: seq<EconomicRow>, delta: seq<EconomicRow>)
    requires RevisionsRise(existing + delta) && NeighboursDiffer(existing + delta)
    ensures RevisionsRise(delta) && NeighboursDiffer(delta)
  {
    hide Neighbours;
    var n, after := |existing|, existing + delta;
    SameTimeWhenNeighbours(delta);
    forall i, j | 0 <= i < j < |delta| && delta[i].observedAt == delta[j].observedAt
      ensures delta[i].revision < delta[j].revision && (Neighbours(delta, i, j) ==> delta[i].value != delta[j].value)
    {
      assert after[n + i] == delta[i] && after[n + j] == delta[j];
      ShiftedNeighbours(existing, delta, i, j);
    }
  }

  lemma ShiftedNeighbours(existing: seq<EconomicRow>, delta: seq<EconomicRow>, i: nat, j: nat)
    requires i < j < |delta|
    ensures Neighbours(delta, i, j) <==> Neighbours(existing + delta, |existing| + i, |existing| + j)
  {
    var n, after := |existing|, existing + delta;
    assert forall k :: 0 <= k < |delta| ==> after[n + k] == delta[k];
    if Neighbours(delta, i, j) {
      forall k | n + i < k < n + j ensures after[k].observedAt != after[n + i].observedAt {
        assert after[k] == delta[k - n];
      }
    }
    if Neighbours(after, n + i, n + j) {
      forall k | i < k < j ensures delta[k].observedAt != delta[i].observedAt {
        assert after[n + k] == delta[k];
      }
    }
  }

  lemma JoinedPair(existing: seq<EconomicRow>, delta: seq<EconomicRow>, source: string, seriesId: string, i: nat, j: nat)
    requires OneSeries(existing, source, seriesId) && OneSeries(delta, source, seriesId)
    requires RevisionsRise(existing) && NeighboursDiffer(existing) && RevisionsRise(delta) && NeighboursDiffer(delta)
    requires forall x :: x in delta ==> Improves(existing, x, x)
    requires i < j < |existing + delta| && (existing + delta)[i].observedAt == (existing + delta)[j].observedAt
    ensures (existing + delta)[i].revision < (existing + delta)[j].revision
    ensures Neighbours(existing + delta, i, j) ==> (existing + delta)[i].value != (existing + delta)[j].value
  {
    hide Latest;
    var n, after := |existing|, existing + delta;
    if j < n {
      assert after[i] == existing[i] && after[j] == existing[j];
      assert forall k :: i < k < j ==> after[k] == existing[k];
      assert Neighbours(after, i, j) <==> Neighbours(existing, i, j);
    } else if i >= n {
      assert after[i] == delta[i - n] && after[j] == delta[j - n];
      ShiftedNeighbours(existing, delta, i - n, j - n);
    } else {
      var row := delta[j - n];
      assert row in delta && after[i] == existing[i] && after[j] == row;
      if Neighbours(after, i, j) {
        assert forall k :: i < k < n ==> after[k] == existing[k];
        LatestIsLast(existing, row, i);
      }
    }
  }

  /** Two rows that differ in nothing the discipline looks at. */
  predicate SameSpot(a: EconomicRow, b: EconomicRow)
  {
    a.observedAt == b.observedAt && a.publishedAt == b.publishedAt && a.revision == b.revision && a.value == b.value
  }

  /** Every row of one list has its like in the other. */
  ghost predicate Represented(a: seq<EconomicRow>, b: seq<EconomicRow>)
  {
    forall x :: x in a ==> exists y :: y in b && SameSpot(x, y)
  }

  lemma OrderlyMoves(a: seq<EconomicRow>, b: seq<EconomicRow>)
    requires Orderly(a) && Represented(a, b) && Represented(b, a)
    ensures Orderly(b)
  {
    hide LandsBefore, SameSpot, NothingBetween;
    forall x, y | x in b && y in b && x.observedAt == y.observedAt && LandsBefore(x, y)
      ensures x.revision < y.revision && (NothingBetween(b, x, y) ==> x.value != y.value)
    {
      var p :| p in a && SameSpot(x, p);
      var q :| q in a && SameSpot(y, q);
      OrderlyPair(a, b, x, y, p, q);
    }
  }

  lemma OrderlyPair(a: seq<EconomicRow>, b: seq<EconomicRow>, x: EconomicRow, y: EconomicRow, p: EconomicRow, q: EconomicRow)
    requires Orderly(a) && Represented(a, b) && p in a && q in a && SameSpot(x, p) && SameSpot(y, q)
    requires x.observedAt == y.observedAt && LandsBefore(x, y)
    ensures x.revision < y.revision && (NothingBetween(b, x, y) ==> x.value != y.value)
  {
    hide LandsBefore, SameSpot, NothingBetween, Represented;
    SameLanding(x, p, y, q);
    if NothingBetween(b, x, y) {
      BetweenMoves(a, b, x, y, p, q);
    }
  }

  lemma BetweenMoves(a: seq<EconomicRow>, b: seq<EconomicRow>, x: EconomicRow, y: EconomicRow, p: EconomicRow, q: EconomicRow)
    requires Represented(a, b) && SameSpot(x, p) && SameSpot(y, q) && NothingBetween(b, x, y)
    ensures NothingBetween(a, p, q)
  {
    hide LandsBefore, SameSpot;
    forall c | c in a && c.observedAt == p.observedAt ensures !(LandsBefore(p, c) && LandsBefore(c, q)) {
      var d :| d in b && SameSpot(c, d);
      SameLanding(x, p, d, c);
      SameLanding(d, c, y, q);
    }
  }

  lemma SameLanding(x: EconomicRow, p: EconomicRow, y: EconomicRow, q: EconomicRow)
    requires (SameSpot(x, p) || SameSpot(p, x)) && (SameSpot(y, q) || SameSpot(q, y))
    ensures LandsBefore(x, y) <==> LandsBefore(p, q)
    ensures x.observedAt == p.observedAt && x.revision == p.revision && x.value == p.value
    ensures y.observedAt == q.observedAt && y.revision == q.revision && y.value == q.value
  {
    hide Text.Sprint, Text.Less;
  }

  ghost predicate LandInOrder(rows: seq<EconomicRow>)
  {
    forall i, j :: 0 <= i < j < |rows| && rows[i].observedAt == rows[j].observedAt ==> LandsBefore(rows[i], rows[j])
  }

  /** For rows already in the order they land in, the discipline is what Orderly says. */
  lemma LandedIffOrderly(rows: seq<EconomicRow>)
    requires LandInOrder(rows)
    ensures RevisionsRise(rows) && NeighboursDiffer(rows) <==> Orderly(rows)
  {
    hide LandsBefore;
    if RevisionsRise(rows) && NeighboursDiffer(rows) {
      forall a, b | a in rows && b in rows && a.observedAt == b.observedAt && LandsBefore(a, b)
        ensures a.revision < b.revision && (NothingBetween(rows, a, b) ==> a.value != b.value)
      {
        var i :| 0 <= i < |rows| && rows[i] == a;
        var j :| 0 <= j < |rows| && rows[j] == b;
        LandsOnce(a, b);
        assert i < j;
        if NothingBetween(rows, a, b) {
          forall k | i < k < j ensures rows[k].observedAt != a.observedAt {
            assert rows[k] in rows;
          }
          assert Neighbours(rows, i, j);
        }
      }
    }
    if Orderly(rows) {
      forall i, j | 0 <= i < j < |rows| && rows[i].observedAt == rows[j].observedAt
        ensures rows[i].revision < rows[j].revision && (Neighbours(rows, i, j) ==> rows[i].value != rows[j].value)
      {
        assert rows[i] in rows && rows[j] in rows;
        if Neighbours(rows, i, j) {
          NeighboursHaveNothingBetween(rows, i, j);
        }
      }
    }
  }

  lemma NeighboursHaveNothingBetween(rows: seq<EconomicRow>, i: nat, j: nat)
    requires LandInOrder(rows) && i < j < |rows| && Neighbours(rows, i, j)
    ensures NothingBetween(rows, rows[i], rows[j])
  {
    hide LandsBefore;
    forall c | c in rows && c.observedAt == rows[i].observedAt ensures !(LandsBefore(rows[i], c) && LandsBefore(c, rows[j])) {
      var k :| 0 <= k < |rows| && rows[k] == c;
      LandsOnce(c, rows[i]);
      LandsOnce(c, rows[j]);
      LandsOnce(rows[j], c);
    }
  }

  lemma DifferentTimesOrderly(rows: seq<EconomicRow>)
    requires forall a, b :: a in rows && b in rows && a.observedAt == b.observedAt ==> a == b
    ensures Orderly(rows)
  {
    hide LandsBefore;
    forall a, b | a in rows && b in rows && a.observedAt == b.observedAt ensures !LandsBefore(a, b) {
      LandsOnce(a, b);
    }
  }

  /** A batch with one observation per time is orderly whatever is committed. */
  lemma {:induction false} OnePerTimeOrderly(existing: seq<EconomicRow>, obs: seq<EconomicObservation>)
    requires Prepare(existing, obs).Ok?
    requires forall i, j :: 0 <= i < j < |obs| ==> obs[i].temporal.observedAt != obs[j].temporal.observedAt
    ensures Orderly(Prepare(existing, obs).value.incoming)
  {
    OnePerTime(existing, obs);
    DifferentTimesOrderly(Prepare(existing, obs).value.incoming);
  }

  lemma {:induction false} OnePerTime(existing: seq<EconomicRow>, obs: seq<EconomicObservation>)
    requires Prepare(existing, obs).Ok?
    requires forall i, j :: 0 <= i < j < |obs| ==> obs[i].temporal.observedAt != obs[j].temporal.observedAt
    ensures var incoming := Prepare(existing, obs).value.incoming;
            && (forall x :: x in incoming ==> exists i :: 0 <= i < |obs| && x.observedAt * Instants.MICRO == obs[i].temporal.observedAt)
            && (forall a, b :: a in incoming && b in incoming && a.observedAt == b.observedAt ==> a == b)
    decreases |obs|
  {
    if obs != [] {
      var front, last := obs[..|obs| - 1], obs[|obs| - 1];
      PrepareStep(existing, obs);
      OnePerTime(existing, front);
      EconomicTimes(last);
      RevisedTime(existing, BuildEconomic(last).value);
      hide Prepare, BuildEconomic, Revise;
      var before, incoming := Prepare(existing, front).value.incoming, Prepare(existing, obs).value.incoming;
      forall x | x in before ensures exists i :: 0 <= i < |front| && obs[i].temporal.observedAt == x.observedAt * Instants.MICRO {
        var i :| 0 <= i < |front| && x.observedAt * Instants.MICRO == front[i].temporal.observedAt;
        assert obs[i] == front[i];
      }
      forall x | x in incoming ensures exists i :: 0 <= i < |obs| && x.observedAt * Instants.MICRO == obs[i].temporal.observedAt {
        if x !in before {
          assert x.observedAt * Instants.MICRO == obs[|obs| - 1].temporal.observedAt;
        }
      }
    }
  }

  lemma RevisedTime(existing: seq<EconomicRow>, r: EconomicRow)
    ensures Revise(existing, r).Append? ==> Revise(existing, r).row.observedAt == r.observedAt
  {
    hide Latest, EconomicKey, SameEconomic;
  }

  // ---------- conditions on the observations alone ----------

  /** The revision an appended row gets. */
  function Raised(latest: Option<EconomicRow>, revision: int): int
  {
    if latest.None? || revision > latest.value.revision then revision else latest.value.revision + 1
  }

  lemma {:induction false} LatestByTime(rows: seq<EconomicRow>, a: EconomicRow, b: EconomicRow)
    requires EconomicSeriesKey(a) == EconomicSeriesKey(b)
    ensures Latest(rows, a) == Latest(rows, b)
    decreases |rows|
  {
    hide EconomicSeriesKey;
    if rows != [] {
      LatestByTime(rows[..|rows| - 1], a, b);
    }
  }

  /** The row an observation would append. */
  ghost predicate AppendsAs(existing: seq<EconomicRow>, o: EconomicObservation, x: EconomicRow)
  {
    BuildEconomic(o).Ok? && var r := BuildEconomic(o).value; x == r.(revision := Raised(Latest(existing, r), r.revision))
  }

  lemma {:induction false} IncomingAreRaised(existing: seq<EconomicRow>, obs: seq<EconomicObservation>, x: EconomicRow)
    requires Prepare(existing, obs).Ok? && x in Prepare(existing, obs).value.incoming
    requires forall i :: 0 <= i < |obs| ==> obs[i].source != "alfred"
    ensures exists i :: 0 <= i < |obs| && AppendsAs(existing, obs[i], x)
    decreases |obs|
  {
    if obs != [] {
      var front, last := obs[..|obs| - 1], obs[|obs| - 1];
      PrepareStep(existing, obs);
      EconomicTimes(last);
      LastRaised(existing, last);
      hide Prepare, BuildEconomic, Revise, AppendsAs;
      if x in Prepare(existing, front).value.incoming {
        IncomingAreRaised(existing, front, x);
        var i :| 0 <= i < |front| && AppendsAs(existing, front[i], x);
        assert AppendsAs(existing, obs[i], x);
      }
    }
  }

  lemma LastRaised(existing: seq<EconomicRow>, o: EconomicObservation)
    requires BuildEconomic(o).Ok? && BuildEconomic(o).value.source != "alfred"
    ensures var decision := Revise(existing, BuildEconomic(o).value); decision.Append? ==> AppendsAs(existing, o, decision.row)
  {
    hide BuildEconomic, Latest, EconomicKey, SameEconomic;
  }

  function CanonicalValue(o: EconomicObservation): string
  {
    var c := Decimals.CanonicalDecimal(o.value, false);
    if o.value == "" || c.Err? then "" else c.value
  }

  /** Two observations of one time are of one publication, and are one revision or differ in value under revisions of one length. */
  predicate SafeTogether(a: EconomicObservation, b: EconomicObservation)
  {
    a.temporal.observedAt == b.temporal.observedAt ==>
      && a.temporal.publishedAt == b.temporal.publishedAt
      && (a.revision == b.revision || (|Text.Sprint(a.revision)| == |Text.Sprint(b.revision)| && CanonicalValue(a) != CanonicalValue(b)))
  }

  predicate SafeBatch(obs: seq<EconomicObservation>)
  {
    forall i, j :: 0 <= i < |obs| && 0 <= j < |obs| ==> SafeTogether(obs[i], obs[j])
  }

  /** What a built row shows of its observation. */
  lemma BuiltShows(o: EconomicObservation)
    requires BuildEconomic(o).Ok?
    ensures var r := BuildEconomic(o).value;
            && r.observedAt * Instants.MICRO == o.temporal.observedAt && r.publishedAt * Instants.MICRO == o.temporal.publishedAt
            && r.revision == o.revision >= 0 && r.value == CanonicalValue(o) && r.source == o.source && r.seriesId == o.seriesId
  {
    hide Decimals.CanonicalDecimal, ValidProvenance, StampOf;
  }

  lemma RaisedInOrder(latest: Option<EconomicRow>, a: int, b: int)
    requires a >= 0 && b >= 0 && a != b && |Text.Sprint(a)| == |Text.Sprint(b)|
    requires Text.Less(Text.Sprint(Raised(latest, a)), Text.Sprint(Raised(latest, b)))
    ensures Raised(latest, a) < Raised(latest, b)
  {
    var x, y := Raised(latest, a), Raised(latest, b);
    Text.LessTrichotomy(Text.Sprint(x), Text.Sprint(y));
    if y < x {
      assert b <= y < x == a;
      Text.LongerNumber(b, y);
      Text.LongerNumber(y, x);
      Text.NumbersInOrder(y, x);
    } else if x == y {
      Text.LessTrichotomy(Text.Sprint(x), Text.Sprint(x));
    }
  }

  /** A safe batch is orderly whatever is committed. */
  lemma SafeBatchOrderly(existing: seq<EconomicRow>, obs: seq<EconomicObservation>, source: string, seriesId: string)
    requires source != "alfred" && SeriesBatch(obs, source, seriesId) && SafeBatch(obs) && Prepare(existing, obs).Ok?
    ensures Orderly(Prepare(existing, obs).value.incoming)
  {
    hide Prepare, AppendsAs, SafeTogether, LandsBefore, NothingBetween;
    var rows := Prepare(existing, obs).value.incoming;
    forall x, y | x in rows && y in rows && x.observedAt == y.observedAt && LandsBefore(x, y)
      ensures x.revision < y.revision && (NothingBetween(rows, x, y) ==> x.value != y.value)
    {
      IncomingAreRaised(existing, obs, x);
      IncomingAreRaised(existing, obs, y);
      var i :| 0 <= i < |obs| && AppendsAs(existing, obs[i], x);
      var j :| 0 <= j < |obs| && AppendsAs(existing, obs[j], y);
      SafePair(existing, obs[i], obs[j], x, y);
    }
  }

  lemma SafePair(existing: seq<EconomicRow>, a: EconomicObservation, b: EconomicObservation, x: EconomicRow, y: EconomicRow)
    requires AppendsAs(existing, a, x) && AppendsAs(existing, b, y) && SafeTogether(a, b) && a.source == b.source && a.seriesId == b.seriesId
    requires x.observedAt == y.observedAt && LandsBefore(x, y)
    ensures x.revision < y.revision && x.value != y.value
  {
    BuiltShows(a);
    BuiltShows(b);
    hide BuildEconomic, Text.Sprint, Text.Less, Latest, CanonicalValue;
    var r, s := BuildEconomic(a).value, BuildEconomic(b).value;
    KeyFields(r, s);
    LatestByTime(existing, r, s);
    Text.LessTrichotomy(Text.Sprint(x.publishedAt), Text.Sprint(y.publishedAt));
    Text.LessTrichotomy(Text.Sprint(x.revision), Text.Sprint(y.revision));
    if a.revision != b.revision {
      RaisedInOrder(Latest(existing, r), a.revision, b.revision);
    }
  }

  /** The rows the observations build, in order. */
  function Built(obs: seq<EconomicObservation>): seq<EconomicRow>
  {
    if obs == [] then []
    else Built(obs[..|obs| - 1]) + if BuildEconomic(obs[|obs| - 1]).Ok? then [BuildEconomic(obs[|obs| - 1]).value] else []
  }

  lemma {:induction false} FirstRowsAreBuilt(obs: seq<EconomicObservation>)
    requires Prepare([], obs).Ok?
    ensures Prepare([], obs).value.incoming == Built(obs)
    decreases |obs|
  {
    if obs != [] {
      PrepareStep([], obs);
      assert Latest([], BuildEconomic(obs[|obs| - 1]).value) == None;
      hide Prepare, BuildEconomic, Latest;
      FirstRowsAreBuilt(obs[..|obs| - 1]);
    }
  }

  /** Without key conflicts every row of a batch that improves is appended, or a row like it is. */
  lemma AppendedRepresents(existing: seq<EconomicRow>, incoming: seq<EconomicRow>, delta: seq<EconomicRow>, source: string, seriesId: string)
    requires OneSeries(existing, source, seriesId) && OneSeries(incoming, source, seriesId)
    requires DistinctKeys(EconomicDataset(source, seriesId), existing)
    requires forall m :: 0 <= m < |incoming| ==> Improves(existing, incoming[m], incoming[m])
    requires var d := EconomicDataset(source, seriesId);
             var a := Admit(d, SameEconomic, Index(d, existing), incoming);
             a.conflicts == [] && multiset(delta) == multiset(a.accepted)
    ensures Represented(incoming, delta) && forall x :: x in delta ==> x in incoming
  {
    hide Admit, Index, EconomicKey, Improves, SameEconomic, SameSpot;
    var d := EconomicDataset(source, seriesId);
    var a := Admit(d, SameEconomic, Index(d, existing), incoming);
    AcceptedFromInput(d, SameEconomic, Index(d, existing), incoming);
    AcceptedRows(d, SameEconomic, existing, incoming);
    SameItself(incoming);
    NoConflictMeansSame(d, SameEconomic, Index(d, existing), incoming);
    SameMembers(delta, a.accepted);
    forall x | x in incoming ensures exists y :: y in delta && SameSpot(x, y) {
      var i :| 0 <= i < |incoming| && incoming[i] == x;
      var y := a.known[d.key(x)];
      HolderIsAppended(d, existing, a.accepted, a.known, d.key(x));
      if y in existing {
        var k :| 0 <= k < |existing| && existing[k] == y;
        NotAmongCommitted(existing, x, k);
      }
      SpotOfSame(y, x);
    }
  }

  lemma SameItself(rows: seq<EconomicRow>)
    ensures forall x :: x in rows ==> SameEconomic(x, x)
  {
  }

  /** A row that improves on the committed ones is none of them. */
  lemma NotAmongCommitted(existing: seq<EconomicRow>, x: EconomicRow, k: nat)
    requires k < |existing| && Improves(existing, x, x)
    ensures !SameEconomic(existing[k], x)
  {
    hide Latest;
  }

  lemma SpotOfSame(y: EconomicRow, x: EconomicRow)
    requires SameEconomic(y, x)
    ensures SameSpot(x, y)
  {
  }

  lemma HolderIsAppended(d: Dataset<EconomicRow>, existing: seq<EconomicRow>, accepted: seq<EconomicRow>, known: map<string, EconomicRow>, key: string)
    requires IndexOf(d, known, existing + accepted) && key in known
    ensures known[key] in existing || known[key] in accepted
  {
    assert key in KeysOf(d, existing + accepted);
    var n :| 0 <= n < |existing + accepted| && d.key((existing + accepted)[n]) == key;
  }

  lemma AscendingKeysLandInOrder(d: Dataset<EconomicRow>, delta: seq<EconomicRow>, source: string, seriesId: string)
    requires d == EconomicDataset(source, seriesId) && OneSeries(delta, source, seriesId) && KeysAscend(d, delta)
    ensures LandInOrder(delta)
  {
    hide LandsBefore, EconomicKey;
    forall i, j | 0 <= i < j < |delta| && delta[i].observedAt == delta[j].observedAt ensures LandsBefore(delta[i], delta[j]) {
      KeyOrder(delta[i], delta[j]);
    }
  }

  // ---------- the write ----------

  /** A refresh that changes nothing fails exactly when the committed rows are not already in key order. */
  lemma NoOpRefresh(d: Dataset<EconomicRow>, existing: seq<EconomicRow>)
    requires DistinctKeys(d, existing)
    ensures PlanWrite(d, SameEconomic, existing, [], false).Err? <==> !Sorted(ByKey(d), existing)
    ensures PlanWrite(d, SameEconomic, existing, [], false).Ok? ==>
              Delta(d, existing, PlanWrite(d, SameEconomic, existing, [], false).value.rows) == []
  {
    assert existing + [] == existing;
    KeyOrderTotal(d, existing);
    var dom := set x | x in existing;
    SortBySorted(ByKey(d), existing, dom);
    if Sorted(ByKey(d), existing) {
      SortedUnique(ByKey(d), existing, SortByKey(d, existing), dom);
    }
    DeltaIsAccepted(d, existing, []);
    assert |multiset(Delta(d, existing, SortByKey(d, existing)))| == 0;
  }

  function EconomicIdentity(seriesId: string, source: string): Identity
  {
    PartitionIdentity("macroeconomics", source, "series_id", seriesId)
  }

  /**
   The rows a write leaves committed obey the discipline exactly when its revised rows
   are orderly: revisions look at committed rows only, so rows of one time inside a
   batch must already rise and differ in the order they land. Either way every
   caller's revision names a committed row with its value.
   */
  lemma EconomicWriteKeepsDisciplineIff(existing: seq<EconomicRow>, obs: seq<EconomicObservation>, source: string, seriesId: string)
    requires source != "alfred" && SeriesBatch(obs, source, seriesId) && OneSeries(existing, source, seriesId)
    requires RevisionsRise(existing) && NeighboursDiffer(existing) && DistinctKeys(EconomicDataset(source, seriesId), existing)
    requires Prepare(existing, obs).Ok?
    requires PlanWrite(EconomicDataset(source, seriesId), SameEconomic, existing, Prepare(existing, obs).value.incoming, false).Ok?
    ensures var d := EconomicDataset(source, seriesId);
            var p := Prepare(existing, obs).value;
            var after := existing + Delta(d, existing, PlanWrite(d, SameEconomic, existing, p.incoming, false).value.rows);
            && |p.revisions| == |p.built| == |obs|
            && (RevisionsRise(after) && NeighboursDiffer(after) <==> Orderly(p.incoming))
            && (forall i :: 0 <= i < |obs| ==>
                  BuildEconomic(obs[i]) == Ok(p.built[i]) && Holds(after, p.built[i].observedAt, p.revisions[i], p.built[i].value))
  {
    hide Prepare, BuildEconomic, Latest, Admit, Improves, Holds, SortByKey, LandsBefore, Orderly, RevisionsRise, NeighboursDiffer, Index;
    var d := EconomicDataset(source, seriesId);
    var p := Prepare(existing, obs).value;
    var delta := Delta(d, existing, PlanWrite(d, SameEconomic, existing, p.incoming, false).value.rows);
    BatchIsPrepared(existing, obs, source, seriesId);
    BuiltInStep(existing, obs);
    IncomingInSeries(existing, obs, source, seriesId);
    AppendedRows(existing, p.incoming, source, seriesId);
    AppendedRepresents(existing, p.incoming, delta, source, seriesId);
    AscendingKeysLandInOrder(d, delta, source, seriesId);
    DisciplineKeptIff(existing, delta, source, seriesId);
    LandedIffOrderly(delta);
    assert Represented(delta, p.incoming);
    if Orderly(delta) {
      OrderlyMoves(delta, p.incoming);
    }
    if Orderly(p.incoming) {
      OrderlyMoves(p.incoming, delta);
    }
    forall i | 0 <= i < |obs| ensures Holds(existing + delta, p.built[i].observedAt, p.revisions[i], p.built[i].value) {
      HoldsLike(existing, p.incoming, delta, p.built[i].observedAt, p.revisions[i], p.built[i].value);
    }
  }

  /** The first write of a series obeys the discipline exactly when the rows its observations build are orderly. */
  lemma FirstWriteKeepsDisciplineIff(obs: seq<EconomicObservation>, source: string, seriesId: string)
    requires source != "alfred" && SeriesBatch(obs, source, seriesId) && Prepare([], obs).Ok?
    requires PlanWrite(EconomicDataset(source, seriesId), SameEconomic, [], Prepare([], obs).value.incoming, false).Ok?
    ensures var d := EconomicDataset(source, seriesId);
            var after := Delta(d, [], PlanWrite(d, SameEconomic, [], Prepare([], obs).value.incoming, false).value.rows);
            Prepare([], obs).value.incoming == Built(obs) && (RevisionsRise(after) && NeighboursDiffer(after) <==> Orderly(Built(obs)))
  {
    hide *;
    FirstRowsAreBuilt(obs);
    NothingYet(source, seriesId);
    EconomicWriteKeepsDisciplineIff([], obs, source, seriesId);
    var after := Delta(EconomicDataset(source, seriesId), [], PlanWrite(EconomicDataset(source, seriesId), SameEconomic, [], Built(obs), false).value.rows);
    assert [] + after == after;
  }

  lemma NothingYet(source: string, seriesId: string)
    ensures RevisionsRise([]) && NeighboursDiffer([]) && DistinctKeys(EconomicDataset(source, seriesId), []) && OneSeries([], source, seriesId)
  {
  }

  /** A safe batch keeps the discipline whatever is committed. */
  lemma SafeBatchKeepsDiscipline(existing: seq<EconomicRow>, obs: seq<EconomicObservation>, source: string, seriesId: string)
    requires source != "alfred" && SeriesBatch(obs, source, seriesId) && OneSeries(existing, source, seriesId) && SafeBatch(obs)
    requires RevisionsRise(existing) && NeighboursDiffer(existing) && DistinctKeys(EconomicDataset(source, seriesId), existing)
    requires Prepare(existing, obs).Ok?
    requires PlanWrite(EconomicDataset(source, seriesId), SameEconomic, existing, Prepare(existing, obs).value.incoming, false).Ok?
    ensures var d := EconomicDataset(source, seriesId);
            var after := existing + Delta(d, existing, PlanWrite(d, SameEconomic, existing, Prepare(existing, obs).value.incoming, false).value.rows);
            RevisionsRise(after) && NeighboursDiffer(after)
  {
    hide Prepare, PlanWrite, Delta, Orderly, RevisionsRise, NeighboursDiffer, DistinctKeys, EconomicDataset, SafeBatch;
    SafeBatchOrderly(existing, obs, source, seriesId);
    EconomicWriteKeepsDisciplineIff(existing, obs, source, seriesId);
  }

  /** What a conflict-free strict write appends: the accepted rows, all from the batch, in key order. */
  lemma AppendedRows(existing: seq<EconomicRow>, incoming: seq<EconomicRow>, source: string, seriesId: string)
    requires OneSeries(incoming, source, seriesId) && DistinctKeys(EconomicDataset(source, seriesId), existing)
    requires PlanWrite(EconomicDataset(source, seriesId), SameEconomic, existing, incoming, false).Ok?
    ensures var d := EconomicDataset(source, seriesId);
            var a := Admit(d, SameEconomic, Index(d, existing), incoming);
            var delta := Delta(d, existing, PlanWrite(d, SameEconomic, existing, incoming, false).value.rows);
            && a.conflicts == [] && multiset(delta) == multiset(a.accepted)
            && OneSeries(delta, source, seriesId) && KeysAscend(d, delta)
  {
    hide EconomicKey, SameEconomic, Admit, Index, SortByKey, CommonLineage, KeysAscend;
    var d := EconomicDataset(source, seriesId);
    var a := Admit(d, SameEconomic, Index(d, existing), incoming);
    AcceptedRows(d, SameEconomic, existing, incoming);
    AcceptedFromInput(d, SameEconomic, Index(d, existing), incoming);
    DeltaIsAccepted(d, existing, a.accepted);
    AppendedAscends(d, existing, a.accepted);
    var delta := Delta(d, existing, SortByKey(d, existing + a.accepted));
    SameMembers(delta, a.accepted);
    forall i | 0 <= i < |delta| ensures delta[i].source == source && delta[i].seriesId == seriesId {
      assert delta[i] in incoming;
    }
  }

  lemma HoldsLike(existing: seq<EconomicRow>, incoming: seq<EconomicRow>, delta: seq<EconomicRow>, observedAt: int, revision: int, value: string)
    requires Holds(existing + incoming, observedAt, revision, value) && Represented(incoming, delta)
    ensures Holds(existing + delta, observedAt, revision, value)
  {
    var k :| 0 <= k < |existing + incoming| && (existing + incoming)[k].observedAt == observedAt && (existing + incoming)[k].revision == revision && (existing + incoming)[k].value == value;
    if k < |existing| {
      assert (existing + delta)[k] == existing[k];
    } else {
      var x := incoming[k - |existing|];
      assert x in incoming;
      var y :| y in delta && SameSpot(x, y);
      var j :| 0 <= j < |delta| && delta[j] == y;
      assert (existing + delta)[|existing| + j] == y;
    }
  }

  lemma {:induction false} IncomingInSeries(existing: seq<EconomicRow>, obs: seq<EconomicObservation>, source: string, seriesId: string)
    requires forall i :: 0 <= i < |obs| ==> obs[i].source == source && obs[i].seriesId == seriesId
    requires Prepare(existing, obs).Ok?
    ensures OneSeries(Prepare(existing, obs).value.incoming, source, seriesId)
    decreases |obs|
  {
    if obs != [] {
      hide BuildEconomic, Latest, EconomicKey, SameEconomic;
      IncomingInSeries(existing, obs[..|obs| - 1], source, seriesId);
      EconomicTimes(obs[|obs| - 1]);
    }
  }

  // ---------- histories of economic writes ----------

  datatype Refresh = Refresh(obs: seq<EconomicObservation>, gitCommit: string, reached: nat)

  function SeriesTarget(source: string, seriesId: string): Target<EconomicRow>
  {
    Target(EconomicDataset(source, seriesId), SameEconomic, EconomicIdentity(seriesId, source))
  }

  /** The generic attempt a refresh turns into once it has been revised against the committed rows. */
  ghost function AsAttempt(t: Target<EconomicRow>, dir: Directory<EconomicRow>, a: Refresh): Attempt<EconomicRow>
  {
    var incoming := if t.Read(dir).Ok? && Prepare(t.Read(dir).value, a.obs).Ok? then Prepare(t.Read(dir).value, a.obs).value.incoming else [];
    Attempt(incoming, false, a.gitCommit, a.reached)
  }

  ghost function AfterRefreshes(t: Target<EconomicRow>, history: seq<Refresh>): Directory<EconomicRow>
  {
    if history == [] then map[]
    else
      var before := AfterRefreshes(t, history[..|history| - 1]);
      After(t, before, AsAttempt(t, before, history[|history| - 1]))
  }

  ghost predicate ValidRefreshes(t: Target<EconomicRow>, source: string, seriesId: string, history: seq<Refresh>)
  {
    history == [] ||
    (var before, last := AfterRefreshes(t, history[..|history| - 1]), history[|history| - 1];
     && ValidRefreshes(t, source, seriesId, history[..|history| - 1])
     && SeriesBatch(last.obs, source, seriesId)
     && (t.Read(before).Ok? && Prepare(t.Read(before).value, last.obs).Ok? ==> Orderly(Prepare(t.Read(before).value, last.obs).value.incoming))
     && ValidAttempt(t, before, AsAttempt(t, before, last)))
  }

  /**
   Over any history of orderly refreshes, completed or cut short, the committed rows
   of a series other than ALFRED's keep their revisions rising in write order and
   their neighbouring values different.
   */
  lemma {:induction false} DisciplineOverHistory(source: string, seriesId: string, history: seq<Refresh>)
    requires source != "alfred" && ValidRefreshes(SeriesTarget(source, seriesId), source, seriesId, history)
    ensures var t := SeriesTarget(source, seriesId);
            var now := AfterRefreshes(t, history);
            && PartsTrue(now)
            && (t.Read(now).Ok? ==> RevisionsRise(t.Read(now).value) && NeighboursDiffer(t.Read(now).value))
    decreases |history|
  {
    var t := SeriesTarget(source, seriesId);
    if history == [] {
      assert t.Read(map[]) == Ok([]);
    } else {
      var front, last := history[..|history| - 1], history[|history| - 1];
      var before := AfterRefreshes(t, front);
      DisciplineOverHistory(source, seriesId, front);
      var a := AsAttempt(t, before, last);
      AttemptReads(t, before, a);
      if t.Read(before).Ok? {
        if Appends(t, before, a) == [] {
          assert t.Read(before).value + [] == t.Read(before).value;
        } else {
          RefreshKeepsDiscipline(source, seriesId, before, last);
        }
      }
    }
  }

  lemma RefreshKeepsDiscipline(source: string, seriesId: string, before: Directory<EconomicRow>, last: Refresh)
    requires source != "alfred" && SeriesBatch(last.obs, source, seriesId)
    requires var t := SeriesTarget(source, seriesId);
             && t.Read(before).Ok? && RevisionsRise(t.Read(before).value) && NeighboursDiffer(t.Read(before).value)
             && (Prepare(t.Read(before).value, last.obs).Ok? ==>
                   Appends(t, before, AsAttempt(t, before, last)) != [] && Orderly(Prepare(t.Read(before).value, last.obs).value.incoming))
    ensures var t := SeriesTarget(source, seriesId);
            var after := t.Read(before).value + Appends(t, before, AsAttempt(t, before, last));
            RevisionsRise(after) && NeighboursDiffer(after)
  {
    var t := SeriesTarget(source, seriesId);
    var existing := t.Read(before).value;
    ReadableRows(t.d, before, t.identity);
    ReadingDistinct(t, before);
    assert OneSeries(existing, source, seriesId) by {
      forall i | 0 <= i < |existing| ensures existing[i].source == source && existing[i].seriesId == seriesId {
        assert Readable(t.d, existing[i]);
      }
    }
    hide ReadCommitted, ValidStoredEconomic, Latest;
    if Prepare(existing, last.obs).Ok? {
      EconomicWriteKeepsDisciplineIff(existing, last.obs, source, seriesId);
    } else {
      RejectedRefreshAppendsNothing(t, before, last);
      assert existing + [] == existing;
    }
  }

  lemma RejectedRefreshAppendsNothing(t: Target<EconomicRow>, before: Directory<EconomicRow>, last: Refresh)
    requires t.same == SameEconomic && t.Read(before).Ok? && Prepare(t.Read(before).value, last.obs).Err?
    ensures Appends(t, before, AsAttempt(t, before, last)) == []
  {
    ReadingDistinct(t, before);
    NoOpRefresh(t.d, t.Read(before).value);
  }

  // ---------- the in-place write ----------

  predicate EconomicBatchFits(seriesId: string, obs: seq<EconomicObservation>)
    requires obs != []
  {
    && ValidEconomicSource(obs[0].source) && SafeSegment(seriesId)
    && forall o :: o in obs ==> o.seriesId == seriesId && o.source == obs[0].source
  }

  /** A revised row keeps what the builder guarantees. */
  lemma RevisionWritable(r: EconomicRow, revision: int, source: string, seriesId: string, identity: Identity)
    requires Writable(EconomicDataset(source, seriesId), identity, r)
    ensures Writable(EconomicDataset(source, seriesId), identity, r.(revision := revision))
  {
    hide ValidLineage;
    var s := r.(revision := revision);
    assert s.(observedPrecision := Instants.NormalizePrecision(s.observedPrecision)) == s;
  }

  lemma {:induction false} PreparedWritable(existing: seq<EconomicRow>, obs: seq<EconomicObservation>, source: string, seriesId: string, identity: Identity)
    requires ValidIdentity(identity) && identity["source"] == source
    requires SeriesBatch(obs, source, seriesId) && Prepare(existing, obs).Ok?
    ensures AllWritable(EconomicDataset(source, seriesId), identity, Prepare(existing, obs).value.incoming)
    ensures |Prepare(existing, obs).value.incoming| <= |obs|
    decreases |obs|
  {
    if obs != [] {
      var front, last := obs[..|obs| - 1], obs[|obs| - 1];
      PrepareStep(existing, obs);
      var r := BuildEconomic(last).value;
      EconomicWritable(last, identity);
      RevisedRow(existing, r);
      hide Prepare, BuildEconomic, Revise, EconomicDataset, ValidIdentity, Writable;
      PreparedWritable(existing, front, source, seriesId, identity);
      if Revise(existing, r).Append? {
        RevisionWritable(r, Revise(existing, r).row.revision, source, seriesId, identity);
      }
    }
  }

  lemma RevisedRow(existing: seq<EconomicRow>, r: EconomicRow)
    ensures var decision := Revise(existing, r);
            decision.Append? ==> decision.row == r.(revision := decision.row.revision)
  {
    hide Latest, EconomicKey, SameEconomic;
  }

  lemma EconomicIdentityValid(seriesId: string, source: string)
    requires ValidEconomicSource(source) && SafeSegment(seriesId) && seriesId != ""
    ensures ValidIdentity(EconomicIdentity(seriesId, source)) && EconomicIdentity(seriesId, source)["source"] == source
  {
    var identity := EconomicIdentity(seriesId, source);
    assert identity.Keys == {"dataset", "source", "series_id"};
    assert |identity| == |identity.Keys|;
    FieldNamesSafe();
    SeriesNamesSafe();
  }

  lemma PreparedIsNamed(existing: seq<EconomicRow>, obs: seq<EconomicObservation>)
    requires Prepare(existing, obs).Ok? && obs != []
    ensures obs[|obs| - 1].seriesId != ""
  {
    hide Revise;
  }

  lemma SeriesNamesSafe()
    ensures Avoids("series_id", {'=', '\\', '/', '\0'}) && Avoids("macroeconomics", {'\\', '/', '\0'})
    ensures Avoids("fred", {'\\', '/', '\0'}) && Avoids("alfred", {'\\', '/', '\0'}) && Avoids("bcb", {'\\', '/', '\0'})
  {
  }

  /**
   The write proper: committed rows are read, the batch is built and revised
   against them, the rows that changed are merged strictly, and only after success
   the caller's observations receive their effective revisions.
   */
  method WriteEconomics(store: Store<EconomicRow>, seriesId: string, obs: array<EconomicObservation>, gitCommit: string)
    returns (r: Result<Revised, EconomicError>, ghost at: seq<nat>)
    requires store.Valid() && ValidGitCommit(gitCommit)
    requires obs.Length > 0 ==>
               var source := obs[0].source;
               var before := ReadCommitted(EconomicDataset(source, seriesId), store.files, EconomicIdentity(seriesId, source));
               before.Ok? ==> |before.value| + obs.Length <= MAX_INT
    modifies store, obs
    ensures store.Valid()
    ensures obs.Length == 0 ==> r == Ok(Revised([], [], [])) && store.files == old(store.files) && store.states == old(store.states)
    ensures r.Err? ==> obs[..] == old(obs[..])
    ensures r.Err? && !r.error.Failed? ==> store.files == old(store.files)
    ensures obs.Length > 0 ==>
            var source := old(obs[0].source);
            var d, identity := EconomicDataset(source, seriesId), EconomicIdentity(seriesId, source);
            var before := ReadCommitted(d, old(store.files), identity);
            && (before.Err? ==> r.Err? && store.files == old(store.files))
            && (r == Err(EconomicError.BadIdentity) <==> !EconomicBatchFits(seriesId, old(obs[..])))
            && (r.Ok? ==>
                  && before.Ok? && r == Prepare(before.value, old(obs[..]))
                  && |r.value.revisions| == obs.Length
                  && (forall i :: 0 <= i < obs.Length ==> obs[i] == old(obs[i]).(revision := r.value.revisions[i]))
                  && PlanWrite(d, SameEconomic, before.value, r.value.incoming, false).Ok?
                  && WriteOutcome(d, SameEconomic, identity, old(store.files), store.files, store.states, |old(store.states)|, at,
                                  r.value.incoming, false, gitCommit, PlanWrite(d, SameEconomic, before.value, r.value.incoming, false)))
            && (r.Err? && r.error.Failed? && before.Ok? ==>
                  && Prepare(before.value, old(obs[..])).Ok?
                  && WriteOutcome(d, SameEconomic, identity, old(store.files), store.files, store.states, |old(store.states)|, at,
                                  Prepare(before.value, old(obs[..])).value.incoming, false, gitCommit, Err(r.error.cause)))
  {
    hide ReadCommitted, Prepare, PlanWrite, WriteOutcome, EconomicDataset, EconomicIdentity, AllWritable, BuildEconomic;
    at := [];
    if obs.Length == 0 {
      return Ok(Revised([], [], [])), at;
    }
    ghost var given := obs[..];
    if !EconomicBatchFits(seriesId, obs[..]) {
      return Err(EconomicError.BadIdentity), at;
    }
    var source := obs[0].source;
    var d, identity := EconomicDataset(source, seriesId), EconomicIdentity(seriesId, source);
    var existing := ReadPartition(d, store.files, identity);
    if existing.Err? {
      return Err(EconomicError.Failed(Unreadable)), at;
    }
    var prepared := PrepareBatch(existing.value, obs);
    if prepared.Err? {
      PrepareErrors(existing.value, given);
      return Err(prepared.error), at;
    }
    var p := prepared.value;
    PreparedIsNamed(existing.value, given);
    EconomicIdentityValid(seriesId, source);
    PreparedWritable(existing.value, given, source, seriesId, identity);
    BuiltInStep(existing.value, given);
    ghost var before, from := store.files, |store.states|;
    var written;
    written, at := WriteRows(store, d, SameEconomic, identity, p.incoming, false, gitCommit);
    if written.Err? {
      return Err(EconomicError.Failed(written.error)), at;
    }
    OutcomeIsPlan(d, SameEconomic, identity, before, store.files, store.states, from, at, p.incoming, false, gitCommit, written);
    StampRevisions(obs, p.revisions);
    return Ok(p), at;
  }

  /** Writes the effective revisions back into the caller's slice. */
  method StampRevisions(obs: array<EconomicObservation>, revisions: seq<int>)
    requires |revisions| == obs.Length
    modifies obs
    ensures forall i :: 0 <= i < obs.Length ==> obs[i] == old(obs[i]).(revision := revisions[i])
  {
    for i := 0 to obs.Length
      invariant forall k :: 0 <= k < i ==> obs[k] == old(obs[k]).(revision := revisions[k])
      invariant forall k :: i <= k < obs.Length ==> obs[k] == old(obs[k])
    {
      obs[i] := obs[i].(revision := revisions[i]);
    }
  }

  lemma ReadableRows<T>(d: Dataset<T>, dir: Directory<T>, identity: Identity)
    requires ReadCommitted(d, dir, identity).Ok?
    ensures var rows := ReadCommitted(d, dir, identity).value; forall i :: 0 <= i < |rows| ==> Readable(d, rows[i])
  {
    if ManifestFile in dir {
      GatheredRowsReadable(d, dir, dir[ManifestFile].manifest.parts);
    }
  }

  lemma {:induction false} PrepareErrors(existing: seq<EconomicRow>, obs: seq<EconomicObservation>)
    requires Prepare(existing, obs).Err?
    ensures Prepare(existing, obs).error.BadObservation? || Prepare(existing, obs).error.ValueConflict?
    decreases |obs|
  {
    hide BuildEconomic, Revise;
    if obs != [] && Prepare(existing, obs[..|obs| - 1]).Err? {
      PrepareErrors(existing, obs[..|obs| - 1]);
    }
  }

  /** The building and revising loop. */
  method PrepareBatch(existing: seq<EconomicRow>, obs: array<EconomicObservation>) returns (r: Result<Revised, EconomicError>)
    ensures r == Prepare(existing, obs[..])
  {
    var p := Revised([], [], []);
    for i := 0 to obs.Length
      invariant Prepare(existing, obs[..i]) == Ok(p)
    {
      assert obs[..i + 1][..i] == obs[..i];
      var built := BuildEconomic(obs[i]);
      if built.Err? {
        PreparePrefix(existing, obs[..], i + 1);
        assert obs[..][..i + 1] == obs[..i + 1];
        return Err(EconomicError.BadObservation);
      }
      var decision := Revise(existing, built.value);
      if decision.Conflict? {
        PreparePrefix(existing, obs[..], i + 1);
        assert obs[..][..i + 1] == obs[..i + 1];
        return Err(ValueConflict(decision.key));
      }
      p := AddDecision(p, built.value, decision);
    }
    assert obs[..obs.Length] == obs[..];
    return Ok(p);
  }
}
