/**
 Latest-only projections. A batch is collapsed in memory before the guarded upserts
 run; collapsing must leave the table that upserting every candidate would leave.
 The two comparisons work at different precisions, so that is a theorem with a condition.
 */
module Projections {
  import opened Wrappers
  import opened Instants
  import opened Sorting
  import Text

  /** How one projection keys, compares, stores and guards its candidates. */
  datatype Projection<!C, !R> = Projection(key: C -> string, newer: (C, C) -> bool, row: C -> R, beats: (R, R) -> bool)

  /** The upsert guard is a strict order in which tied rows are interchangeable. */
  ghost predicate Lawful<C, R(!new)>(p: Projection<C, R>)
  {
    forall x, y, z {:trigger Compared(x, y, z)} :: Compared(x, y, z) ==>
      && !(p.beats(x, y) && p.beats(y, x))
      && (p.beats(x, z) ==> p.beats(x, y) || p.beats(y, z))
  }

  // ---------- guarded upserts ----------

  function Upsert<C, R>(p: Projection<C, R>, table: map<string, R>, c: C): map<string, R>
  {
    var k := p.key(c);
    if k !in table || p.beats(p.row(c), table[k]) then table[k := p.row(c)] else table
  }

  function UpsertAll<C, R>(p: Projection<C, R>, table: map<string, R>, cs: seq<C>): map<string, R>
  {
    if cs == [] then table
    else Upsert(p, UpsertAll(p, table, cs[..|cs| - 1]), cs[|cs| - 1])
  }

  function Lookup<R>(table: map<string, R>, k: string): Option<R>
  {
    if k in table then Some(table[k]) else None
  }

  /** The row the guard keeps of two, the second one being stored already. */
  function Kept<C, R>(p: Projection<C, R>, candidate: Option<R>, stored: Option<R>): Option<R>
  {
    if candidate.None? then stored
    else if stored.None? || p.beats(candidate.value, stored.value) then candidate
    else stored
  }

  /** What upserting a batch into an empty table leaves at a key. */
  function BestRow<C, R>(p: Projection<C, R>, cs: seq<C>, k: string): Option<R>
  {
    if cs == [] then None
    else
      var best := BestRow(p, cs[..|cs| - 1], k);
      if p.key(cs[|cs| - 1]) == k then Kept(p, Some(p.row(cs[|cs| - 1])), best) else best
  }

  lemma {:induction false} UpsertsKeepBest<C, R(!new)>(p: Projection<C, R>, table: map<string, R>, cs: seq<C>, k: string)
    requires Lawful(p)
    ensures Lookup(UpsertAll(p, table, cs), k) == Kept(p, BestRow(p, cs, k), Lookup(table, k))
    decreases |cs|
  {
    if cs != [] {
      var front, last := cs[..|cs| - 1], cs[|cs| - 1];
      UpsertsKeepBest(p, table, front, k);
      var best, stored := BestRow(p, front, k), Lookup(table, k);
      if p.key(last) == k && best.Some? && stored.Some? {
        var r := p.row(last);
        assert Compared(r, best.value, stored.value) && Compared(r, stored.value, best.value) && Compared(best.value, stored.value, r);
        assert Compared(best.value, r, stored.value) && Compared(stored.value, best.value, r);
      }
    }
  }

  /** A guarded batch never lowers the rank stored at a key. */
  lemma RankOnlyRises<C, R(!new)>(p: Projection<C, R>, table: map<string, R>, cs: seq<C>, k: string)
    requires Lawful(p) && k in table
    ensures k in UpsertAll(p, table, cs)
    ensures var after := UpsertAll(p, table, cs)[k];
            after == table[k] || (p.beats(after, table[k]) && exists c :: c in cs && p.key(c) == k && p.row(c) == after)
  {
    UpsertsKeepBest(p, table, cs, k);
    if BestRow(p, cs, k).Some? {
      BestIsACandidate(p, cs, k);
    }
  }

  lemma {:induction false} BestIsACandidate<C, R>(p: Projection<C, R>, cs: seq<C>, k: string)
    requires BestRow(p, cs, k).Some?
    ensures exists c :: c in cs && p.key(c) == k && p.row(c) == BestRow(p, cs, k).value
    decreases |cs|
  {
    var front, last := cs[..|cs| - 1], cs[|cs| - 1];
    if BestRow(p, front, k).Some? {
      BestIsACandidate(p, front, k);
    }
    assert last in cs;
  }

  // ---------- the collapse ----------

  /** The candidate of a key that survives the in-memory comparison. */
  function Winner<C, R>(p: Projection<C, R>, cs: seq<C>, k: string): (r: Option<C>)
    ensures r.Some? ==> r.value in cs && p.key(r.value) == k
  {
    if cs == [] then None
    else
      var front, last := cs[..|cs| - 1], cs[|cs| - 1];
      var w := Winner(p, front, k);
      if p.key(last) == k && (w.None? || p.newer(last, w.value)) then Some(last) else w
  }

  /** The keys of a batch in first-seen order. */
  function Order<C, R>(p: Projection<C, R>, cs: seq<C>): (r: seq<string>)
    ensures forall k :: k in r <==> Winner(p, cs, k).Some?
    ensures forall i, j :: 0 <= i < j < |r| ==> r[i] != r[j]
  {
    if cs == [] then []
    else
      var before := Order(p, cs[..|cs| - 1]);
      if p.key(cs[|cs| - 1]) in before then before else before + [p.key(cs[|cs| - 1])]
  }

  function Winners<C, R>(p: Projection<C, R>, cs: seq<C>, order: seq<string>): seq<C>
    requires forall k :: k in order ==> Winner(p, cs, k).Some?
  {
    seq(|order|, i requires 0 <= i < |order| => Winner(p, cs, order[i]).value)
  }

  function Reduced<C, R>(p: Projection<C, R>, cs: seq<C>): seq<C>
  {
    Winners(p, cs, Order(p, cs))
  }

  lemma CollapseStep<C, R>(p: Projection<C, R>, cs: seq<C>, i: nat)
    requires i < |cs|
    ensures Order(p, cs[..i + 1]) == Order(p, cs[..i]) + if Winner(p, cs[..i], p.key(cs[i])).None? then [p.key(cs[i])] else []
    ensures forall k ::
              Winner(p, cs[..i + 1], k) ==
              var w := Winner(p, cs[..i], k);
              if p.key(cs[i]) == k && (w.None? || p.newer(cs[i], w.value)) then Some(cs[i]) else w
  {
    assert cs[..i + 1][..i] == cs[..i];
  }

  method Latest<C, R>(p: Projection<C, R>, cs: seq<C>) returns (latest: map<string, C>, order: seq<string>)
    ensures order == Order(p, cs)
    ensures forall k :: Lookup(latest, k) == Winner(p, cs, k)
  {
    latest, order := map[], [];
    for i := 0 to |cs|
      invariant order == Order(p, cs[..i])
      invariant forall k :: Lookup(latest, k) == Winner(p, cs[..i], k)
    {
      CollapseStep(p, cs, i);
      hide Order, Winner;
      var candidate := cs[i];
      var k := p.key(candidate);
      assert Lookup(latest, k) == Winner(p, cs[..i], k);
      if k !in latest {
        order := order + [k];
        latest := latest[k := candidate];
      } else if p.newer(candidate, latest[k]) {
        latest := latest[k := candidate];
      }
    }
    assert cs[..|cs|] == cs;
  }

  method Collapse<C, R>(p: Projection<C, R>, cs: seq<C>) returns (reduced: seq<C>)
    ensures reduced == Reduced(p, cs)
  {
    if |cs| < 2 {
      ShortBatch(p, cs);
      return cs;
    }
    var latest, order := Latest(p, cs);
    hide Order, Winner;
    reduced := [];
    for i := 0 to |order|
      invariant reduced == Winners(p, cs, order[..i])
    {
      assert Lookup(latest, order[i]) == Winner(p, cs, order[i]);
      reduced := reduced + [latest[order[i]]];
    }
    assert order[..|order|] == order;
  }

  lemma ShortBatch<C, R>(p: Projection<C, R>, cs: seq<C>)
    requires |cs| < 2
    ensures Reduced(p, cs) == cs
  {
    if |cs| == 1 {
      var k := p.key(cs[0]);
      assert cs[..0] == [] && Order(p, []) == [] && Order(p, cs) == [k];
      assert Winner(p, cs, k) == Some(cs[0]);
    }
  }

  lemma {:induction false} WinnersBestRow<C, R>(p: Projection<C, R>, cs: seq<C>, order: seq<string>, k: string)
    requires forall x :: x in order ==> Winner(p, cs, x).Some?
    requires forall i, j :: 0 <= i < j < |order| ==> order[i] != order[j]
    ensures k in order ==> BestRow(p, Winners(p, cs, order), k) == Some(p.row(Winner(p, cs, k).value))
    ensures k !in order ==> BestRow(p, Winners(p, cs, order), k) == None
    decreases |order|
  {
    if order != [] {
      var front, last := order[..|order| - 1], order[|order| - 1];
      assert order == front + [last];
      WinnersBestRow(p, cs, front, k);
      var all := Winners(p, cs, order);
      assert all[..|all| - 1] == Winners(p, cs, front) && all[|all| - 1] == Winner(p, cs, last).value;
    }
  }

  // ---------- when collapsing refines the upserts ----------

  /** The two comparisons rank a pair alike, or the stored rows are the same anyway. */
  predicate Compatible<C, R(==)>(p: Projection<C, R>, a: C, b: C)
  {
    p.newer(a, b) == p.beats(p.row(a), p.row(b)) || p.row(a) == p.row(b)
  }

  ghost predicate AllCompatible<C, R>(p: Projection<C, R>, pool: set<C>)
  {
    forall a, b :: a in pool && b in pool && p.key(a) == p.key(b) ==> Compatible(p, a, b)
  }

  ghost predicate DrawnFrom<C>(cs: seq<C>, pool: set<C>)
  {
    forall i :: 0 <= i < |cs| ==> cs[i] in pool
  }

  ghost predicate CollapseRefines<C, R>(p: Projection<C, R>, table: map<string, R>, cs: seq<C>)
  {
    UpsertAll(p, table, Reduced(p, cs)) == UpsertAll(p, table, cs)
  }

  lemma {:induction false} WinnerIsBest<C, R>(p: Projection<C, R>, cs: seq<C>, k: string, pool: set<C>)
    requires AllCompatible(p, pool) && DrawnFrom(cs, pool)
    ensures Winner(p, cs, k).None? <==> BestRow(p, cs, k).None?
    ensures Winner(p, cs, k).Some? ==> BestRow(p, cs, k) == Some(p.row(Winner(p, cs, k).value))
    decreases |cs|
  {
    if cs != [] {
      var front, last := cs[..|cs| - 1], cs[|cs| - 1];
      WinnerIsBest(p, front, k, pool);
      if p.key(last) == k && Winner(p, front, k).Some? {
        assert last in pool && Winner(p, front, k).value in pool;
        assert Compatible(p, last, Winner(p, front, k).value);
      }
    }
  }

  lemma CompatibleRefines<C, R(!new)>(p: Projection<C, R>, table: map<string, R>, cs: seq<C>, pool: set<C>)
    requires Lawful(p) && AllCompatible(p, pool) && DrawnFrom(cs, pool)
    ensures CollapseRefines(p, table, cs)
  {
    var x, y := UpsertAll(p, table, Reduced(p, cs)), UpsertAll(p, table, cs);
    forall k ensures Lookup(x, k) == Lookup(y, k) {
      UpsertsKeepBest(p, table, cs, k);
      UpsertsKeepBest(p, table, Reduced(p, cs), k);
      WinnersBestRow(p, cs, Order(p, cs), k);
      WinnerIsBest(p, cs, k, pool);
    }
    assert forall k :: k in x <==> Lookup(x, k).Some?;
    assert forall k :: k in y <==> Lookup(y, k).Some?;
    assert forall k :: k in x ==> Lookup(x, k) == Some(x[k]) && Lookup(y, k) == Some(y[k]);
  }

  lemma IncompatibleShows<C, R>(p: Projection<C, R>, a: C, b: C)
    requires p.key(a) == p.key(b) && !Compatible(p, a, b)
    ensures !CollapseRefines(p, map[], [b, a])
  {
    var k := p.key(a);
    var cs := [b, a];
    assert cs[..1] == [b] && [b][..0] == [];
    assert Winner(p, [b], k) == Some(b);
    var w := if p.newer(a, b) then a else b;
    assert Winner(p, cs, k) == Some(w);
    assert Order(p, []) == [] && Order(p, [b]) == [k] && Order(p, cs) == [k];
    assert Reduced(p, cs) == [w] && [w][..0] == [];
    assert UpsertAll(p, map[], [w]) == map[k := p.row(w)];
    assert UpsertAll(p, map[], [b]) == map[k := p.row(b)];
    assert UpsertAll(p, map[], cs) == map[k := p.row(if p.beats(p.row(a), p.row(b)) then a else b)];
    assert map[k := p.row(a)][k] == p.row(a) && map[k := p.row(b)][k] == p.row(b);
  }

  /**
   Collapsing refines sequential upserts, for every prior table and every batch
   drawn from a pool of candidates, exactly when the in-memory comparison and the
   upsert guard rank every two same-keyed candidates of the pool alike.
   */
  lemma CollapseRefinesIffCompatible<C(!new), R(!new)>(p: Projection<C, R>, pool: set<C>)
    requires Lawful(p)
    ensures AllCompatible(p, pool) <==> forall table, cs :: DrawnFrom(cs, pool) ==> CollapseRefines(p, table, cs)
  {
    if AllCompatible(p, pool) {
      forall table, cs | DrawnFrom(cs, pool) ensures CollapseRefines(p, table, cs) {
        CompatibleRefines(p, table, cs, pool);
      }
    } else {
      var a, b :| a in pool && b in pool && p.key(a) == p.key(b) && !Compatible(p, a, b);
      IncompatibleShows(p, a, b);
      assert DrawnFrom([b, a], pool);
    }
  }

  // ---------- the two projections ----------

  /** timestamptz keeps whole microseconds. */
  function ToColumn(t: int): int { t / MICRO }

  datatype Provenance = Provenance(dataSourceId: string, ingestionRunId: string, rawPayloadHash: string)

  datatype PriceBar = PriceBar(
    securityId: string, interval: string, priceBasis: string, currency: string, temporal: Temporal,
    open: string, high: string, low: string, close: string, volume: string, rawPayloadHash: string, provenance: Provenance)

  datatype EconomicObservation = EconomicObservation(
    seriesId: string, geography: string, unit: string, frequency: string, seasonalAdjustment: string, temporal: Temporal,
    value: string, revision: int, vintageAt: Option<int>, rawPayloadHash: string, provenance: Provenance)

  datatype PriceSnapshot = PriceSnapshot(
    ingestionRunId: string, interval: string, priceBasis: string, currency: string,
    observedAt: int, observedPrecision: string, publishedAt: Option<int>, publishedPrecision: string, availableAt: int, ingestedAt: int,
    values: seq<string>, rawPayloadHash: string)

  datatype MacroSnapshot = MacroSnapshot(
    ingestionRunId: string, geography: string, unit: string, frequency: string, seasonalAdjustment: Option<string>,
    observedAt: int, observedPrecision: string, publishedAt: int, publishedPrecision: string, availableAt: int, ingestedAt: int,
    value: Option<string>, revision: int, vintageAt: Option<int>, rawPayloadHash: string)

  function SnapshotHash(topLevel: string, provenance: Provenance): string
  {
    if topLevel != "" then topLevel else provenance.rawPayloadHash
  }

  function Nullable(s: string): Option<string> { if s == "" then None else Some(s) }

  function ObservedPrecision(s: string): string { if s == "" then "unknown" else s }

  function PriceRow(c: PriceBar): PriceSnapshot
  {
    var t := c.temporal;
    PriceSnapshot(
      c.provenance.ingestionRunId, c.interval, c.priceBasis, c.currency,
      ToColumn(t.observedAt), ObservedPrecision(t.observedPrecision), if t.publishedAt == ZERO_TIME then None else Some(ToColumn(t.publishedAt)),
      t.publishedPrecision, ToColumn(t.availableAt), ToColumn(t.ingestedAt),
      [c.open, c.high, c.low, c.close, c.volume], SnapshotHash(c.rawPayloadHash, c.provenance))
  }

  function MacroRow(c: EconomicObservation): MacroSnapshot
  {
    var t := c.temporal;
    MacroSnapshot(
      c.provenance.ingestionRunId, c.geography, c.unit, c.frequency, Nullable(c.seasonalAdjustment),
      ToColumn(t.observedAt), ObservedPrecision(t.observedPrecision), ToColumn(t.publishedAt), t.publishedPrecision, ToColumn(t.availableAt), ToColumn(t.ingestedAt),
      Nullable(c.value), c.revision, if c.vintageAt.None? then None else Some(ToColumn(c.vintageAt.value)), SnapshotHash(c.rawPayloadHash, c.provenance))
  }

  function CompareTime(a: int, b: int): int
  {
    if a > b then 1 else if a < b then -1 else 0
  }

  predicate PriceIsNewer(candidate: PriceBar, current: PriceBar)
  {
    var observed := CompareTime(candidate.temporal.observedAt, current.temporal.observedAt);
    if observed != 0 then observed > 0
    else
      var available := CompareTime(candidate.temporal.availableAt, current.temporal.availableAt);
      if available != 0 then available > 0
      else
        var ingested := CompareTime(candidate.temporal.ingestedAt, current.temporal.ingestedAt);
        if ingested != 0 then ingested > 0
        else Text.Less(SnapshotHash(current.rawPayloadHash, current.provenance), SnapshotHash(candidate.rawPayloadHash, candidate.provenance))
  }

  predicate MacroIsNewer(candidate: EconomicObservation, current: EconomicObservation)
  {
    var observed := CompareTime(candidate.temporal.observedAt, current.temporal.observedAt);
    if observed != 0 then observed > 0
    else if candidate.revision != current.revision then candidate.revision > current.revision
    else
      var available := CompareTime(candidate.temporal.availableAt, current.temporal.availableAt);
      if available != 0 then available > 0
      else
        var ingested := CompareTime(candidate.temporal.ingestedAt, current.temporal.ingestedAt);
        if ingested != 0 then ingested > 0
        else Text.Less(SnapshotHash(current.rawPayloadHash, current.provenance), SnapshotHash(candidate.rawPayloadHash, candidate.provenance))
  }

  /** SQL's row comparison: the first differing column decides, the C-collated hash last. */
  predicate RowAbove(a: seq<int>, aHash: string, b: seq<int>, bHash: string)
    requires |a| == |b|
    decreases |a|
  {
    if a == [] then Text.Less(bHash, aHash)
    else if a[0] != b[0] then a[0] > b[0]
    else RowAbove(a[1..], aHash, b[1..], bHash)
  }

  function PriceRank(s: PriceSnapshot): (r: seq<int>)
    ensures |r| == 3
  {
    [s.observedAt, s.availableAt, s.ingestedAt]
  }

  function MacroRank(s: MacroSnapshot): (r: seq<int>)
    ensures |r| == 4
  {
    [s.observedAt, s.revision, s.availableAt, s.ingestedAt]
  }

  function Prices(): Projection<PriceBar, PriceSnapshot>
  {
    Projection(
      (c: PriceBar) => c.securityId, (a: PriceBar, b: PriceBar) => PriceIsNewer(a, b), (c: PriceBar) => PriceRow(c),
      (a: PriceSnapshot, b: PriceSnapshot) => RowAbove(PriceRank(a), a.rawPayloadHash, PriceRank(b), b.rawPayloadHash))
  }

  function Macros(): Projection<EconomicObservation, MacroSnapshot>
  {
    Projection(
      (c: EconomicObservation) => c.seriesId, (a: EconomicObservation, b: EconomicObservation) => MacroIsNewer(a, b), (c: EconomicObservation) => MacroRow(c),
      (a: MacroSnapshot, b: MacroSnapshot) => RowAbove(MacroRank(a), a.rawPayloadHash, MacroRank(b), b.rawPayloadHash))
  }

  lemma {:induction false} RowAboveOrder(a: seq<int>, aHash: string, b: seq<int>, bHash: string, c: seq<int>, cHash: string)
    requires |a| == |b| == |c|
    ensures !(RowAbove(a, aHash, b, bHash) && RowAbove(b, bHash, a, aHash))
    ensures RowAbove(a, aHash, c, cHash) ==> RowAbove(a, aHash, b, bHash) || RowAbove(b, bHash, c, cHash)
    decreases |a|
  {
    if a == [] {
      Text.LessTrichotomy(aHash, bHash);
      Text.LessTrichotomy(bHash, cHash);
      if Text.Less(cHash, aHash) && Text.Less(aHash, bHash) {
        Text.LessTransitive(cHash, aHash, bHash);
      }
    } else {
      RowAboveOrder(a[1..], aHash, b[1..], bHash, c[1..], cHash);
    }
  }

  lemma ProjectionsAreLawful()
    ensures Lawful(Prices()) && Lawful(Macros())
  {
    var p, m := Prices(), Macros();
    forall x, y, z | Compared(x, y, z)
      ensures !(p.beats(x, y) && p.beats(y, x)) && (p.beats(x, z) ==> p.beats(x, y) || p.beats(y, z))
    {
      RowAboveOrder(PriceRank(x), x.rawPayloadHash, PriceRank(y), y.rawPayloadHash, PriceRank(z), z.rawPayloadHash);
    }
    forall x, y, z | Compared(x, y, z)
      ensures !(m.beats(x, y) && m.beats(y, x)) && (m.beats(x, z) ==> m.beats(x, y) || m.beats(y, z))
    {
      RowAboveOrder(MacroRank(x), x.rawPayloadHash, MacroRank(y), y.rawPayloadHash, MacroRank(z), z.rawPayloadHash);
    }
  }

  predicate WholeMicros(t: Temporal)
  {
    t.observedAt % MICRO == 0 && t.availableAt % MICRO == 0 && t.ingestedAt % MICRO == 0
  }

  lemma SameOrderOfWhole(a: int, b: int)
    requires a % MICRO == 0 && b % MICRO == 0
    ensures (a > b <==> ToColumn(a) > ToColumn(b)) && (a == b <==> ToColumn(a) == ToColumn(b))
  {
    assert a == ToColumn(a) * MICRO && b == ToColumn(b) * MICRO;
  }

  lemma PriceOrdersAgree(a: PriceBar, b: PriceBar)
    requires WholeMicros(a.temporal) && WholeMicros(b.temporal)
    ensures PriceIsNewer(a, b) == RowAbove(PriceRank(PriceRow(a)), PriceRow(a).rawPayloadHash, PriceRank(PriceRow(b)), PriceRow(b).rawPayloadHash)
  {
    SameOrderOfWhole(a.temporal.observedAt, b.temporal.observedAt);
    SameOrderOfWhole(a.temporal.availableAt, b.temporal.availableAt);
    SameOrderOfWhole(a.temporal.ingestedAt, b.temporal.ingestedAt);
    ThreeColumns(PriceRow(a).observedAt, PriceRow(a).availableAt, PriceRow(a).ingestedAt, PriceRow(a).rawPayloadHash,
                 PriceRow(b).observedAt, PriceRow(b).availableAt, PriceRow(b).ingestedAt, PriceRow(b).rawPayloadHash);
  }

  /** Three columns compare one after the other. */
  lemma ThreeColumns(a0: int, a1: int, a2: int, aHash: string, b0: int, b1: int, b2: int, bHash: string)
    ensures RowAbove([a0, a1, a2], aHash, [b0, b1, b2], bHash) ==
              if a0 != b0 then a0 > b0 else if a1 != b1 then a1 > b1 else if a2 != b2 then a2 > b2 else Text.Less(bHash, aHash)
  {
    assert [a0, a1, a2][1..] == [a1, a2] && [a1, a2][1..] == [a2] && [a2][1..] == [];
    assert [b0, b1, b2][1..] == [b1, b2] && [b1, b2][1..] == [b2] && [b2][1..] == [];
    assert RowAbove([a2], aHash, [b2], bHash) == if a2 != b2 then a2 > b2 else Text.Less(bHash, aHash);
  }

  lemma MacroOrdersAgree(a: EconomicObservation, b: EconomicObservation)
    requires WholeMicros(a.temporal) && WholeMicros(b.temporal)
    ensures MacroIsNewer(a, b) == RowAbove(MacroRank(MacroRow(a)), MacroRow(a).rawPayloadHash, MacroRank(MacroRow(b)), MacroRow(b).rawPayloadHash)
  {
    SameOrderOfWhole(a.temporal.observedAt, b.temporal.observedAt);
    SameOrderOfWhole(a.temporal.availableAt, b.temporal.availableAt);
    SameOrderOfWhole(a.temporal.ingestedAt, b.temporal.ingestedAt);
    var x, y := MacroRow(a), MacroRow(b);
    ThreeColumns(x.revision, x.availableAt, x.ingestedAt, x.rawPayloadHash, y.revision, y.availableAt, y.ingestedAt, y.rawPayloadHash);
    assert MacroRank(x)[1..] == [x.revision, x.availableAt, x.ingestedAt];
    assert MacroRank(y)[1..] == [y.revision, y.availableAt, y.ingestedAt];
  }

  /** With whole-microsecond times, as the collectors stamp them, collapsing is invisible for prices. */
  lemma PriceCollapseRefines(table: map<string, PriceSnapshot>, prices: seq<PriceBar>)
    requires forall i :: 0 <= i < |prices| ==> WholeMicros(prices[i].temporal)
    ensures CollapseRefines(Prices(), table, prices)
  {
    ProjectionsAreLawful();
    var pool := set c | c in prices;
    forall a, b | a in pool && b in pool ensures Compatible(Prices(), a, b) {
      PriceOrdersAgree(a, b);
    }
    CompatibleRefines(Prices(), table, prices, pool);
  }

  lemma MacroCollapseRefines(table: map<string, MacroSnapshot>, macros: seq<EconomicObservation>)
    requires forall i :: 0 <= i < |macros| ==> WholeMicros(macros[i].temporal)
    ensures CollapseRefines(Macros(), table, macros)
  {
    ProjectionsAreLawful();
    var pool := set c | c in macros;
    forall a, b | a in pool && b in pool ensures Compatible(Macros(), a, b) {
      MacroOrdersAgree(a, b);
    }
    CompatibleRefines(Macros(), table, macros, pool);
  }

  /** Two bars one nanosecond apart: memory keeps the later bar, the column cannot tell them apart and keeps the larger hash. */
  lemma NanosecondsMislead(bar: PriceBar)
    requires bar.temporal.observedAt == 0
    ensures var older := bar.(rawPayloadHash := "b");
            var newer := bar.(rawPayloadHash := "a", temporal := bar.temporal.(observedAt := 1));
            !CollapseRefines(Prices(), map[], [older, newer])
  {
    var older := bar.(rawPayloadHash := "b");
    var newer := bar.(rawPayloadHash := "a", temporal := bar.temporal.(observedAt := 1));
    var x, y := PriceRank(PriceRow(newer)), PriceRank(PriceRow(older));
    assert x == y;
    SameRankByHash(x, "a", "b");
    assert !Text.Less("b", "a");
    assert PriceRow(newer).rawPayloadHash == "a" && PriceRow(older).rawPayloadHash == "b";
    IncompatibleShows(Prices(), newer, older);
  }

  lemma {:induction false} SameRankByHash(x: seq<int>, a: string, b: string)
    ensures RowAbove(x, a, x, b) == Text.Less(b, a)
    decreases |x|
  {
    if x != [] {
      SameRankByHash(x[1..], a, b);
    }
  }
}
