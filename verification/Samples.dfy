/**
 Concrete inputs that reach the failing side of the conditions proved elsewhere.
 */
module Samples {
  import opened Wrappers
  import opened Instants
  import opened Manifests
  import opened Publication
  import opened PartitionStore
  import opened Admission
  import opened Sorting
  import opened Writes
  import opened Rows
  import opened RowAdmission
  import opened Economics
  import Decimals
  import Text

  // ---------- building blocks ----------

  function Origin(at: int): (p: Provenance)
    ensures !IsZero(at) ==> ValidProvenance(p, ZeroHash())
  {
    Provenance(NilUuid(), NilUuid(), ZeroHash(), "", at, "v1")
  }

  predicate NonZeroDigit(c: char) { '1' <= c <= '9' }

  /** One digit is its own canonical decimal. */
  lemma DigitIsCanonical(c: char, nonNegative: bool)
    requires NonZeroDigit(c)
    ensures Decimals.CanonicalDecimal([c], nonNegative) == Ok([c])
  {
    var none: string := [];
    var v := [c];
    assert v[1..] == none;
    assert Decimals.DotAt(v) == 1;
    assert v[..1] == v;
    assert Decimals.Parse(v) == Decimals.Decimal(false, v, "");
    assert Decimals.TrimLeft(v, '0') == v;
  }

  // ---------- economic refreshes ----------

  const SERIES := "S"

  /** An observation of a FRED series, with its instants in microseconds. */
  function Sample(observedAt: int, publishedAt: int, value: char, revision: int): EconomicObservation
  {
    var published := publishedAt * MICRO;
    EconomicObservation("fred", SERIES, "index", "US", "monthly", "",
                        Temporal(observedAt * MICRO, "", published, "", published, published),
                        [value], revision, None, ZeroHash(), Origin(published))
  }

  function SampleRow(observedAt: int, publishedAt: int, value: char, revision: int): EconomicRow
  {
    EconomicRow(SCHEMA_VERSION, "fred", SERIES, "US", "index", "monthly", "", false, observedAt, UNKNOWN,
                publishedAt, "", publishedAt, publishedAt, [value], true, revision, 0, false, StampOf(Origin(publishedAt * MICRO), ZeroHash()))
  }

  predicate Sampled(observedAt: int, publishedAt: int, value: char, revision: int)
  {
    0 <= observedAt <= publishedAt && NonZeroDigit(value) && revision >= 0
  }

  lemma SampleBuilds(observedAt: int, publishedAt: int, value: char, revision: int)
    requires Sampled(observedAt, publishedAt, value, revision)
    ensures BuildEconomic(Sample(observedAt, publishedAt, value, revision)) == Ok(SampleRow(observedAt, publishedAt, value, revision))
  {
    DigitIsCanonical(value, false);
    hide Decimals.CanonicalDecimal, IsUuid, IsLowerHex, ZeroHash, NilUuid, StampOf, ValidProvenance;
    assert (observedAt * MICRO) / MICRO == observedAt && (publishedAt * MICRO) / MICRO == publishedAt;
  }

  function SampleTarget(): Target<EconomicRow> { SeriesTarget("fred", SERIES) }

  lemma SampleWritable(observedAt: int, publishedAt: int, value: char, revision: int)
    requires Sampled(observedAt, publishedAt, value, revision)
    ensures Admissible(SampleTarget().d, SampleTarget().identity, SampleRow(observedAt, publishedAt, value, revision))
    ensures ValidIdentity(SampleTarget().identity)
  {
    hide BuildEconomic, Writable, Readable, ValidIdentity, EconomicDataset;
    SampleBuilds(observedAt, publishedAt, value, revision);
    EconomicIdentityValid(SERIES, "fred");
    EconomicAdmissible(Sample(observedAt, publishedAt, value, revision), SampleTarget().identity);
  }

  /** A refresh of one observation whose time is not committed yet. */
  function Observed(observedAt: int, value: char): Refresh
  {
    Refresh([Sample(observedAt, observedAt, value, 0)], "unknown", 2)
  }

  lemma FirstOfItsTime(existing: seq<EconomicRow>, r: EconomicRow)
    requires OneSeries(existing, r.source, r.seriesId)
    requires forall i :: 0 <= i < |existing| ==> existing[i].observedAt != r.observedAt
    ensures Revise(existing, r) == Append(r)
    ensures EconomicDataset(r.source, r.seriesId).key(r) !in KeysOf(EconomicDataset(r.source, r.seriesId), existing)
  {
    hide Latest, EconomicKey, EconomicSeriesKey;
    LatestIsHighest(existing, r);
    forall i | 0 <= i < |existing| ensures EconomicKey(existing[i]) != EconomicKey(r) {
      KeyFields(existing[i], r);
    }
  }

  lemma PrepareNext(existing: seq<EconomicRow>, front: seq<EconomicObservation>, o: EconomicObservation)
    requires Prepare(existing, front).Ok? && BuildEconomic(o).Ok? && !Revise(existing, BuildEconomic(o).value).Conflict?
    ensures var r := BuildEconomic(o).value;
            Prepare(existing, front + [o]) == Ok(AddDecision(Prepare(existing, front).value, r, Revise(existing, r)))
  {
    hide BuildEconomic, Revise, AddDecision;
    assert (front + [o])[..|front + [o]| - 1] == front;
  }

  lemma PrepareOne(existing: seq<EconomicRow>, o: EconomicObservation)
    requires BuildEconomic(o).Ok? && !Revise(existing, BuildEconomic(o).value).Conflict?
    ensures var r := BuildEconomic(o).value;
            var decision := Revise(existing, r);
            Prepare(existing, [o]) == Ok(if decision.Append? then Revised([r], [decision.row], [decision.row.revision]) else Revised([r], [], [decision.revision]))
  {
    hide BuildEconomic, Revise;
    assert [] + [o] == [o];
    PrepareNext(existing, [], o);
    var r, decision := BuildEconomic(o).value, Revise(existing, BuildEconomic(o).value);
    var added := AddDecision(Revised([], [], []), r, decision);
    assert added.built == [r];
    if decision.Append? {
      assert added.incoming == [decision.row] && added.revisions == [decision.row.revision];
    } else {
      assert added.incoming == [] && added.revisions == [decision.revision];
    }
  }

  /** What a refresh of a new observation time turns into. */
  lemma ObservedAttempt(dir: Directory<EconomicRow>, observedAt: int, value: char)
    requires Sampled(observedAt, observedAt, value, 0) && SampleTarget().Read(dir).Ok?
    requires OneSeries(SampleTarget().Read(dir).value, "fred", SERIES)
    requires forall r :: r in SampleTarget().Read(dir).value ==> r.observedAt != observedAt
    ensures var t, row := SampleTarget(), SampleRow(observedAt, observedAt, value, 0);
            var prepared := Prepare(t.Read(dir).value, Observed(observedAt, value).obs);
            && prepared.Ok? && prepared.value.incoming == [row] && Orderly([row])
            && AsAttempt(t, dir, Observed(observedAt, value)) == Attempt([row], false, "unknown", 2)
            && t.d.key(row) !in KeysOf(t.d, t.Read(dir).value)
  {
    hide ReadCommitted, BuildEconomic, Revise, Prepare, EconomicKey, LandsBefore, KeysOf;
    var row := SampleRow(observedAt, observedAt, value, 0);
    SampleBuilds(observedAt, observedAt, value, 0);
    FirstOfItsTime(SampleTarget().Read(dir).value, row);
    PrepareOne(SampleTarget().Read(dir).value, Sample(observedAt, observedAt, value, 0));
    DifferentTimesOrderly([row]);
  }

  /** One more observation time, written to the end, appends its row. */
  lemma OneMoreTime(history: seq<Refresh>, observedAt: int, value: char)
    requires Sampled(observedAt, observedAt, value, 0)
    requires var t := SampleTarget();
             var before := AfterRefreshes(t, history);
             && ValidRefreshes(t, "fred", SERIES, history) && PartsTrue(before)
             && t.Read(before).Ok? && |t.Read(before).value| < 10
             && forall r :: r in t.Read(before).value ==> r.observedAt != observedAt
    ensures var t := SampleTarget();
            var next := history + [Observed(observedAt, value)];
            && ValidRefreshes(t, "fred", SERIES, next) && PartsTrue(AfterRefreshes(t, next))
            && t.Read(AfterRefreshes(t, next)) == Ok(t.Read(AfterRefreshes(t, history)).value + [SampleRow(observedAt, observedAt, value, 0)])
  {
    hide ReadCommitted, Readable, Writable, BuildEconomic, Prepare, After, AfterRefreshes, ValidRefreshes, AsAttempt, ValidAttempt, Appends, Orderly, KeysOf,
         PartsTrue, EconomicDataset, Sample, SampleRow;
    var t, next := SampleTarget(), history + [Observed(observedAt, value)];
    var before, row := AfterRefreshes(t, history), SampleRow(observedAt, observedAt, value, 0);
    assert next[..|next| - 1] == history;
    ReadableRows(t.d, before, t.identity);
    CommittedSeries(t.Read(before).value);
    ObservedAttempt(before, observedAt, value);
    SampleWritable(observedAt, observedAt, value, 0);
    NewRowAppends(t, before, row, false, "unknown", 2);
    AttemptReads(t, before, Attempt([row], false, "unknown", 2));
    OnlyStageOneCuts(t, before, Attempt([row], false, "unknown", 2));
    assert AllReadable(t.d, [row]);
    RefreshStep(t, next);
    SampleSeries(observedAt, value);
  }

  lemma SampleSeries(observedAt: int, value: char)
    ensures SeriesBatch(Observed(observedAt, value).obs, "fred", SERIES)
  {
  }

  lemma CommittedSeries(existing: seq<EconomicRow>)
    requires forall i :: 0 <= i < |existing| ==> Readable(SampleTarget().d, existing[i])
    ensures OneSeries(existing, "fred", SERIES)
  {
    forall i | 0 <= i < |existing| ensures existing[i].source == "fred" && existing[i].seriesId == SERIES {
      assert Readable(SampleTarget().d, existing[i]);
    }
  }

  lemma RefreshStep(t: Target<EconomicRow>, history: seq<Refresh>)
    requires history != []
    ensures var before, last := AfterRefreshes(t, history[..|history| - 1]), history[|history| - 1];
            && AfterRefreshes(t, history) == After(t, before, AsAttempt(t, before, last))
            && (ValidRefreshes(t, "fred", SERIES, history) <==>
                  && ValidRefreshes(t, "fred", SERIES, history[..|history| - 1])
                  && SeriesBatch(last.obs, "fred", SERIES)
                  && (t.Read(before).Ok? && Prepare(t.Read(before).value, last.obs).Ok? ==> Orderly(Prepare(t.Read(before).value, last.obs).value.incoming))
                  && ValidAttempt(t, before, AsAttempt(t, before, last)))
  {
  }

  /** A value already committed for its time is kept. */
  lemma SameAgain(existing: seq<EconomicRow>, i: nat, o: EconomicObservation)
    requires BuildEconomic(o).Ok? && i < |existing| && existing[i] == BuildEconomic(o).value
    requires OneSeries(existing, o.source, o.seriesId) && o.source != "alfred"
    requires forall k :: 0 <= k < |existing| && existing[k].observedAt == existing[i].observedAt ==> k == i
    ensures Prepare(existing, [o]).Ok? && Prepare(existing, [o]).value.incoming == []
  {
    EconomicTimes(o);
    hide Latest, EconomicKey, EconomicSeriesKey, BuildEconomic;
    var r := existing[i];
    LatestIsHighest(existing, r);
    var best := Latest(existing, r).value;
    var k :| 0 <= k < |existing| && existing[k] == best;
    SameItself([r]);
    assert r in [r];
    assert Revise(existing, r) == Keep(r.revision);
    PrepareOne(existing, o);
  }

  function FiftyThenFive(): seq<EconomicRow> { [SampleRow(50, 50, '1', 0), SampleRow(5, 5, '2', 0)] }

  lemma FiftyRead()
    ensures var t, history := SampleTarget(), [Observed(50, '1')];
            && ValidRefreshes(t, "fred", SERIES, history) && PartsTrue(AfterRefreshes(t, history))
            && t.Read(AfterRefreshes(t, history)) == Ok([SampleRow(50, 50, '1', 0)])
  {
    var t, none := SampleTarget(), [];
    assert AfterRefreshes(t, none) == map[] && ValidRefreshes(t, "fred", SERIES, none);
    EmptyReads(t);
    hide ReadCommitted, ValidRefreshes, AfterRefreshes, EconomicDataset, PartsTrue, Observed, SampleRow;
    assert none + [Observed(50, '1')] == [Observed(50, '1')];
    OneMoreTime(none, 50, '1');
    assert [] + [SampleRow(50, 50, '1', 0)] == [SampleRow(50, 50, '1', 0)];
  }

  lemma FiftyThenFiveRead()
    ensures var t, history := SampleTarget(), [Observed(50, '1'), Observed(5, '2')];
            ValidRefreshes(t, "fred", SERIES, history) && t.Read(AfterRefreshes(t, history)) == Ok(FiftyThenFive())
  {
    hide ReadCommitted, ValidRefreshes, AfterRefreshes, EconomicDataset, PartsTrue, Observed;
    assert [Observed(50, '1')] + [Observed(5, '2')] == [Observed(50, '1'), Observed(5, '2')];
    FiftyRead();
    assert SampleRow(50, 50, '1', 0).observedAt == 50;
    OneMoreTime([Observed(50, '1')], 5, '2');
    assert [SampleRow(50, 50, '1', 0)] + [SampleRow(5, 5, '2', 0)] == FiftyThenFive();
  }

  lemma FiveKept()
    ensures var prepared := Prepare(FiftyThenFive(), Observed(5, '2').obs); prepared.Ok? && prepared.value.incoming == []
  {
    hide BuildEconomic, Prepare;
    SampleBuilds(5, 5, '2', 0);
    SameAgain(FiftyThenFive(), 1, Sample(5, 5, '2', 0));
  }

  /** Times 50 and 5 are committed against key order, because keys compare as texts. */
  lemma FiveAfterFifty()
    ensures !Sorted(ByKey(SampleTarget().d), FiftyThenFive())
  {
    var rows := FiftyThenFive();
    var a, b := rows[1], rows[0];
    KeySplits(a);
    KeySplits(b);
    ThreeFields(5, 5, 0);
    ThreeFields(50, 50, 0);
    assert Text.Sprint(5) == "5" && Text.Sprint(50) == "50";
    hide Text.Join, Text.Sprint;
    var head := a.source + [Text.UNIT_SEPARATOR] + (a.seriesId + [Text.UNIT_SEPARATOR]);
    var x, y := Text.Sprint(5) + [Text.UNIT_SEPARATOR] + Text.Sprint(0), Text.Sprint(50) + [Text.UNIT_SEPARATOR] + Text.Sprint(0);
    Text.SprintAbove(5);
    Text.SprintAbove(50);
    Text.LessJoined("5", x, "50", y);
    assert Text.Less("5", "50") by {
      assert "5"[1..] == "" && "50"[1..] == "0";
    }
    Text.LessCommonHead(head, "5" + [Text.UNIT_SEPARATOR] + x, "50" + [Text.UNIT_SEPARATOR] + y);
  }

  /**
   Observation 50 and then observation 5 of one series are committed by two accepted
   refreshes; refreshing observation 5 once more, unchanged, fails although nothing
   has to be written.
   */
  lemma UnchangedRefreshFails()
    ensures var t, history := SampleTarget(), [Observed(50, '1'), Observed(5, '2')];
            var now := t.Read(AfterRefreshes(t, history));
            && ValidRefreshes(t, "fred", SERIES, history) && now.Ok?
            && Prepare(now.value, Observed(5, '2').obs).Ok?
            && Prepare(now.value, Observed(5, '2').obs).value.incoming == []
            && PlanWrite(t.d, SameEconomic, now.value, [], false).Err?
  {
    hide ReadCommitted, ValidRefreshes, AfterRefreshes, BuildEconomic, PlanWrite, Prepare, DistinctKeys, EconomicDataset, SampleRow, Sorted, Sample;
    var t, rows := SampleTarget(), FiftyThenFive();
    FiftyThenFiveRead();
    ReadingDistinct(t, AfterRefreshes(t, [Observed(50, '1'), Observed(5, '2')]));
    FiveKept();
    FiveAfterFifty();
    NoOpRefresh(t.d, rows);
  }

  /** Two publications of one observation time in one batch. */
  function TwoPublications(value: char, revision: int): seq<EconomicObservation>
  {
    [Sample(5, 6, '1', 0), Sample(5, 7, value, revision)]
  }

  lemma PrepareTwo(value: char, revision: int)
    requires NonZeroDigit(value) && revision >= 0
    ensures Prepare([], TwoPublications(value, revision)).Ok?
    ensures Prepare([], TwoPublications(value, revision)).value.incoming == [SampleRow(5, 6, '1', 0), SampleRow(5, 7, value, revision)]
  {
    hide BuildEconomic, Revise, Prepare, Sample;
    var a, b := SampleRow(5, 6, '1', 0), SampleRow(5, 7, value, revision);
    SampleBuilds(5, 6, '1', 0);
    SampleBuilds(5, 7, value, revision);
    NothingYet("fred", SERIES);
    FirstOfItsTime([], a);
    FirstOfItsTime([], b);
    PrepareOne([], Sample(5, 6, '1', 0));
    PrepareNext([], [Sample(5, 6, '1', 0)], Sample(5, 7, value, revision));
    assert [Sample(5, 6, '1', 0)] + [Sample(5, 7, value, revision)] == TwoPublications(value, revision);
    assert [a] + [b] == [a, b];
  }

  lemma BothAppended(value: char, revision: int)
    requires NonZeroDigit(value) && revision >= 0
    ensures PlanWrite(SampleTarget().d, SameEconomic, [], [SampleRow(5, 6, '1', 0), SampleRow(5, 7, value, revision)], false).Ok?
  {
    var a, b := SampleRow(5, 6, '1', 0), SampleRow(5, 7, value, revision);
    KeyFields(a, b);
    hide EconomicKey, ValidStoredEconomic;
    TwoNewRows(SampleTarget().d, SameEconomic, a, b);
  }

  /** Two rows of one lineage under different keys are accepted by an empty partition. */
  lemma TwoNewRows<T(!new)>(d: Dataset<T>, same: (T, T) -> bool, a: T, b: T)
    requires d.key(a) != d.key(b) && d.lineage(a) == d.lineage(b)
    requires var l := d.lineage(a); l.source != "" && l.dataSourceId != "" && l.ingestionRunId != "" && l.normalizerVersion != ""
    ensures PlanWrite(d, same, [], [a, b], false).Ok?
  {
    hide SortByKey;
    assert [a, b][..|[a, b]| - 1] == [a];
    AdmitOne(d, same, Index(d, []), a);
    assert Admit(d, same, Index(d, []), [a, b]).conflicts == [];
    assert CommonLineage(d, [a, b]).Some?;
  }

  /**
   Two publications of one observation time, first written together: what is committed
   obeys the revision discipline exactly when the second publication carries a higher
   revision and another value.
   */
  lemma TwoPublicationsKeepDisciplineIff(value: char, revision: int)
    requires NonZeroDigit(value) && revision >= 0
    ensures var d, obs := SampleTarget().d, TwoPublications(value, revision);
            && Prepare([], obs).Ok? && PlanWrite(d, SameEconomic, [], Prepare([], obs).value.incoming, false).Ok?
            && var after := Delta(d, [], PlanWrite(d, SameEconomic, [], Prepare([], obs).value.incoming, false).value.rows);
               (RevisionsRise(after) && NeighboursDiffer(after) <==> revision > 0 && value != '1')
  {
    hide Prepare, PlanWrite, Delta, Orderly, RevisionsRise, NeighboursDiffer, LandsBefore, EconomicDataset, Sample;
    var d, a, b := SampleTarget().d, SampleRow(5, 6, '1', 0), SampleRow(5, 7, value, revision);
    PrepareTwo(value, revision);
    BothAppended(value, revision);
    SixBeforeSeven(a, b);
    TwoOrderly(a, b);
    NothingYet("fred", SERIES);
    SeriesOfTwo(value, revision);
    EconomicWriteKeepsDisciplineIff([], TwoPublications(value, revision), "fred", SERIES);
    var after := Delta(d, [], PlanWrite(d, SameEconomic, [], [a, b], false).value.rows);
    assert [] + after == after;
  }

  lemma SeriesOfTwo(value: char, revision: int)
    ensures SeriesBatch(TwoPublications(value, revision), "fred", SERIES)
  {
  }

  lemma SixBeforeSeven(a: EconomicRow, b: EconomicRow)
    requires a.publishedAt == 6 && b.publishedAt == 7
    ensures LandsBefore(a, b)
  {
    assert Text.Sprint(6) == "6" && Text.Sprint(7) == "7";
  }

  lemma TwoOrderly(a: EconomicRow, b: EconomicRow)
    requires a.observedAt == b.observedAt && LandsBefore(a, b)
    ensures Orderly([a, b]) <==> a.revision < b.revision && a.value != b.value
  {
    hide LandsBefore;
    LandsOnce(a, b);
    LandsOnce(b, b);
    assert a in [a, b] && b in [a, b];
    assert NothingBetween([a, b], a, b);
  }

  // ---------- a price published at the epoch ----------

  /** A bar whose publication instant is given in microseconds. */
  function Bar(publishedAt: int): PriceBar
  {
    var at := publishedAt * MICRO;
    PriceBar("yahoo", NilUuid(), "USD", "1d", "split_adjusted", Temporal(at, "", at, "", at, at), "1", "1", "1", "1", "", ZeroHash(), Origin(at))
  }

  lemma BarBuilds(publishedAt: int)
    requires publishedAt >= 0
    ensures BuildPrice(Bar(publishedAt)).Ok?
  {
    DigitIsCanonical('1', true);
    CanonicalIsStored("1", true);
    hide Decimals.CanonicalDecimal, IsUuid, IsLowerHex, ZeroHash, NilUuid, ValidProvenance, StampOf;
    assert ['1'] == "1";
    assert (publishedAt * MICRO) % MICRO == 0;
  }

  /** A bar written to an empty partition without any cut: it is read back unless it was published at the epoch. */
  lemma EpochBarSpoils(publishedAt: int)
    requires publishedAt >= 0
    ensures BuildPrice(Bar(publishedAt)).Ok?
    ensures var row := BuildPrice(Bar(publishedAt)).value;
            var t := Target(PriceDataset("yahoo", NilUuid()), SamePrice, PriceIdentity(NilUuid(), [Bar(publishedAt)]));
            var history := [Attempt([row], false, "unknown", 2)];
            && ValidHistory(t, history)
            && t.Read(AfterAll(t, history)) == if publishedAt == 0 then Err(MigrationRequired) else Ok([row])
  {
    hide BuildPrice, Writable, ReadCommitted, PriceDataset, ValidHistory, AfterAll;
    var identity := PriceIdentity(NilUuid(), [Bar(publishedAt)]);
    BarBuilds(publishedAt);
    YahooIsSafe();
    PriceIdentityValid(NilUuid(), [Bar(publishedAt)]);
    PriceWritable(Bar(publishedAt), identity);
    PriceAdmissible(Bar(publishedAt), identity);
    OneRowReads(Target(PriceDataset("yahoo", NilUuid()), SamePrice, identity), BuildPrice(Bar(publishedAt)).value, "unknown", 2);
  }

  lemma YahooIsSafe()
    ensures SafeSegment("yahoo")
  {
  }
}
