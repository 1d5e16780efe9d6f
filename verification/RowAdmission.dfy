/**
 From observations to a partition: every row a builder accepts is one the
 partition's reader will accept, except at the exact instants named here.
 */
module RowAdmission {
  import opened Wrappers
  import opened Instants
  import opened Manifests
  import opened Publication
  import opened PartitionStore
  import opened Admission
  import opened Writes
  import opened Rows

  function PartitionIdentity(dataset: string, source: string, name: string, value: string): Identity
  {
    map["dataset" := dataset, "source" := source, name := value]
  }

  lemma StampLineage(source: string, s: Stamp, identity: Identity)
    requires ValidStored(SCHEMA_VERSION, source, s) && ValidIdentity(identity) && identity["source"] == source
    ensures ValidLineage(LineageOf(source, s), identity)
  {
  }

  lemma PriceWritable(o: PriceBar, identity: Identity)
    requires BuildPrice(o).Ok? && ValidIdentity(identity) && identity["source"] == o.source
    ensures Writable(PriceDataset(o.source, o.securityId), identity, BuildPrice(o).value)
  {
    hide BuildPrice, ValidStoredPrice, ValidStored, ValidProvenance, StampOf, Unix;
    PriceRowFields(o);
    var r := BuildPrice(o).value;
    StampSurvives(o.provenance, o.rawPayloadHash, o.source);
    StampLineage(o.source, r.stamp, identity);
    assert r.(observedPrecision := NormalizePrecision(r.observedPrecision)) == r;
  }

  lemma PriceAdmissible(o: PriceBar, identity: Identity)
    requires BuildPrice(o).Ok? && ValidIdentity(identity) && identity["source"] == o.source
    ensures Admissible(PriceDataset(o.source, o.securityId), identity, BuildPrice(o).value) <==> o.temporal.publishedAt != 0
  {
    hide BuildPrice, ValidStoredPrice, ValidStored, ValidProvenance, StampOf, Unix, Writable;
    PriceRowsAreReadable(o);
    PriceRowFields(o);
    PriceWritable(o, identity);
  }

  lemma FundamentalWritable(o: FundamentalObservation, identity: Identity)
    requires BuildFundamental(o).Ok? && ValidIdentity(identity) && identity["source"] == o.source
    ensures Writable(FundamentalDataset(o.source, o.issuerId), identity, BuildFundamental(o).value)
  {
    hide BuildFundamental, ValidStoredFundamental, ValidStored, ValidProvenance, StampOf, Unix;
    FundamentalRowFields(o);
    var r := BuildFundamental(o).value;
    StampSurvives(o.provenance, o.rawPayloadHash, o.source);
    StampLineage(o.source, r.stamp, identity);
    assert r.(observedPrecision := NormalizePrecision(r.observedPrecision)) == r;
  }

  lemma FundamentalAdmissible(o: FundamentalObservation, identity: Identity)
    requires BuildFundamental(o).Ok? && ValidIdentity(identity) && identity["source"] == o.source
    ensures Admissible(FundamentalDataset(o.source, o.issuerId), identity, BuildFundamental(o).value) <==>
            Unix(o.periodEnd) >= 0 || Unix(o.periodEnd) % 86_400 == 0
  {
    hide BuildFundamental, ValidStoredFundamental, ValidStored, ValidProvenance, StampOf, Unix, Writable;
    FundamentalRowsAreReadable(o);
    FundamentalRowFields(o);
    FundamentalWritable(o, identity);
  }

  lemma EconomicWritable(o: EconomicObservation, identity: Identity)
    requires BuildEconomic(o).Ok? && ValidIdentity(identity) && identity["source"] == o.source
    ensures Writable(EconomicDataset(o.source, o.seriesId), identity, BuildEconomic(o).value)
  {
    hide BuildEconomic, ValidStoredEconomic, ValidStored, ValidProvenance, StampOf, Unix;
    EconomicRowFields(o);
    var r := BuildEconomic(o).value;
    StampSurvives(o.provenance, o.rawPayloadHash, o.source);
    StampLineage(o.source, r.stamp, identity);
    assert r.(observedPrecision := NormalizePrecision(r.observedPrecision)) == r;
  }

  lemma EconomicAdmissible(o: EconomicObservation, identity: Identity)
    requires BuildEconomic(o).Ok? && ValidIdentity(identity) && identity["source"] == o.source
    ensures Admissible(EconomicDataset(o.source, o.seriesId), identity, BuildEconomic(o).value) <==> o.vintageAt != Some(0)
  {
    hide BuildEconomic, ValidStoredEconomic, ValidStored, ValidProvenance, StampOf, Unix, Writable;
    EconomicRowsAreReadable(o);
    EconomicRowFields(o);
    EconomicWritable(o, identity);
  }

  lemma FXWritable(o: FXObservation, identity: Identity)
    requires BuildFX(o).Ok? && ValidIdentity(identity) && identity["source"] == o.source
    ensures Writable(FXDataset("USD-BRL"), identity, BuildFX(o).value)
  {
    hide BuildFX, ValidStoredFX, ValidStored, ValidProvenance, StampOf;
    FXRowFields(o);
    StampSurvives(o.provenance, o.rawPayloadHash, o.source);
    StampLineage(o.source, BuildFX(o).value.stamp, identity);
  }

  lemma FXAdmissible(o: FXObservation, identity: Identity)
    requires BuildFX(o).Ok? && ValidIdentity(identity) && identity["source"] == o.source
    ensures Admissible(FXDataset("USD-BRL"), identity, BuildFX(o).value) <==> o.fixingAt != 0
  {
    hide BuildFX, ValidStoredFX, ValidStored, ValidProvenance, StampOf, Writable;
    FXRowsAreReadable(o);
    FXRowFields(o);
    FXWritable(o, identity);
  }

  lemma FilingWritable(o: Filing, identity: Identity)
    requires BuildFiling(o).Ok? && ValidIdentity(identity) && identity["source"] == o.source
    ensures Writable(FilingDataset(o.source, o.issuerId), identity, BuildFiling(o).value)
  {
    hide BuildFiling, ValidStoredFiling, ValidStored, ValidProvenance, StampOf, Unix;
    FilingRowFields(o);
    var r := BuildFiling(o).value;
    StampSurvives(o.provenance, o.rawPayloadHash, o.source);
    StampLineage(o.source, r.stamp, identity);
    assert r.(observedPrecision := NormalizePrecision(r.observedPrecision), publishedPrecision := NormalizePrecision(r.publishedPrecision)) == r;
  }

  lemma FilingAdmissible(o: Filing, identity: Identity)
    requires BuildFiling(o).Ok? && ValidIdentity(identity) && identity["source"] == o.source
    ensures Admissible(FilingDataset(o.source, o.issuerId), identity, BuildFiling(o).value) <==>
            o.periodEnd != Some(0) && o.temporal.observedAt != 0 && o.temporal.publishedAt != 0 && o.effectiveAt != Some(0)
  {
    hide BuildFiling, ValidStoredFiling, ValidStored, ValidProvenance, StampOf, Unix, Writable;
    FilingRowsAreReadable(o);
    FilingRowFields(o);
    FilingWritable(o, identity);
  }

  // ---------- building a batch ----------

  datatype RowError = BadIdentity | BadObservation | Failed(cause: WriteError)

  /** The rows of a batch, in order, when every observation is accepted. */
  function BuildAll<O, R>(build: O -> Result<R, BuildError>, obs: seq<O>): Option<seq<R>>
  {
    if obs == [] then Some([])
    else
      var front, last := BuildAll(build, obs[..|obs| - 1]), build(obs[|obs| - 1]);
      if front.Some? && last.Ok? then Some(front.value + [last.value]) else None
  }

  lemma {:induction false} BuiltInOrder<O, R>(build: O -> Result<R, BuildError>, obs: seq<O>)
    requires BuildAll(build, obs).Some?
    ensures |BuildAll(build, obs).value| == |obs|
    ensures forall i :: 0 <= i < |obs| ==> build(obs[i]) == Ok(BuildAll(build, obs).value[i])
    decreases |obs|
  {
    if obs != [] {
      BuiltInOrder(build, obs[..|obs| - 1]);
      assert forall i :: 0 <= i < |obs| - 1 ==> obs[..|obs| - 1][i] == obs[i];
    }
  }

  lemma {:induction false} RejectedPrefix<O, R>(build: O -> Result<R, BuildError>, obs: seq<O>, n: nat)
    requires n <= |obs| && BuildAll(build, obs[..n]).None?
    ensures BuildAll(build, obs).None?
    decreases |obs|
  {
    if n == |obs| {
      assert obs[..n] == obs;
    } else {
      assert obs[..|obs| - 1][..n] == obs[..n];
      RejectedPrefix(build, obs[..|obs| - 1], n);
    }
  }

  /** Builds the batch row by row, giving up at the first bad observation. */
  method BuildRows<O, R>(build: O -> Result<R, BuildError>, obs: seq<O>) returns (rows: Option<seq<R>>)
    ensures rows == BuildAll(build, obs)
  {
    var built: seq<R> := [];
    for i := 0 to |obs|
      invariant BuildAll(build, obs[..i]) == Some(built)
    {
      assert obs[..i + 1][..i] == obs[..i];
      var row := build(obs[i]);
      if row.Err? {
        RejectedPrefix(build, obs, i + 1);
        return None;
      }
      built := built + [row.value];
    }
    assert obs[..|obs|] == obs;
    return Some(built);
  }

  /** A batch whose every builder output is writable is writable. */
  lemma BuiltAllWritable<O(!new), R>(d: Dataset<R>, identity: Identity, build: O -> Result<R, BuildError>, obs: seq<O>)
    requires BuildAll(build, obs).Some?
    requires forall o :: o in obs && build(o).Ok? ==> Writable(d, identity, build(o).value)
    ensures |BuildAll(build, obs).value| == |obs| && AllWritable(d, identity, BuildAll(build, obs).value)
  {
    hide Writable;
    BuiltInOrder(build, obs);
    var rows := BuildAll(build, obs).value;
    forall i | 0 <= i < |rows| ensures Writable(d, identity, rows[i]) {
      assert obs[i] in obs;
    }
  }

  // ---------- price writes ----------

  function PriceBuilder(): PriceBar -> Result<PriceRow, BuildError> { (o: PriceBar) => BuildPrice(o) }

  predicate PriceBatchFits(securityId: string, obs: seq<PriceBar>)
  {
    IsUuid(securityId) && forall o :: o in obs ==> o.securityId == securityId && o.source == obs[0].source
  }

  function PriceSource(obs: seq<PriceBar>): string { if obs == [] then "unknown" else obs[0].source }

  function PriceIdentity(securityId: string, obs: seq<PriceBar>): Identity
  {
    PartitionIdentity("prices", PriceSource(obs), "security_id", securityId)
  }

  predicate SafeSegment(s: string) { forall i :: 0 <= i < |s| ==> s[i] !in {'/', '\\', '\0'} }

  lemma PriceIdentityValid(securityId: string, obs: seq<PriceBar>)
    requires PriceBatchFits(securityId, obs) && PriceSource(obs) != "" && SafeSegment(PriceSource(obs))
    ensures ValidIdentity(PriceIdentity(securityId, obs)) && PriceIdentity(securityId, obs)["source"] == PriceSource(obs)
  {
    hide IsUuid;
    var identity := PriceIdentity(securityId, obs);
    assert identity.Keys == {"dataset", "source", "security_id"};
    assert |identity| == |identity.Keys|;
    UuidSafe(securityId);
    FieldNamesSafe();
  }

  lemma UuidSafe(s: string)
    requires IsUuid(s)
    ensures Avoids(s, {'\\', '/', '\0'})
  {
  }

  lemma FieldNamesSafe()
    ensures Avoids("dataset", {'=', '\\', '/', '\0'}) && Avoids("source", {'=', '\\', '/', '\0'}) && Avoids("security_id", {'=', '\\', '/', '\0'})
    ensures Avoids("prices", {'\\', '/', '\0'})
  {
  }

  /** A price write, strict or quarantining. */
  method WritePrices(store: Store<PriceRow>, securityId: string, obs: seq<PriceBar>, quarantine: bool, gitCommit: string)
    returns (r: Result<Plan<PriceRow>, RowError>, ghost at: seq<nat>)
    requires store.Valid() && ValidGitCommit(gitCommit)
    requires var before := ReadCommitted(PriceDataset(PriceSource(obs), securityId), store.files, PriceIdentity(securityId, obs));
             before.Ok? ==> |before.value| + |obs| <= MAX_INT
    modifies store
    ensures store.Valid()
    ensures r.Err? && !r.error.Failed? ==> store.files == old(store.files)
    ensures r == Err(BadIdentity) <==> !(PriceBatchFits(securityId, obs) && SafeSegment(PriceSource(obs)))
    ensures r == Err(BadObservation) <==> PriceBatchFits(securityId, obs) && SafeSegment(PriceSource(obs)) && BuildAll(PriceBuilder(), obs).None?
    ensures r.Ok? || r.error.Failed? ==>
              WriteOutcome(PriceDataset(PriceSource(obs), securityId), SamePrice, PriceIdentity(securityId, obs),
                           old(store.files), store.files, store.states, |old(store.states)|, at,
                           BuildAll(PriceBuilder(), obs).value, quarantine, gitCommit, if r.Ok? then Ok(r.value) else Err(r.error.cause))
  {
    at := [];
    if !PriceBatchFits(securityId, obs) || !SafeSegment(PriceSource(obs)) {
      return Err(BadIdentity), at;
    }
    var built := BuildRows(PriceBuilder(), obs);
    if built.None? {
      return Err(BadObservation), at;
    }
    var rows := built.value;
    var d, identity := PriceDataset(PriceSource(obs), securityId), PriceIdentity(securityId, obs);
    BuiltRowsWritable(securityId, obs);
    var written;
    written, at := WriteRows(store, d, SamePrice, identity, rows, quarantine, gitCommit);
    return if written.Ok? then Ok(written.value) else Err(Failed(written.error)), at;
  }

  lemma BuiltRowsWritable(securityId: string, obs: seq<PriceBar>)
    requires PriceBatchFits(securityId, obs) && SafeSegment(PriceSource(obs)) && BuildAll(PriceBuilder(), obs).Some?
    ensures |BuildAll(PriceBuilder(), obs).value| == |obs|
    ensures AllWritable(PriceDataset(PriceSource(obs), securityId), PriceIdentity(securityId, obs), BuildAll(PriceBuilder(), obs).value)
  {
    hide BuildPrice, Writable;
    var d, identity := PriceDataset(PriceSource(obs), securityId), PriceIdentity(securityId, obs);
    if obs != [] {
      BuiltInOrder(PriceBuilder(), obs);
      SourceNotEmpty(obs[0]);
      PriceIdentityValid(securityId, obs);
      forall o | o in obs && BuildPrice(o).Ok? ensures Writable(d, identity, BuildPrice(o).value) {
        PriceWritable(o, identity);
      }
    }
    BuiltAllWritable(d, identity, PriceBuilder(), obs);
  }

  lemma SourceNotEmpty(o: PriceBar)
    requires BuildPrice(o).Ok?
    ensures o.source != ""
  {
  }
}
