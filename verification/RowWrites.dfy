/**
 The strict writers of fundamentals, filings and exchange rates: check the batch
 against its partition, build every row, and merge without conflicts or not at all.
 */
module RowWrites {
  import opened Wrappers
  import opened Manifests
  import opened Publication
  import opened PartitionStore
  import opened Writes
  import opened Rows
  import opened RowAdmission
  import opened Patterns
  import Decimals

  /** How a strict write of a batch that fits its partition may end. */
  ghost predicate StrictOutcome<O, R>(d: Dataset<R>, same: (R, R) -> bool, identity: Identity, before: Directory<R>, after: Directory<R>,
                                      states: seq<Directory<R>>, from: nat, at: seq<nat>,
                                      build: O -> Result<R, BuildError>, obs: seq<O>, gitCommit: string, r: Result<Plan<R>, RowError>)
  {
    if BuildAll(build, obs).None? then r == Err(BadObservation) && after == before
    else
      && (r.Err? ==> r.error.Failed?)
      && WriteOutcome(d, same, identity, before, after, states, from, at, BuildAll(build, obs).value, false, gitCommit,
                      if r.Ok? then Ok(r.value) else Err(r.error.cause))
  }

  /** Builds and writes a batch whose rows are known to fit the partition. */
  method WriteBuilt<O(!new), R(==, !new)>(store: Store<R>, d: Dataset<R>, same: (R, R) -> bool, identity: Identity,
                                          build: O -> Result<R, BuildError>, obs: seq<O>, gitCommit: string)
    returns (r: Result<Plan<R>, RowError>, ghost at: seq<nat>)
    requires store.Valid() && ValidGitCommit(gitCommit)
    requires forall o :: o in obs && build(o).Ok? ==> Writable(d, identity, build(o).value)
    requires var before := ReadCommitted(d, store.files, identity); before.Ok? ==> |before.value| + |obs| <= MAX_INT
    modifies store
    ensures store.Valid()
    ensures r != Err(BadIdentity)
    ensures StrictOutcome(d, same, identity, old(store.files), store.files, store.states, |old(store.states)|, at, build, obs, gitCommit, r)
  {
    hide Writable, WriteOutcome, ReadCommitted;
    at := [];
    var rows := BuildRows(build, obs);
    if rows.None? {
      return Err(BadObservation), at;
    }
    BuiltAllWritable(d, identity, build, obs);
    var written;
    written, at := WriteRows(store, d, same, identity, rows.value, false, gitCommit);
    return if written.Ok? then Ok(written.value) else Err(Failed(written.error)), at;
  }

  // ---------- fundamentals ----------

  function FundamentalBuilder(): FundamentalObservation -> Result<FundamentalRow, BuildError> { (o: FundamentalObservation) => BuildFundamental(o) }

  predicate FundamentalBatchFits(issuerId: string, obs: seq<FundamentalObservation>)
  {
    IsUuid(issuerId) && forall o :: o in obs ==> o.issuerId == issuerId && o.source == "sec"
  }

  function FundamentalIdentity(issuerId: string): Identity { PartitionIdentity("fundamentals", "sec", "issuer_id", issuerId) }

  /** Path-safe segments around a UUID make a valid partition. */
  lemma IssuerIdentityValid(dataset: string, source: string, issuerId: string)
    requires IsUuid(issuerId) && Avoids(dataset, {'\\', '/', '\0'}) && Avoids(source, {'\\', '/', '\0'})
    ensures ValidIdentity(PartitionIdentity(dataset, source, "issuer_id", issuerId))
    ensures PartitionIdentity(dataset, source, "issuer_id", issuerId)["source"] == source
  {
    hide IsUuid;
    var identity := PartitionIdentity(dataset, source, "issuer_id", issuerId);
    assert identity.Keys == {"dataset", "source", "issuer_id"};
    assert |identity| == |identity.Keys|;
    UuidSafe(issuerId);
    FieldNamesSafe();
    SegmentNamesSafe();
  }

  lemma SegmentNamesSafe()
    ensures Avoids("issuer_id", {'=', '\\', '/', '\0'}) && Avoids("pair", {'=', '\\', '/', '\0'})
    ensures Avoids("fundamentals", {'\\', '/', '\0'}) && Avoids("filings", {'\\', '/', '\0'}) && Avoids("fx", {'\\', '/', '\0'})
    ensures Avoids("sec", {'\\', '/', '\0'}) && Avoids("bcb_ptax", {'\\', '/', '\0'}) && Avoids("USD-BRL", {'\\', '/', '\0'})
  {
  }

  /** A changed value under a repeated key is a conflict, and nothing is written. */
  method WriteFundamentals(store: Store<FundamentalRow>, issuerId: string, obs: seq<FundamentalObservation>, gitCommit: string)
    returns (r: Result<Plan<FundamentalRow>, RowError>, ghost at: seq<nat>)
    requires store.Valid() && ValidGitCommit(gitCommit)
    requires var before := ReadCommitted(FundamentalDataset("sec", issuerId), store.files, FundamentalIdentity(issuerId));
             before.Ok? ==> |before.value| + |obs| <= MAX_INT
    modifies store
    ensures store.Valid()
    ensures r == Err(BadIdentity) <==> !FundamentalBatchFits(issuerId, obs)
    ensures !FundamentalBatchFits(issuerId, obs) ==> store.files == old(store.files)
    ensures FundamentalBatchFits(issuerId, obs) ==>
              StrictOutcome(FundamentalDataset("sec", issuerId), SameFundamental, FundamentalIdentity(issuerId), old(store.files), store.files,
                            store.states, |old(store.states)|, at, FundamentalBuilder(), obs, gitCommit, r)
  {
    hide BuildFundamental, Writable, ReadCommitted, StrictOutcome, FundamentalDataset;
    at := [];
    if !FundamentalBatchFits(issuerId, obs) {
      return Err(BadIdentity), at;
    }
    var d, identity := FundamentalDataset("sec", issuerId), FundamentalIdentity(issuerId);
    SegmentNamesSafe();
    IssuerIdentityValid("fundamentals", "sec", issuerId);
    forall o | o in obs && BuildFundamental(o).Ok? ensures Writable(d, identity, BuildFundamental(o).value) {
      FundamentalWritable(o, identity);
    }
    r, at := WriteBuilt(store, d, SameFundamental, identity, FundamentalBuilder(), obs, gitCommit);
  }

  // ---------- filings ----------

  function FilingBuilder(): Filing -> Result<FilingRow, BuildError> { (o: Filing) => BuildFiling(o) }

  predicate FilingBatchFits(issuerId: string, obs: seq<Filing>)
    requires obs != []
  {
    && IsUuid(issuerId) && obs[0].source != "" && SafeSegment(obs[0].source)
    && forall o :: o in obs ==> o.issuerId == issuerId && o.source == obs[0].source
  }

  function FilingIdentity(issuerId: string, source: string): Identity { PartitionIdentity("filings", source, "issuer_id", issuerId) }

  /** An empty batch does nothing at all; otherwise as for fundamentals, in the partition of the first filing's source. */
  method WriteFilings(store: Store<FilingRow>, issuerId: string, obs: seq<Filing>, gitCommit: string)
    returns (r: Result<Plan<FilingRow>, RowError>, ghost at: seq<nat>)
    requires store.Valid() && ValidGitCommit(gitCommit)
    requires obs != [] ==>
               var before := ReadCommitted(FilingDataset(obs[0].source, issuerId), store.files, FilingIdentity(issuerId, obs[0].source));
               before.Ok? ==> |before.value| + |obs| <= MAX_INT
    modifies store
    ensures store.Valid()
    ensures obs == [] ==> r == Ok(Plan([], [], [])) && store.files == old(store.files)
    ensures obs != [] ==> (r == Err(BadIdentity) <==> !FilingBatchFits(issuerId, obs))
    ensures obs != [] && !FilingBatchFits(issuerId, obs) ==> store.files == old(store.files)
    ensures obs != [] && FilingBatchFits(issuerId, obs) ==>
              StrictOutcome(FilingDataset(obs[0].source, issuerId), SameFiling, FilingIdentity(issuerId, obs[0].source), old(store.files), store.files,
                            store.states, |old(store.states)|, at, FilingBuilder(), obs, gitCommit, r)
  {
    hide BuildFiling, Writable, ReadCommitted, StrictOutcome, FilingDataset;
    at := [];
    if |obs| == 0 {
      return Ok(Plan([], [], [])), at;
    }
    if !FilingBatchFits(issuerId, obs) {
      return Err(BadIdentity), at;
    }
    var source := obs[0].source;
    var d, identity := FilingDataset(source, issuerId), FilingIdentity(issuerId, source);
    SegmentNamesSafe();
    IssuerIdentityValid("filings", source, issuerId);
    forall o | o in obs && BuildFiling(o).Ok? ensures Writable(d, identity, BuildFiling(o).value) {
      FilingWritable(o, identity);
    }
    r, at := WriteBuilt(store, d, SameFiling, identity, FilingBuilder(), obs, gitCommit);
  }

  // ---------- exchange rates ----------

  /** One observation checked against the pair and built, as the loop does both in turn. */
  function FXBuilder(baseCurrency: string, quoteCurrency: string): FXObservation -> Result<FXRow, BuildError>
  {
    (o: FXObservation) =>
      if o.source != "bcb_ptax" || o.baseCurrency != baseCurrency || o.quoteCurrency != quoteCurrency then Err(Rejected) else BuildFX(o)
  }

  predicate FXPair(baseCurrency: string, quoteCurrency: string)
  {
    IsCurrency(baseCurrency) && IsCurrency(quoteCurrency) && baseCurrency != quoteCurrency
  }

  function FXIdentity(pair: string): Identity { PartitionIdentity("fx", "bcb_ptax", "pair", pair) }

  lemma FXIdentityValid(pair: string)
    requires Avoids(pair, {'\\', '/', '\0'})
    ensures ValidIdentity(FXIdentity(pair)) && FXIdentity(pair)["source"] == "bcb_ptax"
  {
    var identity := FXIdentity(pair);
    assert identity.Keys == {"dataset", "source", "pair"};
    assert |identity| == |identity.Keys|;
    FieldNamesSafe();
    SegmentNamesSafe();
  }

  /** Only one pair can be built, so another pair's batch holds no row to write. */
  lemma FXRowsFit(baseCurrency: string, quoteCurrency: string, o: FXObservation)
    requires FXBuilder(baseCurrency, quoteCurrency)(o).Ok?
    ensures var pair := baseCurrency + "-" + quoteCurrency; Writable(FXDataset(pair), FXIdentity(pair), FXBuilder(baseCurrency, quoteCurrency)(o).value)
  {
    hide BuildFX, Writable, ValidIdentity, FXDataset;
    FXContractOf(o);
    PairText();
    SegmentNamesSafe();
    FXIdentityValid("USD-BRL");
    FXWritable(o, FXIdentity("USD-BRL"));
  }

  lemma PairText()
    ensures "USD" + "-" + "BRL" == "USD-BRL"
  {
  }

  lemma FXContractOf(o: FXObservation)
    requires BuildFX(o).Ok?
    ensures o.source == "bcb_ptax" && o.baseCurrency == "USD" && o.quoteCurrency == "BRL"
  {
    hide Decimals.CanonicalDecimal, Decimals.CompareDecimal, ValidProvenance, StampOf;
  }

  /** A changed rate under a repeated key is a conflict, because the source gives no order of corrections. */
  method WriteFX(store: Store<FXRow>, baseCurrency: string, quoteCurrency: string, obs: seq<FXObservation>, gitCommit: string)
    returns (r: Result<Plan<FXRow>, RowError>, ghost at: seq<nat>)
    requires store.Valid() && ValidGitCommit(gitCommit)
    requires var pair := baseCurrency + "-" + quoteCurrency;
             var before := ReadCommitted(FXDataset(pair), store.files, FXIdentity(pair));
             before.Ok? ==> |before.value| + |obs| <= MAX_INT
    modifies store
    ensures store.Valid()
    ensures obs == [] ==> r == Ok(Plan([], [], [])) && store.files == old(store.files)
    ensures obs != [] ==> (r == Err(BadIdentity) <==> obs[0].source != "bcb_ptax" || !FXPair(baseCurrency, quoteCurrency))
    ensures r == Err(BadIdentity) ==> store.files == old(store.files)
    ensures obs != [] && obs[0].source == "bcb_ptax" && FXPair(baseCurrency, quoteCurrency) ==>
              var pair := baseCurrency + "-" + quoteCurrency;
              StrictOutcome(FXDataset(pair), SameFX, FXIdentity(pair), old(store.files), store.files,
                            store.states, |old(store.states)|, at, FXBuilder(baseCurrency, quoteCurrency), obs, gitCommit, r)
  {
    hide BuildFX, Writable, ReadCommitted, StrictOutcome, FXDataset, FXBuilder;
    at := [];
    if |obs| == 0 {
      return Ok(Plan([], [], [])), at;
    }
    if obs[0].source != "bcb_ptax" || !FXPair(baseCurrency, quoteCurrency) {
      return Err(BadIdentity), at;
    }
    var pair := baseCurrency + "-" + quoteCurrency;
    forall o | o in obs && FXBuilder(baseCurrency, quoteCurrency)(o).Ok?
      ensures Writable(FXDataset(pair), FXIdentity(pair), FXBuilder(baseCurrency, quoteCurrency)(o).value)
    {
      FXRowsFit(baseCurrency, quoteCurrency, o);
    }
    r, at := WriteBuilt(store, FXDataset(pair), SameFX, FXIdentity(pair), FXBuilder(baseCurrency, quoteCurrency), obs, gitCommit);
  }
}
