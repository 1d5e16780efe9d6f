/**
 The five physical row types: what the builders accept, what the reader's stored
 checks accept, and the natural keys that tie a row to its place.
 */
module Rows {
  import opened Wrappers
  import opened Instants
  import opened Decimals
  import opened Patterns
  import opened Manifests
  import opened Publication
  import Text

  // ---------- provenance ----------

  datatype Provenance = Provenance(
    dataSourceId: string, ingestionRunId: string, rawPayloadHash: string, rawRecordLocator: string,
    ingestedAt: int, normalizerVersion: string)

  /** The provenance columns every row carries. */
  datatype Stamp = Stamp(
    rawPayloadHash: string, dataSourceId: string, ingestionRunId: string, rawRecordLocator: string, normalizerVersion: string)

  function StampOf(p: Provenance, legacyHash: string): Stamp
  {
    Stamp(if p.rawPayloadHash == "" then legacyHash else p.rawPayloadHash,
          p.dataSourceId, p.ingestionRunId, p.rawRecordLocator, p.normalizerVersion)
  }

  predicate ValidProvenance(p: Provenance, legacyHash: string)
  {
    && legacyHash != "" && p.rawPayloadHash == legacyHash && IsLowerHex(p.rawPayloadHash, 64)
    && IsUuid(p.dataSourceId) && IsUuid(p.ingestionRunId)
    && !IsZero(p.ingestedAt) && p.normalizerVersion != ""
  }

  predicate ValidStored(schemaVersion: string, source: string, s: Stamp)
  {
    && schemaVersion == SCHEMA_VERSION && source != "" && IsLowerHex(s.rawPayloadHash, 64)
    && IsUuid(s.dataSourceId) && IsUuid(s.ingestionRunId) && s.normalizerVersion != ""
  }

  function LineageOf(source: string, s: Stamp): Lineage
  {
    Lineage(source, s.dataSourceId, s.ingestionRunId, s.normalizerVersion)
  }

  predicate IsCanonical(v: string, nonNegative: bool) { CanonicalDecimal(v, nonNegative) == Ok(v) }

  lemma CanonicalIsStored(v: string, nonNegative: bool)
    requires CanonicalDecimal(v, nonNegative).Ok?
    ensures var c := CanonicalDecimal(v, nonNegative).value; IsCanonical(c, nonNegative) && ValidLexeme(c) && c != ""
  {
    CanonicalIdempotent(v, nonNegative);
    CanonicalPreservesValue(v, nonNegative);
  }

  function StoredTemporal(observed: int, observedPrecision: string, published: int, publishedPrecision: string, available: int, ingested: int, hasPublished: bool): Temporal
  {
    Temporal(UnixMicro(observed), NormalizePrecision(observedPrecision),
             if hasPublished then UnixMicro(published) else ZERO_TIME, publishedPrecision,
             UnixMicro(available), UnixMicro(ingested))
  }

  /** The three required instants, in microseconds, when nothing is lost. */
  predicate WholeMicros(t: Temporal)
  {
    && Micros(t.observedAt).Some? && (!IsZero(t.publishedAt) ==> Micros(t.publishedAt).Some?)
    && Micros(t.availableAt).Some? && Micros(t.ingestedAt).Some?
  }

  function OptionalMicros(t: int): int { if !IsZero(t) && Micros(t).Some? then Micros(t).value else 0 }

  /** Instants survive the trip to microseconds and back. */
  lemma TemporalSurvives(t: Temporal, required: bool)
    requires ValidTemporal(t, required) && WholeMicros(t)
    ensures var published := !IsZero(t.publishedAt);
            var stored := StoredTemporal(Micros(t.observedAt).value, NormalizePrecision(t.observedPrecision), OptionalMicros(t.publishedAt),
                                         t.publishedPrecision, Micros(t.availableAt).value, Micros(t.ingestedAt).value, published);
            && stored == t.(observedPrecision := NormalizePrecision(t.observedPrecision))
            && ValidTemporal(stored, false) && (required ==> ValidTemporal(stored, true))
    ensures !IsZero(t.publishedAt) ==> (OptionalMicros(t.publishedAt) == 0 <==> t.publishedAt == 0)
  {
    MicrosRoundTrip(t.observedAt);
    MicrosRoundTrip(t.availableAt);
    MicrosRoundTrip(t.ingestedAt);
    if !IsZero(t.publishedAt) {
      MicrosRoundTrip(t.publishedAt);
    }
  }

  lemma StampSurvives(p: Provenance, legacyHash: string, source: string)
    requires ValidProvenance(p, legacyHash)
    ensures ValidStored(SCHEMA_VERSION, source, StampOf(p, legacyHash)) <==> source != ""
  {
  }

  datatype BuildError = Rejected

  /** The stored day of a period end passes the reader's two checks unless it was rounded up. */
  lemma PeriodEndSurvives(periodEnd: int, observedAt: int, publishedAt: int)
    requires SameUtcDay(periodEnd, observedAt) && periodEnd <= publishedAt
    ensures SameUtcDay(Days(periodEnd) * DAY, observedAt) && Days(periodEnd) * DAY <= publishedAt <==>
            Unix(periodEnd) >= 0 || Unix(periodEnd) % 86_400 == 0
  {
    DaysIsUtcDay(periodEnd);
    DayStart(Days(periodEnd));
  }

  lemma PublishedPresent(t: Temporal)
    requires ValidTemporal(t, true)
    ensures !IsZero(t.publishedAt) && t.availableAt >= t.publishedAt
  {
  }

  lemma EmptyIsNoDecimal()
    ensures CanonicalDecimal("", false).Err?
  {
  }

  // ---------- prices ----------

  datatype PriceBar = PriceBar(
    source: string, securityId: string, currency: string, interval: string, priceBasis: string, temporal: Temporal,
    open: string, high: string, low: string, close: string, volume: string, rawPayloadHash: string, provenance: Provenance)

  datatype PriceRow = PriceRow(
    schemaVersion: string, source: string, securityId: string, interval: string, priceBasis: string, currency: string,
    observedAt: int, observedPrecision: string, publishedAt: int, hasPublishedAt: bool, publishedPrecision: string,
    availableAt: int, ingestedAt: int, open: string, high: string, low: string, close: string,
    volume: string, hasVolume: bool, stamp: Stamp)

  predicate IsPriceBasis(s: string) { s in {"raw", "split_adjusted", "total_return_adjusted"} }

  predicate OrderedBar(open: string, high: string, low: string, close: string)
    requires ValidLexeme(open) && ValidLexeme(high) && ValidLexeme(low) && ValidLexeme(close)
  {
    && CompareDecimal(low, high) <= 0
    && CompareDecimal(open, low) >= 0 && CompareDecimal(open, high) <= 0
    && CompareDecimal(close, low) >= 0 && CompareDecimal(close, high) <= 0
  }

  function BuildPrice(o: PriceBar): Result<PriceRow, BuildError>
  {
    var t := o.temporal;
    var published := !IsZero(t.publishedAt);
    if !ValidTemporal(t, published) || !WholeMicros(t) then Err(Rejected)
    else if !ValidProvenance(o.provenance, o.rawPayloadHash) || o.provenance.ingestedAt != t.ingestedAt then Err(Rejected)
    else if !IsCurrency(o.currency) || o.source == "" then Err(Rejected)
    else if o.source == "yahoo" && o.priceBasis != "split_adjusted" then Err(Rejected)
    else if o.interval != "1d" || !IsPriceBasis(o.priceBasis) || !IsUuid(o.securityId) then Err(Rejected)
    else
      var open, high := CanonicalDecimal(o.open, true), CanonicalDecimal(o.high, true);
      var low, close := CanonicalDecimal(o.low, true), CanonicalDecimal(o.close, true);
      var volume := if o.volume == "" then Ok("") else CanonicalDecimal(o.volume, true);
      if open.Err? || high.Err? || low.Err? || close.Err? || volume.Err? then Err(Rejected)
      else
        assert ValidLexeme(open.value) && ValidLexeme(high.value) && ValidLexeme(low.value) && ValidLexeme(close.value) by {
          CanonicalIsStored(o.open, true);
          CanonicalIsStored(o.high, true);
          CanonicalIsStored(o.low, true);
          CanonicalIsStored(o.close, true);
        }
        if !OrderedBar(open.value, high.value, low.value, close.value) then Err(Rejected)
        else
          Ok(PriceRow(SCHEMA_VERSION, o.source, o.securityId, o.interval, o.priceBasis, o.currency,
                      Micros(t.observedAt).value, NormalizePrecision(t.observedPrecision),
                      OptionalMicros(t.publishedAt), published, t.publishedPrecision,
                      Micros(t.availableAt).value, Micros(t.ingestedAt).value,
                      open.value, high.value, low.value, close.value, volume.value, o.volume != "",
                      StampOf(o.provenance, o.rawPayloadHash)))
  }

  predicate ValidStoredPrice(r: PriceRow)
  {
    && ValidStored(r.schemaVersion, r.source, r.stamp) && IsUuid(r.securityId)
    && (r.source == "yahoo" ==> r.priceBasis == "split_adjusted")
    && r.interval == "1d" && IsPriceBasis(r.priceBasis) && IsCurrency(r.currency)
    && r.hasPublishedAt == (r.publishedAt != 0)
    && ValidTemporal(StoredTemporal(r.observedAt, r.observedPrecision, r.publishedAt, r.publishedPrecision, r.availableAt, r.ingestedAt, r.hasPublishedAt), false)
    && r.hasVolume == (r.volume != "")
    && IsCanonical(r.open, true) && IsCanonical(r.high, true) && IsCanonical(r.low, true) && IsCanonical(r.close, true)
    && (r.hasVolume ==> IsCanonical(r.volume, true))
    && OrderedBar(r.open, r.high, r.low, r.close)
  }

  function PriceKey(r: PriceRow): string
  {
    Text.Join([r.source, r.securityId, r.interval, Text.Sprint(r.observedAt), r.priceBasis])
  }

  predicate SamePrecision(a: string, b: string)
  {
    a == b || a == UNKNOWN || b == UNKNOWN || a == "" || b == ""
  }

  /** Receipt details may differ; the published instant's value may, its presence may not. */
  predicate SamePrice(a: PriceRow, b: PriceRow)
  {
    && SamePrecision(a.observedPrecision, b.observedPrecision)
    && a.(observedPrecision := b.observedPrecision, publishedAt := b.publishedAt, availableAt := b.availableAt, ingestedAt := b.ingestedAt,
          stamp := a.stamp.(rawPayloadHash := b.stamp.rawPayloadHash, ingestionRunId := b.stamp.ingestionRunId)) == b
  }

  function PriceDataset(source: string, securityId: string): Dataset<PriceRow>
  {
    Dataset(
      (r: PriceRow) => PriceKey(r), (r: PriceRow) => ValidStoredPrice(r),
      (r: PriceRow) => r.source == source && r.securityId == securityId,
      (r: PriceRow) => r.(observedPrecision := NormalizePrecision(r.observedPrecision)),
      (r: PriceRow) => LineageOf(r.source, r.stamp))
  }

  /**
   Every accepted bar becomes a row the reader accepts, unless it was published
   exactly at the Unix epoch: the stored check reads that instant as absent.
   */
  lemma PriceRowsAreReadable(o: PriceBar)
    requires BuildPrice(o).Ok?
    ensures ValidStoredPrice(BuildPrice(o).value) <==> o.temporal.publishedAt != 0
  {
    var t := o.temporal;
    TemporalSurvives(t, !IsZero(t.publishedAt));
    StampSurvives(o.provenance, o.rawPayloadHash, o.source);
    CanonicalIsStored(o.open, true);
    CanonicalIsStored(o.high, true);
    CanonicalIsStored(o.low, true);
    CanonicalIsStored(o.close, true);
    if o.volume != "" {
      CanonicalIsStored(o.volume, true);
    }
    hide CanonicalDecimal, OrderedBar, IsUuid, ValidProvenance, ValidStored, StampOf, ValidTemporal, StoredTemporal, WholeMicros, OptionalMicros, IsCurrency, IsCanonical, ValidLexeme;
  }

  lemma PriceRowFields(o: PriceBar)
    requires BuildPrice(o).Ok?
    ensures var r := BuildPrice(o).value;
            && r.source == o.source && r.securityId == o.securityId && r.stamp == StampOf(o.provenance, o.rawPayloadHash)
            && r.observedPrecision == NormalizePrecision(r.observedPrecision)
            && ValidProvenance(o.provenance, o.rawPayloadHash) && o.source != ""
  {
    hide CanonicalDecimal, OrderedBar, ValidTemporal, WholeMicros, ValidProvenance, StampOf, ValidFilingTemporal, FilingMicros, AbsoluteUrl;
  }

  // ---------- fundamentals ----------

  datatype FundamentalObservation = FundamentalObservation(
    source: string, issuerId: string, securityId: string, taxonomy: string, concept: string, unit: string, temporal: Temporal,
    periodStart: Option<int>, periodEnd: int, value: string, currency: string, revision: int,
    accessionNumber: string, form: string, fiscalPeriod: string, frame: string, fiscalYear: int,
    rawPayloadHash: string, provenance: Provenance)

  datatype FundamentalRow = FundamentalRow(
    schemaVersion: string, source: string, issuerId: string, securityId: string, hasSecurityId: bool,
    taxonomy: string, concept: string, unit: string, currency: string, hasCurrency: bool,
    observedAt: int, observedPrecision: string, publishedAt: int, publishedPrecision: string, availableAt: int, ingestedAt: int,
    periodStart: int, hasPeriodStart: bool, periodEnd: int, value: string, hasValue: bool, revision: int,
    accessionNumber: string, form: string, fiscalYear: int, fiscalPeriod: string, frame: string, stamp: Stamp)

  predicate ValidFiscalPeriod(s: string)
  {
    s in {"FY", "Q1", "Q2", "Q3", "Q4", "H1", "H2", "YTD", "instant", "other"}
  }

  function BuildFundamental(o: FundamentalObservation): Result<FundamentalRow, BuildError>
  {
    var t, value := o.temporal, CanonicalDecimal(o.value, false);
    if !ValidTemporal(t, true) || !WholeMicros(t) then Err(Rejected)
    else if !ValidProvenance(o.provenance, o.rawPayloadHash) || o.provenance.ingestedAt != t.ingestedAt then Err(Rejected)
    else if !IsUuid(o.issuerId) || (o.securityId != "" && !IsUuid(o.securityId)) then Err(Rejected)
    else if o.currency != "" && !IsCurrency(o.currency) then Err(Rejected)
    else if o.source == "" || o.taxonomy == "" || o.concept == "" || o.unit == "" || !ValidFiscalPeriod(o.fiscalPeriod) || o.revision < 0 then Err(Rejected)
    else if !SameUtcDay(o.periodEnd, t.observedAt) || o.periodEnd > t.publishedAt then Err(Rejected)
    else if value.Err? then Err(Rejected)
    else if o.periodStart.Some? && Days(o.periodStart.value) > Days(o.periodEnd) then Err(Rejected)
    else
      Ok(FundamentalRow(SCHEMA_VERSION, o.source, o.issuerId, o.securityId, o.securityId != "",
                        o.taxonomy, o.concept, o.unit, o.currency, o.currency != "",
                        Micros(t.observedAt).value, NormalizePrecision(t.observedPrecision),
                        OptionalMicros(t.publishedAt), t.publishedPrecision,
                        Micros(t.availableAt).value, Micros(t.ingestedAt).value,
                        if o.periodStart.Some? then Days(o.periodStart.value) else 0, o.periodStart.Some?, Days(o.periodEnd),
                        value.value, o.value != "", o.revision, o.accessionNumber, o.form, o.fiscalYear, o.fiscalPeriod, o.frame,
                        StampOf(o.provenance, o.rawPayloadHash)))
  }

  predicate ValidStoredFundamental(r: FundamentalRow)
  {
    var temporal := StoredTemporal(r.observedAt, r.observedPrecision, r.publishedAt, r.publishedPrecision, r.availableAt, r.ingestedAt, true);
    && ValidStored(r.schemaVersion, r.source, r.stamp) && IsUuid(r.issuerId)
    && r.hasSecurityId == (r.securityId != "") && (r.hasSecurityId ==> IsUuid(r.securityId))
    && r.taxonomy != "" && r.concept != "" && r.unit != "" && ValidFiscalPeriod(r.fiscalPeriod) && r.revision >= 0
    && r.hasCurrency == (r.currency != "") && (r.hasCurrency ==> IsCurrency(r.currency))
    && r.hasValue == (r.value != "") && (r.hasValue ==> IsCanonical(r.value, false))
    && (!r.hasPeriodStart ==> r.periodStart == 0)
    && (r.hasPeriodStart ==> r.periodStart <= r.periodEnd)
    && ValidTemporal(temporal, true)
    && SameUtcDay(r.periodEnd * DAY, temporal.observedAt) && r.periodEnd * DAY <= temporal.publishedAt
  }

  function FundamentalKey(r: FundamentalRow): string
  {
    Text.Join([r.source, r.issuerId, r.securityId, r.taxonomy, r.concept, r.unit,
               if r.hasPeriodStart then "true" else "false", Text.Sprint(r.periodStart), Text.Sprint(r.periodEnd),
               Text.Sprint(r.publishedAt), Text.Sprint(r.revision), r.accessionNumber, r.form, r.frame])
  }

  predicate SameFundamental(a: FundamentalRow, b: FundamentalRow)
  {
    && SamePrecision(a.observedPrecision, b.observedPrecision)
    && a.(observedPrecision := b.observedPrecision, ingestedAt := b.ingestedAt,
          stamp := a.stamp.(rawPayloadHash := b.stamp.rawPayloadHash, ingestionRunId := b.stamp.ingestionRunId)) == b
  }

  function FundamentalDataset(source: string, issuerId: string): Dataset<FundamentalRow>
  {
    Dataset(
      (r: FundamentalRow) => FundamentalKey(r), (r: FundamentalRow) => ValidStoredFundamental(r),
      (r: FundamentalRow) => r.source == source && r.issuerId == issuerId,
      (r: FundamentalRow) => r.(observedPrecision := NormalizePrecision(r.observedPrecision)),
      (r: FundamentalRow) => LineageOf(r.source, r.stamp))
  }

  /**
   Every accepted fundamental becomes a row the reader accepts, unless its period
   ends before 1970 and off a day boundary: rounding toward zero then stores the
   following day.
   */
  lemma FundamentalRowsAreReadable(o: FundamentalObservation)
    requires BuildFundamental(o).Ok?
    ensures ValidStoredFundamental(BuildFundamental(o).value) <==> Unix(o.periodEnd) >= 0 || Unix(o.periodEnd) % 86_400 == 0
  {
    var t := o.temporal;
    TemporalSurvives(t, true);
    PublishedPresent(t);
    StampSurvives(o.provenance, o.rawPayloadHash, o.source);
    CanonicalIsStored(o.value, false);
    assert o.value != "" by {
      EmptyIsNoDecimal();
    }
    PeriodEndSurvives(o.periodEnd, t.observedAt, t.publishedAt);
    hide CanonicalDecimal, IsUuid, ValidProvenance, ValidStored, StampOf, ValidTemporal, StoredTemporal, WholeMicros, OptionalMicros, IsCurrency, IsCanonical, ValidLexeme, Days, ValidFiscalPeriod, SameUtcDay, Unix;
  }

  lemma FundamentalRowFields(o: FundamentalObservation)
    requires BuildFundamental(o).Ok?
    ensures var r := BuildFundamental(o).value;
            && r.source == o.source && r.issuerId == o.issuerId && r.stamp == StampOf(o.provenance, o.rawPayloadHash)
            && r.observedPrecision == NormalizePrecision(r.observedPrecision)
            && ValidProvenance(o.provenance, o.rawPayloadHash) && o.source != ""
  {
    hide CanonicalDecimal, OrderedBar, ValidTemporal, WholeMicros, ValidProvenance, StampOf, ValidFilingTemporal, FilingMicros, AbsoluteUrl;
  }

  // ---------- economics ----------

  datatype EconomicObservation = EconomicObservation(
    source: string, seriesId: string, unit: string, geography: string, frequency: string, seasonalAdjustment: string,
    temporal: Temporal, value: string, revision: int, vintageAt: Option<int>, rawPayloadHash: string, provenance: Provenance)

  datatype EconomicRow = EconomicRow(
    schemaVersion: string, source: string, seriesId: string, geography: string, unit: string, frequency: string,
    seasonalAdjustment: string, hasSeasonalAdjustment: bool, observedAt: int, observedPrecision: string,
    publishedAt: int, publishedPrecision: string, availableAt: int, ingestedAt: int,
    value: string, hasValue: bool, revision: int, vintageAt: int, hasVintageAt: bool, stamp: Stamp)

  predicate ValidEconomicSource(s: string) { s in {"fred", "alfred", "bcb"} }

  predicate ValidFrequency(s: string)
  {
    s in {"daily", "weekly", "monthly", "quarterly", "semiannual", "annual", "irregular"}
  }

  function BuildEconomic(o: EconomicObservation): Result<EconomicRow, BuildError>
  {
    var t := o.temporal;
    var value := if o.value == "" then Ok("") else CanonicalDecimal(o.value, false);
    if !ValidTemporal(t, true) || !WholeMicros(t) then Err(Rejected)
    else if !ValidProvenance(o.provenance, o.rawPayloadHash) || o.provenance.ingestedAt != t.ingestedAt then Err(Rejected)
    else if !ValidEconomicSource(o.source) || o.geography == "" || !ValidFrequency(o.frequency) then Err(Rejected)
    else if o.seriesId == "" || o.unit == "" || o.revision < 0 then Err(Rejected)
    else if value.Err? || (o.vintageAt.Some? && Micros(o.vintageAt.value).None?) then Err(Rejected)
    else
      Ok(EconomicRow(SCHEMA_VERSION, o.source, o.seriesId, o.geography, o.unit, o.frequency,
                     o.seasonalAdjustment, o.seasonalAdjustment != "",
                     Micros(t.observedAt).value, NormalizePrecision(t.observedPrecision),
                     OptionalMicros(t.publishedAt), t.publishedPrecision,
                     Micros(t.availableAt).value, Micros(t.ingestedAt).value,
                     value.value, o.value != "", o.revision,
                     if o.vintageAt.Some? then Micros(o.vintageAt.value).value else 0, o.vintageAt.Some?,
                     StampOf(o.provenance, o.rawPayloadHash)))
  }

  predicate ValidStoredEconomic(r: EconomicRow)
  {
    && ValidStored(r.schemaVersion, r.source, r.stamp) && ValidEconomicSource(r.source)
    && r.seriesId != "" && r.geography != "" && r.unit != "" && ValidFrequency(r.frequency) && r.revision >= 0
    && r.hasSeasonalAdjustment == (r.seasonalAdjustment != "")
    && r.hasValue == (r.value != "") && (r.hasValue ==> IsCanonical(r.value, false))
    && r.hasVintageAt == (r.vintageAt != 0)
    && ValidTemporal(StoredTemporal(r.observedAt, r.observedPrecision, r.publishedAt, r.publishedPrecision, r.availableAt, r.ingestedAt, true), true)
  }

  function EconomicKey(r: EconomicRow): string
  {
    Text.Join([r.source, r.seriesId, Text.Sprint(r.observedAt), Text.Sprint(r.publishedAt), Text.Sprint(r.revision)])
  }

  function EconomicSeriesKey(r: EconomicRow): string
  {
    Text.Join([r.source, r.seriesId, Text.Sprint(r.observedAt)])
  }

  predicate SameEconomic(a: EconomicRow, b: EconomicRow)
  {
    && SamePrecision(a.observedPrecision, b.observedPrecision)
    && a.(observedPrecision := b.observedPrecision, ingestedAt := b.ingestedAt,
          stamp := a.stamp.(rawPayloadHash := b.stamp.rawPayloadHash, ingestionRunId := b.stamp.ingestionRunId)) == b
  }

  function EconomicDataset(source: string, seriesId: string): Dataset<EconomicRow>
  {
    Dataset(
      (r: EconomicRow) => EconomicKey(r), (r: EconomicRow) => ValidStoredEconomic(r),
      (r: EconomicRow) => r.source == source && r.seriesId == seriesId,
      (r: EconomicRow) => r.(observedPrecision := NormalizePrecision(r.observedPrecision)),
      (r: EconomicRow) => LineageOf(r.source, r.stamp))
  }

  /** Every accepted economic observation becomes a row the reader accepts, unless its vintage is the Unix epoch. */
  lemma EconomicRowsAreReadable(o: EconomicObservation)
    requires BuildEconomic(o).Ok?
    ensures ValidStoredEconomic(BuildEconomic(o).value) <==> o.vintageAt != Some(0)
  {
    var t := o.temporal;
    TemporalSurvives(t, true);
    PublishedPresent(t);
    StampSurvives(o.provenance, o.rawPayloadHash, o.source);
    if o.vintageAt.Some? {
      MicrosRoundTrip(o.vintageAt.value);
    }
    if o.value != "" {
      CanonicalIsStored(o.value, false);
    }
    hide CanonicalDecimal, ValidProvenance, ValidStored, StampOf, ValidTemporal, StoredTemporal, WholeMicros, OptionalMicros, IsCanonical, ValidLexeme, ValidFrequency;
  }

  lemma EconomicRowFields(o: EconomicObservation)
    requires BuildEconomic(o).Ok?
    ensures var r := BuildEconomic(o).value;
            && r.source == o.source && r.seriesId == o.seriesId && r.stamp == StampOf(o.provenance, o.rawPayloadHash)
            && r.observedPrecision == NormalizePrecision(r.observedPrecision)
            && ValidProvenance(o.provenance, o.rawPayloadHash) && o.source != ""
  {
    hide CanonicalDecimal, OrderedBar, ValidTemporal, WholeMicros, ValidProvenance, StampOf, ValidFilingTemporal, FilingMicros, AbsoluteUrl;
  }

  // ---------- exchange rates ----------

  datatype FXObservation = FXObservation(
    id: string, source: string, baseCurrency: string, quoteCurrency: string, rateKind: string, fixingTimezone: string,
    buyRate: string, sellRate: string, fixingAt: int, publishedAt: int, availableAt: int, recordedAt: int,
    revision: int, sourceRecordId: string, rawPayloadHash: string, provenance: Provenance)

  datatype FXRow = FXRow(
    schemaVersion: string, id: string, source: string, baseCurrency: string, quoteCurrency: string, rateKind: string,
    fixingTimezone: string, buyRate: string, sellRate: string, fixingAt: int, publishedAt: int, availableAt: int,
    recordedAt: int, revision: int, sourceRecordId: string, stamp: Stamp)

  predicate FXContract(source: string, rateKind: string, timezone: string, baseCurrency: string, quoteCurrency: string)
  {
    && source == "bcb_ptax" && rateKind == "ptax_closing" && timezone == "America/Sao_Paulo"
    && baseCurrency == "USD" && quoteCurrency == "BRL"
  }

  function BuildFX(o: FXObservation): Result<FXRow, BuildError>
  {
    var buy, sell := CanonicalDecimal(o.buyRate, true), CanonicalDecimal(o.sellRate, true);
    if !FXContract(o.source, o.rateKind, o.fixingTimezone, o.baseCurrency, o.quoteCurrency) || !IsUuid(o.id) then Err(Rejected)
    else if o.revision != 0 || o.sourceRecordId == "" then Err(Rejected)
    else if !ValidProvenance(o.provenance, o.rawPayloadHash) || o.provenance.ingestedAt != o.recordedAt then Err(Rejected)
    else if buy.Err? || buy.value == "0" || sell.Err? || sell.value == "0" then Err(Rejected)
    else
      assert ValidLexeme(buy.value) && ValidLexeme(sell.value) by {
        CanonicalIsStored(o.buyRate, true);
        CanonicalIsStored(o.sellRate, true);
      }
      if CompareDecimal(buy.value, sell.value) > 0 then Err(Rejected)
      else if Micros(o.fixingAt).None? || IsZero(o.fixingAt) || o.publishedAt != o.fixingAt || o.availableAt != o.publishedAt then Err(Rejected)
      else if Micros(o.recordedAt).None? || o.recordedAt < o.availableAt then Err(Rejected)
      else
        Ok(FXRow(SCHEMA_VERSION, o.id, o.source, o.baseCurrency, o.quoteCurrency, o.rateKind, o.fixingTimezone,
                 buy.value, sell.value, Micros(o.fixingAt).value, Micros(o.fixingAt).value, Micros(o.fixingAt).value,
                 Micros(o.recordedAt).value, o.revision, o.sourceRecordId, StampOf(o.provenance, o.rawPayloadHash)))
  }

  predicate ValidStoredFX(r: FXRow)
  {
    && ValidStored(r.schemaVersion, r.source, r.stamp) && IsUuid(r.id)
    && FXContract(r.source, r.rateKind, r.fixingTimezone, r.baseCurrency, r.quoteCurrency)
    && r.revision == 0 && r.sourceRecordId != ""
    && IsCanonical(r.buyRate, true) && r.buyRate != "0" && IsCanonical(r.sellRate, true) && r.sellRate != "0"
    && CompareDecimal(r.buyRate, r.sellRate) <= 0
    && r.fixingAt != 0 && r.publishedAt == r.fixingAt && r.availableAt == r.publishedAt && r.recordedAt >= r.availableAt
  }

  function FXKey(r: FXRow): string
  {
    Text.Join([r.source, r.baseCurrency, r.quoteCurrency, r.rateKind, Text.Sprint(r.fixingAt), Text.Sprint(r.revision)])
  }

  predicate SameFX(a: FXRow, b: FXRow)
  {
    a.(recordedAt := b.recordedAt,
       stamp := a.stamp.(rawPayloadHash := b.stamp.rawPayloadHash, ingestionRunId := b.stamp.ingestionRunId)) == b
  }

  function FXDataset(pair: string): Dataset<FXRow>
  {
    Dataset(
      (r: FXRow) => FXKey(r), (r: FXRow) => ValidStoredFX(r),
      (r: FXRow) => r.source == "bcb_ptax" && r.baseCurrency + "-" + r.quoteCurrency == pair,
      (r: FXRow) => r,
      (r: FXRow) => LineageOf(r.source, r.stamp))
  }

  /** Every accepted bulletin becomes a row the reader accepts, unless its fixing is the Unix epoch. */
  lemma FXRowsAreReadable(o: FXObservation)
    requires BuildFX(o).Ok?
    ensures ValidStoredFX(BuildFX(o).value) <==> o.fixingAt != 0
  {
    MicrosRoundTrip(o.fixingAt);
    MicrosRoundTrip(o.recordedAt);
    CanonicalIsStored(o.buyRate, true);
    CanonicalIsStored(o.sellRate, true);
    StampSurvives(o.provenance, o.rawPayloadHash, o.source);
    hide CanonicalDecimal, CompareDecimal, IsUuid, ValidProvenance, ValidStored, StampOf, IsCanonical, ValidLexeme, FXContract;
  }

  lemma FXRowFields(o: FXObservation)
    requires BuildFX(o).Ok?
    ensures var r := BuildFX(o).value;
            && r.source == o.source && FXDataset("USD-BRL").belongs(r) && r.stamp == StampOf(o.provenance, o.rawPayloadHash)
            && ValidProvenance(o.provenance, o.rawPayloadHash) && o.source != ""
  {
    hide CanonicalDecimal, CompareDecimal, ValidProvenance, StampOf;
    assert "USD" + "-" + "BRL" == "USD-BRL";
  }

  // ---------- filings ----------

  datatype Filing = Filing(
    id: string, source: string, issuerId: string, sourceDocumentId: string, documentUrl: string, accessionNumber: string,
    formType: string, category: string, documentType: string, species: string, subject: string, presentationType: string,
    primaryDocument: string, amendsSourceDocumentId: string, filingDate: int, periodEnd: Option<int>, temporal: Temporal,
    effectiveAt: Option<int>, provenance: Provenance, rawPayloadHash: string)

  datatype FilingRow = FilingRow(
    schemaVersion: string, id: string, source: string, issuerId: string, sourceDocumentId: string, documentUrl: string,
    accessionNumber: string, formType: string, category: string, documentType: string, species: string, subject: string,
    presentationType: string, primaryDocument: string, amendsSourceDocumentId: string, filingDate: int,
    periodEnd: int, hasPeriodEnd: bool, observedAt: int, hasObservedAt: bool, observedPrecision: string,
    publishedAt: int, hasPublishedAt: bool, publishedPrecision: string, availableAt: int,
    effectiveAt: int, hasEffectiveAt: bool, ingestedAt: int, stamp: Stamp)

  /** A scheme, "://" and a host. */
  predicate AbsoluteUrl(s: string)
  {
    exists i :: 0 < i < |s| - 3 && s[i] == ':' && s[i + 1] == '/' && s[i + 2] == '/'
  }

  predicate ValidFiling(f: Filing)
  {
    && f.source != "" && f.issuerId != "" && f.sourceDocumentId != "" && f.formType != "" && !IsZero(f.filingDate)
    && AbsoluteUrl(f.documentUrl) && ValidFilingTemporal(f.temporal)
    && (f.effectiveAt.Some? ==> !IsZero(f.effectiveAt.value))
  }

  predicate CanonicalDate(t: int) { !IsZero(t) && Midnight(t) }

  predicate FilingMicros(t: Temporal)
  {
    && (!IsZero(t.observedAt) ==> Micros(t.observedAt).Some?) && (!IsZero(t.publishedAt) ==> Micros(t.publishedAt).Some?)
    && Micros(t.availableAt).Some? && Micros(t.ingestedAt).Some?
  }

  function BuildFiling(o: Filing): Result<FilingRow, BuildError>
  {
    var t := o.temporal;
    if !ValidFiling(o) || !ValidProvenance(o.provenance, o.rawPayloadHash) || o.provenance.ingestedAt != t.ingestedAt then Err(Rejected)
    else if !IsUuid(o.id) || !IsUuid(o.issuerId) then Err(Rejected)
    else if !CanonicalDate(o.filingDate) || (o.periodEnd.Some? && !CanonicalDate(o.periodEnd.value)) then Err(Rejected)
    else if !FilingMicros(t) || (o.effectiveAt.Some? && Micros(o.effectiveAt.value).None?) then Err(Rejected)
    else
      Ok(FilingRow(SCHEMA_VERSION, o.id, o.source, o.issuerId, o.sourceDocumentId, o.documentUrl, o.accessionNumber,
                   o.formType, o.category, o.documentType, o.species, o.subject, o.presentationType, o.primaryDocument,
                   o.amendsSourceDocumentId, Days(o.filingDate),
                   if o.periodEnd.Some? then Days(o.periodEnd.value) else 0, o.periodEnd.Some?,
                   OptionalMicros(t.observedAt), !IsZero(t.observedAt), NormalizePrecision(t.observedPrecision),
                   OptionalMicros(t.publishedAt), !IsZero(t.publishedAt), NormalizePrecision(t.publishedPrecision),
                   Micros(t.availableAt).value,
                   if o.effectiveAt.Some? then Micros(o.effectiveAt.value).value else 0, o.effectiveAt.Some?,
                   Micros(t.ingestedAt).value, StampOf(o.provenance, o.rawPayloadHash)))
  }

  predicate ValidStoredFiling(r: FilingRow)
  {
    && ValidStored(r.schemaVersion, r.source, r.stamp) && IsUuid(r.id) && IsUuid(r.issuerId)
    && r.sourceDocumentId != "" && r.formType != "" && AbsoluteUrl(r.documentUrl)
    && r.hasPeriodEnd == (r.periodEnd != 0)
    && r.hasObservedAt == (r.observedAt != 0)
    && r.hasPublishedAt == (r.publishedAt != 0)
    && r.hasEffectiveAt == (r.effectiveAt != 0)
    && ValidFilingTemporal(Temporal(
         if r.hasObservedAt then UnixMicro(r.observedAt) else ZERO_TIME, NormalizePrecision(r.observedPrecision),
         if r.hasPublishedAt then UnixMicro(r.publishedAt) else ZERO_TIME, NormalizePrecision(r.publishedPrecision),
         UnixMicro(r.availableAt), UnixMicro(r.ingestedAt)))
  }

  function FilingKey(r: FilingRow): string
  {
    Text.Join([r.source, r.sourceDocumentId])
  }

  predicate SameFiling(a: FilingRow, b: FilingRow)
  {
    && (a.source != "sec" ==> a.stamp.rawPayloadHash == b.stamp.rawPayloadHash)
    && a.(availableAt := b.availableAt, ingestedAt := b.ingestedAt,
          stamp := a.stamp.(rawPayloadHash := b.stamp.rawPayloadHash, ingestionRunId := b.stamp.ingestionRunId)) == b
  }

  function FilingDataset(source: string, issuerId: string): Dataset<FilingRow>
  {
    Dataset(
      (r: FilingRow) => FilingKey(r), (r: FilingRow) => ValidStoredFiling(r),
      (r: FilingRow) => r.source == source && r.issuerId == issuerId,
      (r: FilingRow) => r.(observedPrecision := NormalizePrecision(r.observedPrecision), publishedPrecision := NormalizePrecision(r.publishedPrecision)),
      (r: FilingRow) => LineageOf(r.source, r.stamp))
  }

  /** Every accepted filing becomes a row the reader accepts, unless one of its four optional dates is the Unix epoch. */
  lemma FilingRowsAreReadable(o: Filing)
    requires BuildFiling(o).Ok?
    ensures ValidStoredFiling(BuildFiling(o).value) <==>
            o.periodEnd != Some(0) && o.temporal.observedAt != 0 && o.temporal.publishedAt != 0 && o.effectiveAt != Some(0)
  {
    var t := o.temporal;
    MicrosRoundTrip(t.availableAt);
    MicrosRoundTrip(t.ingestedAt);
    if !IsZero(t.observedAt) {
      MicrosRoundTrip(t.observedAt);
    }
    if !IsZero(t.publishedAt) {
      MicrosRoundTrip(t.publishedAt);
    }
    if o.effectiveAt.Some? {
      MicrosRoundTrip(o.effectiveAt.value);
    }
    if o.periodEnd.Some? {
      DaysIsUtcDay(o.periodEnd.value);
      MidnightDays(o.periodEnd.value);
    }
    hide IsLowerHex, IsUuid, AbsoluteUrl, Days;
  }

  lemma FilingRowFields(o: Filing)
    requires BuildFiling(o).Ok?
    ensures var r := BuildFiling(o).value;
            && r.source == o.source && r.issuerId == o.issuerId && r.stamp == StampOf(o.provenance, o.rawPayloadHash)
            && r.observedPrecision == NormalizePrecision(r.observedPrecision) && r.publishedPrecision == NormalizePrecision(r.publishedPrecision)
            && ValidProvenance(o.provenance, o.rawPayloadHash) && o.source != ""
  {
    hide CanonicalDecimal, OrderedBar, ValidTemporal, WholeMicros, ValidProvenance, StampOf, ValidFilingTemporal, FilingMicros, AbsoluteUrl;
  }

  lemma MidnightDays(t: int)
    requires Midnight(t)
    ensures Days(t) == 0 <==> t == 0
  {
    assert Unix(t) % 86_400 == 0;
    DaysIsUtcDay(t);
  }
}
