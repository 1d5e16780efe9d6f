/**
 The published history: six append-only tables, the validation of a batch, its
 publication in one transaction, and the resolvers that read what was published.
 */
module HistoricalTruth {
  import opened Wrappers
  import opened Instants
  import opened Patterns
  import opened Sorting
  import opened Versions
  import opened Historical
  import opened ImmutableTables
  import Calendars
  import Manifests
  import Text

  datatype TruthBatch = TruthBatch(
    identifiers: seq<Version<IdentifierVersion>>, listings: seq<Version<ListingVersion>>, memberships: seq<Version<Membership>>,
    calendars: seq<Calendars.CalendarManifest>, sessions: seq<Calendars.TradingSession>, actions: seq<Version<CorporateAction>>)

  /** The rows that the foreign keys refer to. */
  datatype Parents = Parents(securities: set<string>, issuers: set<string>, sources: set<string>, runs: set<(string, string)>)

  const NOBODY := Parents({}, {}, {}, {})

  // ---------- validation ----------

  predicate Nonblank(s: string) { Text.TrimSpace(s) != "" }

  predicate ValidInterval(i: Interval)
  {
    i.validFrom != ZERO_TIME && (i.validUntil.Some? ==> i.validFrom < i.validUntil.value)
  }

  predicate ValidIdentifier(v: Version<IdentifierVersion>)
  {
    var p := v.payload;
    && Calendars.ValidCommon(v.id, p.dataSourceId, p.sourceReference, p.rawPayloadHash, v.revision, v.availableAt, v.recordedAt)
    && ValidInterval(p.interval)
    && Nonblank(p.securityId) && Nonblank(p.identifierType) && Nonblank(p.identifierScope) && Nonblank(p.value) && Nonblank(p.normalizedValue)
  }

  predicate ValidListing(v: Version<ListingVersion>)
  {
    var p := v.payload;
    && Calendars.ValidCommon(v.id, p.dataSourceId, p.sourceReference, p.rawPayloadHash, v.revision, v.availableAt, v.recordedAt)
    && ValidInterval(p.interval)
    && Nonblank(p.securityId) && Nonblank(p.exchange) && Nonblank(p.mic) && Nonblank(p.currency)
  }

  predicate ValidMembership(v: Version<Membership>)
  {
    var p := v.payload;
    && Calendars.ValidCommon(v.id, p.dataSourceId, p.sourceReference, p.rawPayloadHash, v.revision, v.availableAt, v.recordedAt)
    && ValidInterval(p.interval)
    && Nonblank(p.universeId) && Nonblank(p.securityId)
    && (p.announcedAt.Some? ==> p.announcedAt.value <= v.availableAt)
  }

  predicate ValidPrecision(at: int, precision: string)
  {
    && at % MICRO == 0
    && precision in {DATE, WHOLE_SECOND, UNKNOWN}
    && (precision == DATE ==> Midnight(at)) && (precision == WHOLE_SECOND ==> WholeSecond(at))
  }

  predicate OptionalIs(value: Option<string>, p: string -> bool) { value.Some? ==> p(value.value) }

  predicate ValidActionShape(p: CorporateAction)
  {
    p.actionStatus == "active" ==>
      && (p.actionType in {"split", "reverse_split"} ==>
            && p.ratioNumerator.Some? && IsPositiveDecimal(p.ratioNumerator.value)
            && p.ratioDenominator.Some? && IsPositiveDecimal(p.ratioDenominator.value)
            && p.cashAmount.None? && p.currency.None?)
      && (p.actionType == "cash_dividend" ==> p.cashAmount.Some? && p.currency.Some? && p.ratioNumerator.None? && p.ratioDenominator.None?)
  }

  predicate ValidActionTimes(v: Version<CorporateAction>)
  {
    var p := v.payload;
    && p.publishedAt != ZERO_TIME && v.availableAt != ZERO_TIME && v.recordedAt != ZERO_TIME
    && p.observedAt != ZERO_TIME && p.effectiveAt != ZERO_TIME && p.ingestedAt != ZERO_TIME
    && p.publishedAt <= v.availableAt <= p.ingestedAt <= v.recordedAt
    && ValidPrecision(p.observedAt, p.observedPrecision) && ValidPrecision(p.publishedAt, p.publishedPrecision)
    && ValidPrecision(p.effectiveAt, p.effectivePrecision)
  }

  predicate ValidAction(v: Version<CorporateAction>)
  {
    var p := v.payload;
    && Nonblank(v.id) && Nonblank(p.securityId) && Nonblank(p.sourceEventId) && Nonblank(p.sourceReference)
    && Nonblank(p.dataSourceId) && Nonblank(p.ingestionRunId)
    && v.revision >= 0 && Manifests.IsLowerHex(p.rawPayloadHash, 64)
    && ValidActionTimes(v)
    && OptionalIs(p.rawRecordLocator, Nonblank) && OptionalIs(p.normalizerVersion, Nonblank)
    && OptionalIs(p.recordDate, IsDate) && OptionalIs(p.paymentDate, IsDate)
    && OptionalIs(p.ratioNumerator, IsPlainDecimal) && OptionalIs(p.ratioDenominator, IsPlainDecimal) && OptionalIs(p.cashAmount, IsPlainDecimal)
    && OptionalIs(p.currency, IsCurrency) && OptionalIs(p.targetSecurityId, Nonblank)
    && p.actionStatus in {"active", "cancelled", "unsupported"}
    && p.actionType in {"split", "reverse_split", "cash_dividend", "stock_dividend", "spinoff", "merger",
                        "acquisition", "delisting", "ticker_change", "exchange_change", "rights_issue", "other"}
    && ValidActionShape(p)
  }

  function ActionKey(v: Version<CorporateAction>): (string, string, int)
  {
    (v.payload.dataSourceId, v.payload.sourceEventId, v.revision)
  }

  predicate ActionsDistinct(actions: seq<Version<CorporateAction>>)
  {
    forall i, j :: 0 <= i < j < |actions| ==> ActionKey(actions[i]) != ActionKey(actions[j])
  }

  predicate All<T>(s: seq<T>, p: T -> bool) { forall i :: 0 <= i < |s| ==> p(s[i]) }

  predicate ValidTruth(zones: set<string>, b: TruthBatch)
  {
    && All(b.identifiers, ValidIdentifier) && All(b.listings, ValidListing) && All(b.memberships, ValidMembership)
    && All(b.actions, ValidAction) && ActionsDistinct(b.actions)
    && Calendars.ValidBatch(zones, b.calendars, b.sessions)
  }

  method CheckAll<T>(s: seq<T>, p: T -> bool) returns (ok: bool)
    ensures ok <==> All(s, p)
  {
    for i := 0 to |s|
      invariant forall j :: 0 <= j < i ==> p(s[j])
    {
      if !p(s[i]) {
        return false;
      }
    }
    return true;
  }

  method CheckActions(actions: seq<Version<CorporateAction>>) returns (ok: bool)
    ensures ok <==> All(actions, ValidAction) && ActionsDistinct(actions)
  {
    hide ValidAction;
    var keys: set<(string, string, int)> := {};
    for i := 0 to |actions|
      invariant forall j :: 0 <= j < i ==> ValidAction(actions[j])
      invariant forall x :: x in keys <==> exists j :: 0 <= j < i && ActionKey(actions[j]) == x
      invariant forall j, l :: 0 <= j < l < i ==> ActionKey(actions[j]) != ActionKey(actions[l])
    {
      if !ValidAction(actions[i]) || ActionKey(actions[i]) in keys {
        return false;
      }
      keys := keys + {ActionKey(actions[i])};
    }
    return true;
  }

  method ValidateTruth(zones: set<string>, b: TruthBatch) returns (ok: bool)
    ensures ok <==> ValidTruth(zones, b)
  {
    hide ValidIdentifier, ValidListing, ValidMembership, ValidAction, Calendars.ValidBatch;
    ok := CheckAll(b.identifiers, ValidIdentifier);
    if !ok {
      return;
    }
    ok := CheckAll(b.listings, ValidListing);
    if !ok {
      return;
    }
    ok := CheckAll(b.memberships, ValidMembership);
    if !ok {
      return;
    }
    ok := CheckActions(b.actions);
    if !ok {
      return;
    }
    ok := Calendars.ValidateBatch(zones, b.calendars, b.sessions);
  }

  // ---------- the tables ----------

  const MAX_INTEGER: int := 0x7FFF_FFFF

  function Whole(t: Option<int>): Option<int> { if t.None? then None else Some(CanonicalTime(t.value)) }

  function WholeInterval(i: Interval): Interval { Interval(CanonicalTime(i.validFrom), Whole(i.validUntil)) }

  /** Half-open ranges share an instant. */
  predicate Overlap(a: Interval, b: Interval)
  {
    (a.validUntil.Some? ==> b.validFrom < a.validUntil.value) && (b.validUntil.Some? ==> a.validFrom < b.validUntil.value)
  }

  predicate RangeFits(i: Interval) { i.validUntil.Some? ==> i.validFrom < i.validUntil.value }

  /** The checks that every versioned table has. */
  predicate VersionFits<P>(v: Version<P>, sourceReference: string, rawPayloadHash: string)
  {
    Nonblank(sourceReference) && Manifests.IsLowerHex(rawPayloadHash, 64) && 0 <= v.revision <= MAX_INTEGER && v.availableAt <= v.recordedAt
  }

  function StoredIdentifier(v: Version<IdentifierVersion>): Version<IdentifierVersion>
  {
    v.(availableAt := CanonicalTime(v.availableAt), recordedAt := CanonicalTime(v.recordedAt),
       payload := v.payload.(interval := WholeInterval(v.payload.interval)))
  }

  predicate IdentifierFits(v: Version<IdentifierVersion>)
  {
    && VersionFits(v, v.payload.sourceReference, v.payload.rawPayloadHash)
    && IsCode(v.payload.identifierType) && Nonblank(v.payload.value) && Nonblank(v.payload.normalizedValue) && Nonblank(v.payload.identifierScope)
    && RangeFits(v.payload.interval)
  }

  predicate IdentifiersClash(a: Version<IdentifierVersion>, b: Version<IdentifierVersion>)
  {
    && a.payload.dataSourceId == b.payload.dataSourceId && a.payload.identifierType == b.payload.identifierType
    && a.payload.identifierScope == b.payload.identifierScope && a.payload.normalizedValue == b.payload.normalizedValue
    && a.revision == b.revision && Overlap(a.payload.interval, b.payload.interval)
  }

  function Identifiers(parents: Parents): Kind<Version<IdentifierVersion>>
  {
    Kind((v: Version<IdentifierVersion>) => v.id, StoredIdentifier, IdentifierFits,
         (v: Version<IdentifierVersion>) => v.payload.securityId in parents.securities && v.payload.dataSourceId in parents.sources,
         IdentifiersClash)
  }

  function StoredListing(v: Version<ListingVersion>): Version<ListingVersion>
  {
    v.(availableAt := CanonicalTime(v.availableAt), recordedAt := CanonicalTime(v.recordedAt),
       payload := v.payload.(interval := WholeInterval(v.payload.interval)))
  }

  predicate ListingFits(v: Version<ListingVersion>)
  {
    && VersionFits(v, v.payload.sourceReference, v.payload.rawPayloadHash)
    && Nonblank(v.payload.exchange) && IsMic(v.payload.mic) && IsCurrency(v.payload.currency)
    && RangeFits(v.payload.interval)
  }

  predicate ListingsClash(a: Version<ListingVersion>, b: Version<ListingVersion>)
  {
    && a.payload.dataSourceId == b.payload.dataSourceId && a.payload.securityId == b.payload.securityId && a.payload.mic == b.payload.mic
    && a.revision == b.revision && Overlap(a.payload.interval, b.payload.interval)
  }

  function Listings(parents: Parents): Kind<Version<ListingVersion>>
  {
    Kind((v: Version<ListingVersion>) => v.id, StoredListing, ListingFits,
         (v: Version<ListingVersion>) =>
           && v.payload.securityId in parents.securities && v.payload.dataSourceId in parents.sources
           && (v.payload.issuerId.Some? ==> v.payload.issuerId.value in parents.issuers),
         ListingsClash)
  }

  function StoredMembership(v: Version<Membership>): Version<Membership>
  {
    v.(availableAt := CanonicalTime(v.availableAt), recordedAt := CanonicalTime(v.recordedAt),
       payload := v.payload.(interval := WholeInterval(v.payload.interval), announcedAt := Whole(v.payload.announcedAt)))
  }

  predicate MembershipFits(v: Version<Membership>)
  {
    && VersionFits(v, v.payload.sourceReference, v.payload.rawPayloadHash)
    && IsCode(v.payload.universeId)
    && RangeFits(v.payload.interval) && (v.payload.announcedAt.Some? ==> v.payload.announcedAt.value <= v.availableAt)
  }

  predicate MembershipsClash(a: Version<Membership>, b: Version<Membership>)
  {
    && a.payload.dataSourceId == b.payload.dataSourceId && a.payload.universeId == b.payload.universeId && a.payload.securityId == b.payload.securityId
    && a.revision == b.revision && Overlap(a.payload.interval, b.payload.interval)
  }

  function Memberships(parents: Parents): Kind<Version<Membership>>
  {
    Kind((v: Version<Membership>) => v.id, StoredMembership, MembershipFits,
         (v: Version<Membership>) => v.payload.securityId in parents.securities && v.payload.dataSourceId in parents.sources,
         MembershipsClash)
  }

  function StoredCalendar(r: Calendars.CalendarManifest): Calendars.CalendarManifest
  {
    r.(availableAt := CanonicalTime(r.availableAt), recordedAt := CanonicalTime(r.recordedAt))
  }

  predicate CalendarFits(r: Calendars.CalendarManifest)
  {
    && IsName(r.calendarVersion) && IsMic(r.mic) && IsAreaZone(r.exchangeTimezone)
    && Nonblank(r.sourceReference) && Manifests.IsLowerHex(r.rawPayloadHash, 64) && r.availableAt <= r.recordedAt
    && 0 <= r.sessionCount <= MAX_INTEGER
  }

  function CalendarKind(parents: Parents): Kind<Calendars.CalendarManifest>
  {
    Kind((r: Calendars.CalendarManifest) => r.id, StoredCalendar, CalendarFits,
         (r: Calendars.CalendarManifest) => r.dataSourceId in parents.sources,
         (a: Calendars.CalendarManifest, b: Calendars.CalendarManifest) => Calendars.KeyOfCalendar(a) == Calendars.KeyOfCalendar(b))
  }

  function StoredSession(r: Calendars.TradingSession): Calendars.TradingSession
  {
    r.(availableAt := CanonicalTime(r.availableAt), recordedAt := CanonicalTime(r.recordedAt), openAt := Whole(r.openAt), closeAt := Whole(r.closeAt))
  }

  predicate SessionFits(r: Calendars.TradingSession)
  {
    && IsName(r.calendarVersion) && IsMic(r.mic) && IsAreaZone(r.exchangeTimezone)
    && Nonblank(r.sourceReference) && Manifests.IsLowerHex(r.rawPayloadHash, 64) && 0 <= r.revision <= MAX_INTEGER && r.availableAt <= r.recordedAt
    && Calendars.ValidStatus(r)
  }

  predicate HasManifest(calendars: Rows<Calendars.CalendarManifest>, r: Calendars.TradingSession)
  {
    exists id | id in calendars :: Calendars.KeyOfCalendar(calendars[id]) == Calendars.KeyOfSession(r) && calendars[id].exchangeTimezone == r.exchangeTimezone
  }

  function SessionKind(parents: Parents, calendars: Rows<Calendars.CalendarManifest>): Kind<Calendars.TradingSession>
  {
    Kind((r: Calendars.TradingSession) => r.id, StoredSession, SessionFits,
         (r: Calendars.TradingSession) => r.dataSourceId in parents.sources && HasManifest(calendars, r),
         (a: Calendars.TradingSession, b: Calendars.TradingSession) =>
           Calendars.KeyOfSession(a) == Calendars.KeyOfSession(b) && a.sessionDate == b.sessionDate && a.revision == b.revision)
  }

  function StoredAction(v: Version<CorporateAction>): Version<CorporateAction>
  {
    var p := v.payload;
    v.(availableAt := CanonicalTime(v.availableAt), recordedAt := CanonicalTime(v.recordedAt),
       payload := p.(observedAt := CanonicalTime(p.observedAt), publishedAt := CanonicalTime(p.publishedAt),
                     effectiveAt := CanonicalTime(p.effectiveAt), ingestedAt := CanonicalTime(p.ingestedAt)))
  }

  predicate ActionFits(v: Version<CorporateAction>)
  {
    var p := v.payload;
    && VersionFits(v, p.sourceReference, p.rawPayloadHash) && Nonblank(p.sourceEventId)
    && p.publishedAt <= v.availableAt <= p.ingestedAt <= v.recordedAt
    && ValidPrecision(p.observedAt, p.observedPrecision) && ValidPrecision(p.publishedAt, p.publishedPrecision)
    && ValidPrecision(p.effectiveAt, p.effectivePrecision)
    && OptionalIs(p.rawRecordLocator, Nonblank) && OptionalIs(p.normalizerVersion, Nonblank)
    && OptionalIs(p.recordDate, IsDate) && OptionalIs(p.paymentDate, IsDate)
    && OptionalIs(p.ratioNumerator, IsPlainDecimal) && OptionalIs(p.ratioDenominator, IsPlainDecimal) && OptionalIs(p.cashAmount, IsPlainDecimal)
    && OptionalIs(p.currency, IsCurrency)
    && p.actionStatus in {"active", "cancelled", "unsupported"}
    && p.actionType in {"split", "reverse_split", "cash_dividend", "stock_dividend", "spinoff", "merger",
                        "acquisition", "delisting", "ticker_change", "exchange_change", "rights_issue", "other"}
    && ValidActionShape(p)
  }

  function Actions(parents: Parents): Kind<Version<CorporateAction>>
  {
    Kind((v: Version<CorporateAction>) => v.id, StoredAction, ActionFits,
         (v: Version<CorporateAction>) =>
           && v.payload.securityId in parents.securities && (v.payload.ingestionRunId, v.payload.dataSourceId) in parents.runs
           && v.payload.dataSourceId in parents.sources
           && (v.payload.targetSecurityId.Some? ==> v.payload.targetSecurityId.value in parents.securities),
         (a: Version<CorporateAction>, b: Version<CorporateAction>) => ActionKey(a) == ActionKey(b))
  }

  // ---------- what validation leaves to the columns ----------

  /** The two instants fall into different microseconds. */
  predicate SpansMicrosecond(i: Interval) { i.validUntil.Some? ==> CanonicalTime(i.validFrom) < CanonicalTime(i.validUntil.value) }

  lemma IdentifierFitsIff(v: Version<IdentifierVersion>)
    requires ValidIdentifier(v)
    ensures IdentifierFits(StoredIdentifier(v)) <==> IsCode(v.payload.identifierType) && v.revision <= MAX_INTEGER && SpansMicrosecond(v.payload.interval)
  {
    hide Nonblank, Manifests.IsLowerHex, IsCode, CanonicalTime;
    CanonicalMonotone(v.availableAt, v.recordedAt);
    SourceNonblank(v.id, v.payload.dataSourceId, v.payload.sourceReference, v.payload.rawPayloadHash, v.revision, v.availableAt, v.recordedAt);
  }

  lemma SourceNonblank(id: string, dataSourceId: string, sourceReference: string, rawHash: string, revision: int, availableAt: int, recordedAt: int)
    requires Calendars.ValidCommon(id, dataSourceId, sourceReference, rawHash, revision, availableAt, recordedAt)
    ensures Nonblank(sourceReference) && revision >= 0 && availableAt <= recordedAt
  {
  }

  lemma ListingFitsIff(v: Version<ListingVersion>)
    requires ValidListing(v)
    ensures ListingFits(StoredListing(v)) <==>
              IsMic(v.payload.mic) && IsCurrency(v.payload.currency) && v.revision <= MAX_INTEGER && SpansMicrosecond(v.payload.interval)
  {
    hide Nonblank, Manifests.IsLowerHex, IsMic, IsCurrency, CanonicalTime;
    CanonicalMonotone(v.availableAt, v.recordedAt);
    SourceNonblank(v.id, v.payload.dataSourceId, v.payload.sourceReference, v.payload.rawPayloadHash, v.revision, v.availableAt, v.recordedAt);
  }

  lemma MembershipFitsIff(v: Version<Membership>)
    requires ValidMembership(v)
    ensures MembershipFits(StoredMembership(v)) <==> IsCode(v.payload.universeId) && v.revision <= MAX_INTEGER && SpansMicrosecond(v.payload.interval)
  {
    hide Nonblank, Manifests.IsLowerHex, IsCode, CanonicalTime;
    CanonicalMonotone(v.availableAt, v.recordedAt);
    if v.payload.announcedAt.Some? {
      CanonicalMonotone(v.payload.announcedAt.value, v.availableAt);
    }
    SourceNonblank(v.id, v.payload.dataSourceId, v.payload.sourceReference, v.payload.rawPayloadHash, v.revision, v.availableAt, v.recordedAt);
  }

  lemma ActionFitsIff(v: Version<CorporateAction>)
    requires ValidAction(v)
    ensures ActionFits(StoredAction(v)) <==> v.revision <= MAX_INTEGER
  {
    hide Nonblank, Manifests.IsLowerHex, CanonicalTime, OptionalIs, ValidActionShape;
    var p := v.payload;
    CanonicalMonotone(p.publishedAt, v.availableAt);
    CanonicalMonotone(v.availableAt, p.ingestedAt);
    CanonicalMonotone(p.ingestedAt, v.recordedAt);
    CanonicalTwice(p.observedAt);
    CanonicalTwice(p.publishedAt);
    CanonicalTwice(p.effectiveAt);
    SameShape(v);
  }

  lemma SameShape(v: Version<CorporateAction>)
    ensures ValidActionShape(StoredAction(v).payload) <==> ValidActionShape(v.payload)
  {
  }

  // ---------- the transaction ----------

  datatype Tables = Tables(
    identifiers: Rows<Version<IdentifierVersion>>, listings: Rows<Version<ListingVersion>>, memberships: Rows<Version<Membership>>,
    calendars: Rows<Calendars.CalendarManifest>, sessions: Rows<Calendars.TradingSession>, actions: Rows<Version<CorporateAction>>)

  const EMPTY := Tables(map[], map[], map[], map[], map[], map[])

  function Joined(identifiers: Option<Rows<Version<IdentifierVersion>>>, listings: Option<Rows<Version<ListingVersion>>>,
                  memberships: Option<Rows<Version<Membership>>>, calendars: Option<Rows<Calendars.CalendarManifest>>,
                  sessions: Option<Rows<Calendars.TradingSession>>, actions: Option<Rows<Version<CorporateAction>>>): Option<Tables>
  {
    if identifiers.None? || listings.None? || memberships.None? || calendars.None? || sessions.None? || actions.None? then None
    else Some(Tables(identifiers.value, listings.value, memberships.value, calendars.value, sessions.value, actions.value))
  }

  function CalendarsAfter(parents: Parents, t: Tables, b: TruthBatch): Rows<Calendars.CalendarManifest>
  {
    var calendars := InsertAll(CalendarKind(parents), t.calendars, b.calendars);
    if calendars.Some? then calendars.value else t.calendars
  }

  /** The tables after the statements of a batch, none of them failing. */
  function InsertTruth(parents: Parents, t: Tables, b: TruthBatch): Option<Tables>
  {
    Joined(InsertAll(Identifiers(parents), t.identifiers, b.identifiers), InsertAll(Listings(parents), t.listings, b.listings),
           InsertAll(Memberships(parents), t.memberships, b.memberships), InsertAll(CalendarKind(parents), t.calendars, b.calendars),
           InsertAll(SessionKind(parents, CalendarsAfter(parents, t, b)), t.sessions, b.sessions), InsertAll(Actions(parents), t.actions, b.actions))
  }

  /** One call of PublishHistoricalTruth. */
  function PublishTruth(zones: set<string>, parents: Parents, t: Tables, b: TruthBatch): Option<Tables>
  {
    if ValidTruth(zones, b) then InsertTruth(parents, t, b) else None
  }

  ghost predicate AdmitsTruth(parents: Parents, t: Tables, b: TruthBatch)
  {
    && Admits(Identifiers(parents), t.identifiers, b.identifiers) && Admits(Listings(parents), t.listings, b.listings)
    && Admits(Memberships(parents), t.memberships, b.memberships) && Admits(CalendarKind(parents), t.calendars, b.calendars)
    && Admits(SessionKind(parents, CalendarsAfter(parents, t, b)), t.sessions, b.sessions) && Admits(Actions(parents), t.actions, b.actions)
  }

  ghost predicate GrownTruth(t: Tables, b: TruthBatch, after: Tables)
  {
    && Grown(Identifiers(NOBODY), t.identifiers, b.identifiers, after.identifiers) && Grown(Listings(NOBODY), t.listings, b.listings, after.listings)
    && Grown(Memberships(NOBODY), t.memberships, b.memberships, after.memberships) && Grown(CalendarKind(NOBODY), t.calendars, b.calendars, after.calendars)
    && Grown(SessionKind(NOBODY, map[]), t.sessions, b.sessions, after.sessions) && Grown(Actions(NOBODY), t.actions, b.actions, after.actions)
  }

  lemma KindsSymmetric(parents: Parents, calendars: Rows<Calendars.CalendarManifest>)
    ensures Symmetric(Identifiers(parents)) && Symmetric(Listings(parents)) && Symmetric(Memberships(parents))
    ensures Symmetric(CalendarKind(parents)) && Symmetric(SessionKind(parents, calendars)) && Symmetric(Actions(parents))
  {
  }

  lemma SameIdsGrown<R>(k: Kind<R>, other: Kind<R>, rows: Rows<R>, batch: seq<R>, after: Rows<R>)
    requires Grown(k, rows, batch, after) && other.id == k.id
    ensures Grown(other, rows, batch, after)
  {
  }

  /**
   A batch is published exactly when it is valid and, table by table, no identifier
   would change its content, every new row meets its column checks and references, and
   no new row overlaps or repeats a stored or new one; then rows are only added.
   */
  lemma PublishedIffAdmitted(zones: set<string>, parents: Parents, t: Tables, b: TruthBatch)
    ensures PublishTruth(zones, parents, t, b).Some? <==> ValidTruth(zones, b) && AdmitsTruth(parents, t, b)
    ensures PublishTruth(zones, parents, t, b).Some? ==> GrownTruth(t, b, PublishTruth(zones, parents, t, b).value)
  {
    hide InsertAll, Admits, Grown, Symmetric, ValidTruth, Identifiers, Listings, Memberships, CalendarKind, SessionKind, Actions, CalendarsAfter;
    var calendars := CalendarsAfter(parents, t, b);
    KindsSymmetric(parents, calendars);
    InsertsIffAdmitted(Identifiers(parents), t.identifiers, b.identifiers);
    InsertsIffAdmitted(Listings(parents), t.listings, b.listings);
    InsertsIffAdmitted(Memberships(parents), t.memberships, b.memberships);
    InsertsIffAdmitted(CalendarKind(parents), t.calendars, b.calendars);
    InsertsIffAdmitted(SessionKind(parents, calendars), t.sessions, b.sessions);
    InsertsIffAdmitted(Actions(parents), t.actions, b.actions);
    if PublishTruth(zones, parents, t, b).Some? {
      GrownWhole(parents, calendars, t, b, PublishTruth(zones, parents, t, b).value);
    }
  }

  lemma GrownWhole(parents: Parents, calendars: Rows<Calendars.CalendarManifest>, t: Tables, b: TruthBatch, after: Tables)
    requires Grown(Identifiers(parents), t.identifiers, b.identifiers, after.identifiers) && Grown(Listings(parents), t.listings, b.listings, after.listings)
    requires Grown(Memberships(parents), t.memberships, b.memberships, after.memberships) && Grown(CalendarKind(parents), t.calendars, b.calendars, after.calendars)
    requires Grown(SessionKind(parents, calendars), t.sessions, b.sessions, after.sessions) && Grown(Actions(parents), t.actions, b.actions, after.actions)
    ensures GrownTruth(t, b, after)
  {
    assert Identifiers(NOBODY).id == Identifiers(parents).id && Listings(NOBODY).id == Listings(parents).id && Memberships(NOBODY).id == Memberships(parents).id;
    assert CalendarKind(NOBODY).id == CalendarKind(parents).id && SessionKind(NOBODY, map[]).id == SessionKind(parents, calendars).id && Actions(NOBODY).id == Actions(parents).id;
    hide Grown, Identifiers, Listings, Memberships, CalendarKind, SessionKind, Actions;
    SameIdsGrown(Identifiers(parents), Identifiers(NOBODY), t.identifiers, b.identifiers, after.identifiers);
    SameIdsGrown(Listings(parents), Listings(NOBODY), t.listings, b.listings, after.listings);
    SameIdsGrown(Memberships(parents), Memberships(NOBODY), t.memberships, b.memberships, after.memberships);
    SameIdsGrown(CalendarKind(parents), CalendarKind(NOBODY), t.calendars, b.calendars, after.calendars);
    SameIdsGrown(SessionKind(parents, calendars), SessionKind(NOBODY, map[]), t.sessions, b.sessions, after.sessions);
    SameIdsGrown(Actions(parents), Actions(NOBODY), t.actions, b.actions, after.actions);
  }

  /** A valid batch brings the manifest of every session along, so that reference never fails. */
  lemma ManifestComesAlong(zones: set<string>, parents: Parents, t: Tables, b: TruthBatch, i: nat)
    requires Calendars.ValidBatch(zones, b.calendars, b.sessions) && i < |b.sessions|
    requires InsertAll(CalendarKind(parents), t.calendars, b.calendars).Some?
    ensures HasManifest(CalendarsAfter(parents, t, b), StoredSession(b.sessions[i]))
  {
    hide InsertAll, Calendars.ValidSession, Calendars.ValidCalendar, Calendars.Accounted;
    KindsSymmetric(parents, map[]);
    InsertsIffAdmitted(CalendarKind(parents), t.calendars, b.calendars);
    assert Calendars.HasCalendar(b.calendars, b.sessions[i]);
    var j :| 0 <= j < |b.calendars| && Calendars.KeyOfCalendar(b.calendars[j]) == Calendars.KeyOfSession(b.sessions[i]) && b.calendars[j].exchangeTimezone == b.sessions[i].exchangeTimezone;
    var after := CalendarsAfter(parents, t, b);
    assert b.calendars[j].id in after && after[b.calendars[j].id] == b.calendars[j];
  }

  /** Publishing a published batch again, however much was published since, succeeds and changes nothing. */
  lemma ReplayIsNoOp(zones: set<string>, parents: Parents, t: Tables, b: TruthBatch, later: Parents, now: Tables)
    requires PublishTruth(zones, parents, t, b).Some? && Extends(PublishTruth(zones, parents, t, b).value, now)
    ensures PublishTruth(zones, later, now, b) == Some(now)
  {
    var after := PublishTruth(zones, parents, t, b).value;
    KindsSymmetric(parents, CalendarsAfter(parents, t, b));
    hide InsertAll, Symmetric, ValidTruth, CalendarsAfter;
    ReplayChangesNothing(Identifiers(parents), Identifiers(later), t.identifiers, b.identifiers, now.identifiers);
    ReplayChangesNothing(Listings(parents), Listings(later), t.listings, b.listings, now.listings);
    ReplayChangesNothing(Memberships(parents), Memberships(later), t.memberships, b.memberships, now.memberships);
    ReplayChangesNothing(CalendarKind(parents), CalendarKind(later), t.calendars, b.calendars, now.calendars);
    ReplayChangesNothing(SessionKind(parents, CalendarsAfter(parents, t, b)), SessionKind(later, CalendarsAfter(later, now, b)), t.sessions, b.sessions, now.sessions);
    ReplayChangesNothing(Actions(parents), Actions(later), t.actions, b.actions, now.actions);
  }

  ghost predicate ExtendsRows<R>(rows: Rows<R>, now: Rows<R>) { forall id :: id in rows ==> id in now && now[id] == rows[id] }

  /** Everything stored before is stored now. */
  ghost predicate Extends(t: Tables, now: Tables)
  {
    && ExtendsRows(t.identifiers, now.identifiers) && ExtendsRows(t.listings, now.listings) && ExtendsRows(t.memberships, now.memberships)
    && ExtendsRows(t.calendars, now.calendars) && ExtendsRows(t.sessions, now.sessions) && ExtendsRows(t.actions, now.actions)
  }

  /** Only calendars of a zone named area and place can be stored, although compilation and validation take any zone that loads. */
  lemma StoredZonesHaveAreas(zones: set<string>, parents: Parents, t: Tables, b: TruthBatch, i: nat)
    requires SettledTables(t) && PublishTruth(zones, parents, t, b).Some? && i < |b.calendars|
    ensures IsAreaZone(b.calendars[i].exchangeTimezone)
  {
    PublishKeepsSettled(zones, parents, t, b);
    PublishedIffAdmitted(zones, parents, t, b);
    hide PublishTruth, ValidTruth, InsertAll, Identifiers, Listings, Memberships, SessionKind, Actions, IsAreaZone, IsName, IsMic, Nonblank;
    var after := PublishTruth(zones, parents, t, b).value;
    assert b.calendars[i].id in after.calendars && after.calendars[b.calendars[i].id] == b.calendars[i];
    assert CalendarFits(StoredCalendar(after.calendars[b.calendars[i].id]));
  }

  /** The universal zone loads but is not named so. */
  lemma UniversalHasNoArea()
    ensures Calendars.LoadsLocation({}, "UTC") && !IsAreaZone("UTC")
  {
  }

  // ---------- what every reachable state keeps ----------

  /** Identifiers match, columns fit, and nothing overlaps or repeats. */
  ghost predicate SettledTables(t: Tables)
  {
    && Settled(Identifiers(NOBODY), t.identifiers) && Settled(Listings(NOBODY), t.listings)
    && Settled(Memberships(NOBODY), t.memberships) && Settled(CalendarKind(NOBODY), t.calendars)
    && Settled(SessionKind(NOBODY, map[]), t.sessions) && Settled(Actions(NOBODY), t.actions)
  }

  /** Two descriptions of one table: they may differ in the references that hold. */
  ghost predicate SameTable<R>(k: Kind<R>, other: Kind<R>)
  {
    other.id == k.id && other.stored == k.stored && other.fits == k.fits && other.clash == k.clash
  }

  lemma ParentsAside(parents: Parents, calendars: Rows<Calendars.CalendarManifest>)
    ensures SameTable(Identifiers(parents), Identifiers(NOBODY)) && SameTable(Listings(parents), Listings(NOBODY))
    ensures SameTable(Memberships(parents), Memberships(NOBODY)) && SameTable(CalendarKind(parents), CalendarKind(NOBODY))
    ensures SameTable(SessionKind(parents, calendars), SessionKind(NOBODY, map[])) && SameTable(Actions(parents), Actions(NOBODY))
  {
  }

  lemma SettledAnyway<R>(k: Kind<R>, other: Kind<R>, rows: Rows<R>)
    requires SameTable(k, other)
    ensures Settled(k, rows) <==> Settled(other, rows)
  {
  }

  lemma StepKeepsSettled<R(!new)>(k: Kind<R>, base: Kind<R>, rows: Rows<R>, batch: seq<R>)
    requires Symmetric(k) && Settled(base, rows) && InsertAll(k, rows, batch).Some? && SameTable(k, base)
    ensures Settled(base, InsertAll(k, rows, batch).value)
  {
    hide InsertAll, Settled, Symmetric, SameTable;
    SettledAnyway(k, base, rows);
    InsertsKeepSettled(k, rows, batch);
    SettledAnyway(k, base, InsertAll(k, rows, batch).value);
  }

  lemma PublishKeepsSettled(zones: set<string>, parents: Parents, t: Tables, b: TruthBatch)
    requires SettledTables(t) && PublishTruth(zones, parents, t, b).Some?
    ensures SettledTables(PublishTruth(zones, parents, t, b).value)
  {
    hide InsertAll, Settled, Symmetric, SameTable, ValidTruth, CalendarsAfter, Identifiers, Listings, Memberships, CalendarKind, SessionKind, Actions;
    var calendars := CalendarsAfter(parents, t, b);
    KindsSymmetric(parents, calendars);
    ParentsAside(parents, calendars);
    StepKeepsSettled(Identifiers(parents), Identifiers(NOBODY), t.identifiers, b.identifiers);
    StepKeepsSettled(Listings(parents), Listings(NOBODY), t.listings, b.listings);
    StepKeepsSettled(Memberships(parents), Memberships(NOBODY), t.memberships, b.memberships);
    StepKeepsSettled(CalendarKind(parents), CalendarKind(NOBODY), t.calendars, b.calendars);
    StepKeepsSettled(SessionKind(parents, calendars), SessionKind(NOBODY, map[]), t.sessions, b.sessions);
    StepKeepsSettled(Actions(parents), Actions(NOBODY), t.actions, b.actions);
  }

  lemma PublishExtends(zones: set<string>, parents: Parents, t: Tables, b: TruthBatch)
    requires PublishTruth(zones, parents, t, b).Some?
    ensures Extends(t, PublishTruth(zones, parents, t, b).value)
  {
    hide PublishTruth, Grown, ExtendsRows, Identifiers, Listings, Memberships, CalendarKind, SessionKind, Actions, AdmitsTruth, ValidTruth;
    PublishedIffAdmitted(zones, parents, t, b);
    var after := PublishTruth(zones, parents, t, b).value;
    GrownExtends(Identifiers(NOBODY), t.identifiers, b.identifiers, after.identifiers);
    GrownExtends(Listings(NOBODY), t.listings, b.listings, after.listings);
    GrownExtends(Memberships(NOBODY), t.memberships, b.memberships, after.memberships);
    GrownExtends(CalendarKind(NOBODY), t.calendars, b.calendars, after.calendars);
    GrownExtends(SessionKind(NOBODY, map[]), t.sessions, b.sessions, after.sessions);
    GrownExtends(Actions(NOBODY), t.actions, b.actions, after.actions);
  }

  lemma GrownExtends<R>(k: Kind<R>, rows: Rows<R>, batch: seq<R>, after: Rows<R>)
    requires Grown(k, rows, batch, after)
    ensures ExtendsRows(rows, after)
  {
  }

  /** One publication of a history, with the parent rows there are at that time. */
  datatype Publication = Publication(parents: Parents, batch: TruthBatch)

  function TablesAfter(zones: set<string>, history: seq<Publication>): Tables
  {
    if history == [] then EMPTY
    else
      var before, last := TablesAfter(zones, history[..|history| - 1]), history[|history| - 1];
      var after := PublishTruth(zones, last.parents, before, last.batch);
      if after.Some? then after.value else before
  }

  lemma {:induction false} HistoriesSettle(zones: set<string>, history: seq<Publication>)
    ensures SettledTables(TablesAfter(zones, history))
    decreases |history|
  {
    hide PublishTruth;
    if history == [] {
      assert SettledTables(EMPTY);
    } else {
      hide SettledTables;
      var before, last := TablesAfter(zones, history[..|history| - 1]), history[|history| - 1];
      HistoriesSettle(zones, history[..|history| - 1]);
      if PublishTruth(zones, last.parents, before, last.batch).Some? {
        PublishKeepsSettled(zones, last.parents, before, last.batch);
      }
    }
  }

  // ---------- reading what was published ----------

  /** No two equal-ranked rows of a family, or valid rows of a group, get past the constraint of their table. */
  lemma SettledNeverTies<P(!new), F, I, G, V>(k: Kind<Version<P>>, rows: Rows<Version<P>>, fam: Contest<P, F, I>, c: Contest<P, G, V>, records: seq<Version<P>>, where_: Version<P> -> bool, eligible: Version<P> -> bool)
    requires Settled(k, rows) && Lists(k, rows, where_, records)
    requires forall v, w :: v in records && w in records && v.revision == w.revision && fam.group(v) == fam.group(w) ==> k.clash(v, w)
    requires forall v, w :: v in records && w in records && v.revision == w.revision && eligible(v) && eligible(w) && c.group(v) == c.group(w) ==> k.clash(v, w)
    ensures NoTies(fam, records) && NoCandidateTies(fam, c, records, eligible)
  {
    forall v, w | v in records && w in records && k.clash(v, w) ensures v == w {
      var a :| a in rows && k.stored(rows[a]) == v;
      var b :| b in rows && k.stored(rows[b]) == w;
    }
    hide Settled, Lists;
    forall v, w ensures !CandidateTie(fam, c, records, eligible, v, w) {
    }
  }

  lemma Touching(a: Interval, b: Interval, at: int)
    requires a.Contains(at) && b.Contains(at)
    ensures Overlap(a, b)
  {
  }

  lemma SameStart(a: Interval, b: Interval)
    requires RangeFits(a) && RangeFits(b) && a.validFrom == b.validFrom
    ensures Overlap(a, b)
  {
  }

  function IdentifierQuery(dataSourceId: string, identifierType: string, value: string, scope: string, decisionAt: int): Version<IdentifierVersion> -> bool
  {
    (v: Version<IdentifierVersion>) =>
      && v.payload.dataSourceId == dataSourceId && v.payload.identifierType == identifierType
      && v.payload.normalizedValue == value && v.payload.identifierScope == scope && v.availableAt <= decisionAt
  }

  lemma ListedFits<R(!new)>(k: Kind<R>, rows: Rows<R>, where_: R -> bool, records: seq<R>, v: R)
    requires Settled(k, rows) && Lists(k, rows, where_, records) && v in records
    ensures k.fits(v) && where_(v)
  {
  }

  /** Published identifiers never tie: every order of every walk succeeds, with one answer. */
  lemma IdentifiersNeverTie(t: Tables, dataSourceId: string, identifierType: string, value: string, scope: string, asOf: int, decisionAt: int, records: seq<Version<IdentifierVersion>>)
    requires SettledTables(t)
    requires Lists(Identifiers(NOBODY), t.identifiers, IdentifierQuery(dataSourceId, identifierType, value, scope, decisionAt), records)
    ensures DistinctIds(records) && NoTies(IdentifierFamilies(), records)
    ensures NoCandidateTies(IdentifierFamilies(), IdentifierWinner(), records, IdentifierValidAt(asOf))
  {
    var k, q := Identifiers(NOBODY), IdentifierQuery(dataSourceId, identifierType, value, scope, decisionAt);
    forall v | v in records ensures RangeFits(v.payload.interval) && q(v) {
      ListedFits(k, t.identifiers, q, records, v);
    }
    forall v, w | v in records && w in records && v.revision == w.revision && FamilyOfIdentifier(v.payload) == FamilyOfIdentifier(w.payload) ensures k.clash(v, w) {
      SameStart(v.payload.interval, w.payload.interval);
    }
    forall v, w | v in records && w in records && v.revision == w.revision && v.payload.interval.Contains(asOf) && w.payload.interval.Contains(asOf) ensures k.clash(v, w) {
      Touching(v.payload.interval, w.payload.interval, asOf);
    }
    hide Settled, Overlap, RangeFits;
    SettledNeverTies(k, t.identifiers, IdentifierFamilies(), IdentifierWinner(), records, q, IdentifierValidAt(asOf));
    assert DistinctIds(records);
  }

  function ListingQuery(dataSourceId: string, securityId: string, mic: string, decisionAt: int): Version<ListingVersion> -> bool
  {
    (v: Version<ListingVersion>) =>
      v.payload.dataSourceId == dataSourceId && v.payload.securityId == securityId && v.payload.mic == mic && v.availableAt <= decisionAt
  }

  lemma ListingsNeverTie(t: Tables, dataSourceId: string, securityId: string, mic: string, asOf: int, decisionAt: int, records: seq<Version<ListingVersion>>)
    requires SettledTables(t)
    requires Lists(Listings(NOBODY), t.listings, ListingQuery(dataSourceId, securityId, mic, decisionAt), records)
    ensures DistinctIds(records) && NoTies(ListingFamilies(), records)
    ensures NoCandidateTies(ListingFamilies(), ListingWinner(), records, ListingValidAt(asOf))
  {
    var k, q := Listings(NOBODY), ListingQuery(dataSourceId, securityId, mic, decisionAt);
    forall v | v in records ensures RangeFits(v.payload.interval) && q(v) {
      ListedFits(k, t.listings, q, records, v);
    }
    forall v, w | v in records && w in records && v.revision == w.revision && v.payload.interval.validFrom == w.payload.interval.validFrom ensures k.clash(v, w) {
      SameStart(v.payload.interval, w.payload.interval);
    }
    forall v, w | v in records && w in records && v.revision == w.revision && v.payload.interval.Contains(asOf) && w.payload.interval.Contains(asOf) ensures k.clash(v, w) {
      Touching(v.payload.interval, w.payload.interval, asOf);
    }
    hide Settled, Overlap, RangeFits;
    SettledNeverTies(k, t.listings, ListingFamilies(), ListingWinner(), records, q, ListingValidAt(asOf));
    assert DistinctIds(records);
  }

  function UniverseQuery(dataSourceId: string, universeId: string, decisionAt: int): Version<Membership> -> bool
  {
    (v: Version<Membership>) => v.payload.dataSourceId == dataSourceId && v.payload.universeId == universeId && v.availableAt <= decisionAt
  }

  lemma MembershipsNeverTie(t: Tables, dataSourceId: string, universeId: string, asOf: int, decisionAt: int, records: seq<Version<Membership>>)
    requires SettledTables(t)
    requires Lists(Memberships(NOBODY), t.memberships, UniverseQuery(dataSourceId, universeId, decisionAt), records)
    ensures DistinctIds(records) && NoTies(MembershipFamilies(), records)
    ensures NoCandidateTies(MembershipFamilies(), MembershipWinner(), records, ValidAt(asOf))
  {
    var k, q := Memberships(NOBODY), UniverseQuery(dataSourceId, universeId, decisionAt);
    forall v | v in records ensures RangeFits(v.payload.interval) && q(v) {
      ListedFits(k, t.memberships, q, records, v);
    }
    forall v, w | v in records && w in records && v.revision == w.revision && FamilyOfMembership(v.payload) == FamilyOfMembership(w.payload) ensures k.clash(v, w) {
      SameStart(v.payload.interval, w.payload.interval);
    }
    forall v, w | v in records && w in records && v.revision == w.revision && v.payload.securityId == w.payload.securityId
                  && v.payload.interval.Contains(asOf) && w.payload.interval.Contains(asOf) ensures k.clash(v, w) {
      Touching(v.payload.interval, w.payload.interval, asOf);
    }
    hide Settled, Overlap, RangeFits;
    SettledNeverTies(k, t.memberships, MembershipFamilies(), MembershipWinner(), records, q, ValidAt(asOf));
    assert DistinctIds(records);
  }

  function ActionQuery(dataSourceId: string, securityId: string, decisionAt: int): Version<CorporateAction> -> bool
  {
    (v: Version<CorporateAction>) => v.payload.dataSourceId == dataSourceId && v.payload.securityId == securityId && v.availableAt <= decisionAt
  }

  lemma ActionsNeverTie(t: Tables, dataSourceId: string, securityId: string, decisionAt: int, records: seq<Version<CorporateAction>>)
    requires SettledTables(t)
    requires Lists(Actions(NOBODY), t.actions, ActionQuery(dataSourceId, securityId, decisionAt), records)
    ensures DistinctIds(records) && NoTies(ActionFamilies(), records)
  {
    var k, q := Actions(NOBODY), ActionQuery(dataSourceId, securityId, decisionAt);
    forall v | v in records ensures q(v) {
      ListedFits(k, t.actions, q, records, v);
    }
    hide Settled;
    SettledNeverTies(k, t.actions, ActionFamilies(), ActionFamilies(), records, q, (v: Version<CorporateAction>) => false);
    assert DistinctIds(records);
  }

  // ---------- any order of a query names the same winners ----------

  lemma HolderMoves<P, G, V>(c: Contest<P, G, V>, a: seq<Version<P>>, b: seq<Version<P>>, v: Version<P>)
    requires forall x :: x in a <==> x in b
    ensures Holder(c, a, v) <==> Holder(c, b, v)
  {
    hide Beats;
  }

  lemma SelectedMoves<P(!new), F, I, G, V>(fam: Contest<P, F, I>, c: Contest<P, G, V>, a: seq<Version<P>>, b: seq<Version<P>>, eligible: Version<P> -> bool, v: Version<P>)
    requires forall x :: x in a <==> x in b
    ensures Selected(fam, c, a, eligible, v) <==> Selected(fam, c, b, eligible, v)
  {
    hide Holder, Beats;
    forall x ensures Holder(fam, a, x) <==> Holder(fam, b, x) {
      HolderMoves(fam, a, b, x);
    }
  }

  lemma SameListing<R(!new)>(k: Kind<R>, rows: Rows<R>, where_: R -> bool, a: seq<R>, b: seq<R>)
    requires Lists(k, rows, where_, a) && Lists(k, rows, where_, b)
    ensures forall x :: x in a <==> x in b
  {
  }

  lemma InUniverseMoves(a: seq<Version<Membership>>, b: seq<Version<Membership>>, asOf: int, s: string)
    requires forall x :: x in a <==> x in b
    ensures InUniverse(a, asOf, s) <==> InUniverse(b, asOf, s)
  {
    hide Selected;
    forall v ensures Selected(MembershipFamilies(), MembershipWinner(), a, ValidAt(asOf), v) <==> Selected(MembershipFamilies(), MembershipWinner(), b, ValidAt(asOf), v) {
      SelectedMoves(MembershipFamilies(), MembershipWinner(), a, b, ValidAt(asOf), v);
    }
  }

  /** Whoever lists the rows, the selected version is this one, or there is none valid. */
  ghost predicate Resolves<P(!new), F, I, V>(k: Kind<Version<P>>, rows: Rows<Version<P>>, q: Version<P> -> bool, fam: Contest<P, F, I>, c: Contest<P, (), V>, eligible: Version<P> -> bool, found: Option<Version<P>>)
  {
    forall records :: Lists(k, rows, q, records) ==>
      && (found.None? <==> forall v :: !Candidate(fam, records, eligible, v))
      && (found.Some? ==> Selected(fam, c, records, eligible, found.value))
  }

  lemma ResolvesForAll<P(!new), F, I, V>(k: Kind<Version<P>>, rows: Rows<Version<P>>, q: Version<P> -> bool, fam: Contest<P, F, I>, c: Contest<P, (), V>, eligible: Version<P> -> bool, found: Option<Version<P>>, records: seq<Version<P>>)
    requires Lists(k, rows, q, records)
    requires found.None? <==> forall v :: !Candidate(fam, records, eligible, v)
    requires found.Some? ==> Selected(fam, c, records, eligible, found.value)
    ensures Resolves(k, rows, q, fam, c, eligible, found)
  {
    hide Lists, Selected, Holder;
    forall other | Lists(k, rows, q, other)
      ensures found.None? <==> forall v :: !Candidate(fam, other, eligible, v)
      ensures found.Some? ==> Selected(fam, c, other, eligible, found.value)
    {
      SameListing(k, rows, q, records, other);
      if found.Some? {
        SelectedMoves(fam, c, records, other, eligible, found.value);
      }
      forall v ensures Candidate(fam, records, eligible, v) <==> Candidate(fam, other, eligible, v) {
        HolderMoves(fam, records, other, v);
      }
    }
  }

  /** The database as its only writer and its readers see it. */
  class TruthStore {
    var tables: Tables

    ghost predicate Valid() reads this { SettledTables(tables) }

    constructor ()
      ensures Valid() && tables == EMPTY
    {
      tables := EMPTY;
      new;
      assert SettledTables(EMPTY);
    }

    /** One transaction; the connection is lost after `left` statements, if there are so many. */
    method PublishHistoricalTruth(zones: set<string>, parents: Parents, b: TruthBatch, left: nat) returns (ok: bool)
      requires Valid()
      modifies this
      ensures Valid()
      ensures ok <==> left >= |b.identifiers| + |b.listings| + |b.memberships| + |b.calendars| + |b.sessions| + |b.actions| &&
                      PublishTruth(zones, parents, old(tables), b).Some?
      ensures ok ==> Some(tables) == PublishTruth(zones, parents, old(tables), b)
      ensures !ok ==> tables == old(tables)
    {
      hide ValidTruth, SettledTables, InsertAll, Identifiers, Listings, Memberships, CalendarKind, SessionKind, Actions;
      var valid := ValidateTruth(zones, b);
      if !valid {
        return false;
      }
      var rest: int := left;
      var identifiers := InsertRows(Identifiers(parents), tables.identifiers, b.identifiers, rest);
      if identifiers.None? {
        return false;
      }
      rest := rest - |b.identifiers|;
      var listings := InsertRows(Listings(parents), tables.listings, b.listings, rest);
      if listings.None? {
        return false;
      }
      rest := rest - |b.listings|;
      var memberships := InsertRows(Memberships(parents), tables.memberships, b.memberships, rest);
      if memberships.None? {
        return false;
      }
      rest := rest - |b.memberships|;
      var calendars := InsertRows(CalendarKind(parents), tables.calendars, b.calendars, rest);
      if calendars.None? {
        return false;
      }
      rest := rest - |b.calendars|;
      var sessions := InsertRows(SessionKind(parents, calendars.value), tables.sessions, b.sessions, rest);
      if sessions.None? {
        return false;
      }
      rest := rest - |b.sessions|;
      var actions := InsertRows(Actions(parents), tables.actions, b.actions, rest);
      if actions.None? {
        return false;
      }
      PublishKeepsSettled(zones, parents, tables, b);
      tables := Tables(identifiers.value, listings.value, memberships.value, calendars.value, sessions.value, actions.value);
      return true;
    }

    /** The identifier valid at `asOf` by what was known at `decisionAt`; published rows never make it fail. */
    method ResolveSecurityIdentifier(dataSourceId: string, identifierType: string, value: string, scope: string, asOf: int, decisionAt: int)
      returns (r: Option<Option<Version<IdentifierVersion>>>)
      requires Valid()
      ensures r.Some?
      ensures Resolves(Identifiers(NOBODY), tables.identifiers,
                       IdentifierQuery(dataSourceId, Calendars.Lower(Text.TrimSpace(identifierType)), Calendars.Upper(Text.TrimSpace(value)), Calendars.Upper(Text.TrimSpace(scope)), decisionAt),
                       IdentifierFamilies(), IdentifierWinner(), IdentifierValidAt(asOf), r.value)
    {
      hide Selected, Candidate, NoTies, NoCandidateTies, Settled, Lists, Resolves;
      var kind, name := Calendars.Lower(Text.TrimSpace(identifierType)), Calendars.Upper(Text.TrimSpace(value));
      var where_ := Calendars.Upper(Text.TrimSpace(scope));
      var q := IdentifierQuery(dataSourceId, kind, name, where_, decisionAt);
      IdsStored(tables);
      var records := Select(Identifiers(NOBODY), tables.identifiers, q);
      IdentifiersNeverTie(tables, dataSourceId, kind, name, where_, asOf, decisionAt, records);
      r := SelectIdentifierRevision(records, asOf);
      ResolvesForAll(Identifiers(NOBODY), tables.identifiers, q, IdentifierFamilies(), IdentifierWinner(), IdentifierValidAt(asOf), r.value, records);
    }

    method ResolveSecurityListing(dataSourceId: string, securityId: string, mic: string, asOf: int, decisionAt: int)
      returns (r: Option<Option<Version<ListingVersion>>>)
      requires Valid()
      ensures r.Some?
      ensures Resolves(Listings(NOBODY), tables.listings, ListingQuery(dataSourceId, securityId, Calendars.Upper(Text.TrimSpace(mic)), decisionAt),
                       ListingFamilies(), ListingWinner(), ListingValidAt(asOf), r.value)
    {
      hide Selected, Candidate, NoTies, NoCandidateTies, Settled, Lists, Resolves;
      var place := Calendars.Upper(Text.TrimSpace(mic));
      var q := ListingQuery(dataSourceId, securityId, place, decisionAt);
      IdsStored(tables);
      var records := Select(Listings(NOBODY), tables.listings, q);
      ListingsNeverTie(tables, dataSourceId, securityId, place, asOf, decisionAt, records);
      r := SelectListingRevision(records, asOf);
      ResolvesForAll(Listings(NOBODY), tables.listings, q, ListingFamilies(), ListingWinner(), ListingValidAt(asOf), r.value, records);
    }

    method ResolveUniverse(dataSourceId: string, universeId: string, asOf: int, decisionAt: int) returns (r: Option<seq<string>>)
      requires Valid()
      ensures r.Some? && Ascending(r.value)
      ensures forall records, s :: Lists(Memberships(NOBODY), tables.memberships, UniverseQuery(dataSourceId, universeId, decisionAt), records) ==>
                (s in r.value <==> InUniverse(records, asOf, s))
    {
      hide InUniverse, NoTies, NoCandidateTies, Settled, Lists, Ascending;
      var q := UniverseQuery(dataSourceId, universeId, decisionAt);
      IdsStored(tables);
      var records := Select(Memberships(NOBODY), tables.memberships, q);
      MembershipsNeverTie(tables, dataSourceId, universeId, asOf, decisionAt, records);
      r := SelectUniverseRevisions(records, asOf);
      forall other, s | Lists(Memberships(NOBODY), tables.memberships, q, other) ensures s in r.value <==> InUniverse(other, asOf, s) {
        SameListing(Memberships(NOBODY), tables.memberships, q, records, other);
        InUniverseMoves(records, other, asOf, s);
      }
    }

    method ResolveCorporateActions(dataSourceId: string, securityId: string, decisionAt: int) returns (r: Option<seq<Version<CorporateAction>>>)
      requires Valid()
      ensures r.Some? && ActionsInOrder(r.value)
      ensures forall records, v :: Lists(Actions(NOBODY), tables.actions, ActionQuery(dataSourceId, securityId, decisionAt), records) ==>
                (v in r.value <==> Holder(ActionFamilies(), records, v) && v.payload.actionStatus != "cancelled")
    {
      hide Holder, NoTies, Settled, Lists, ActionsInOrder;
      var q := ActionQuery(dataSourceId, securityId, decisionAt);
      IdsStored(tables);
      var records := Select(Actions(NOBODY), tables.actions, q);
      ActionsNeverTie(tables, dataSourceId, securityId, decisionAt, records);
      r := SelectCorporateActionRevisions(records);
      forall other, v | Lists(Actions(NOBODY), tables.actions, q, other) ensures v in r.value <==> Holder(ActionFamilies(), other, v) && v.payload.actionStatus != "cancelled" {
        SameListing(Actions(NOBODY), tables.actions, q, records, other);
        HolderMoves(ActionFamilies(), records, other, v);
      }
    }
  }

  lemma IdsStored(t: Tables)
    requires SettledTables(t)
    ensures forall id :: id in t.identifiers ==> Identifiers(NOBODY).id(Identifiers(NOBODY).stored(t.identifiers[id])) == id
    ensures forall id :: id in t.listings ==> Listings(NOBODY).id(Listings(NOBODY).stored(t.listings[id])) == id
    ensures forall id :: id in t.memberships ==> Memberships(NOBODY).id(Memberships(NOBODY).stored(t.memberships[id])) == id
    ensures forall id :: id in t.actions ==> Actions(NOBODY).id(Actions(NOBODY).stored(t.actions[id])) == id
  {
    hide CanonicalTime;
  }

  // ---------- corrections among published rows ----------

  /** Nothing but revisions zero and one of this family is listed. */
  ghost predicate TwoRevisions(records: seq<Version<IdentifierVersion>>, base: Version<IdentifierVersion>)
  {
    forall v :: v in records && FamilyOfIdentifier(v.payload) == FamilyOfIdentifier(base.payload) ==> v.revision in {0, 1}
  }

  /**
   Among published rows a family has one row of every revision, so where a base and its
   correction are both listed, and no later revision, the correction stands for the
   family exactly when it is available no earlier; a base alone stands for itself.
   */
  lemma PublishedCorrectionDecides(t: Tables, dataSourceId: string, identifierType: string, value: string, scope: string, decisionAt: int,
                                   records: seq<Version<IdentifierVersion>>, base: Version<IdentifierVersion>, correction: Version<IdentifierVersion>, v: Version<IdentifierVersion>)
    requires SettledTables(t)
    requires Lists(Identifiers(NOBODY), t.identifiers, IdentifierQuery(dataSourceId, identifierType, value, scope, decisionAt), records)
    requires base in records && base.revision == 0 && correction.revision == 1
    requires FamilyOfIdentifier(correction.payload) == FamilyOfIdentifier(base.payload) && TwoRevisions(records, base)
    requires FamilyOfIdentifier(v.payload) == FamilyOfIdentifier(base.payload)
    ensures correction in records ==>
              (Holder(IdentifierFamilies(), records, v) <==> v == if correction.availableAt >= base.availableAt then correction else base)
    ensures (forall x :: x in records && FamilyOfIdentifier(x.payload) == FamilyOfIdentifier(base.payload) ==> x.revision == 0) ==>
              (Holder(IdentifierFamilies(), records, v) <==> v == base)
  {
    forall x, y | x in records && y in records && x.revision == y.revision && FamilyOfIdentifier(x.payload) == FamilyOfIdentifier(base.payload) == FamilyOfIdentifier(y.payload)
      ensures x == y
    {
      OnePerRevision(t, dataSourceId, identifierType, value, scope, decisionAt, records, x, y);
    }
    hide Lists, SettledTables, IdentifierQuery, Beats, Holder, IdentifierFamilies;
    FamilyGroups();
    OneOrTwoRows(records, base, correction, v);
  }

  lemma FamilyGroups()
    ensures forall x :: IdentifierFamilies().group(x) == FamilyOfIdentifier(x.payload)
  {
  }

  /** A family of one row, or of a base and its correction. */
  lemma OneOrTwoRows(records: seq<Version<IdentifierVersion>>, base: Version<IdentifierVersion>, correction: Version<IdentifierVersion>, v: Version<IdentifierVersion>)
    requires base in records && base.revision == 0 && correction.revision == 1 && TwoRevisions(records, base)
    requires FamilyOfIdentifier(correction.payload) == FamilyOfIdentifier(base.payload) == FamilyOfIdentifier(v.payload)
    requires forall x, y :: x in records && y in records && x.revision == y.revision && FamilyOfIdentifier(x.payload) == FamilyOfIdentifier(base.payload) == FamilyOfIdentifier(y.payload) ==> x == y
    ensures correction in records ==>
              (Holder(IdentifierFamilies(), records, v) <==> v == if correction.availableAt >= base.availableAt then correction else base)
    ensures (forall x :: x in records && FamilyOfIdentifier(x.payload) == FamilyOfIdentifier(base.payload) ==> x.revision == 0) ==>
              (Holder(IdentifierFamilies(), records, v) <==> v == base)
  {
    BeatsOrder(base, correction, base);
    FamilyGroups();
    assert Beats(correction, base) <==> correction.availableAt >= base.availableAt;
    assert correction.availableAt < base.availableAt ==> Beats(base, correction);
    hide Beats, IdentifierFamilies;
    assert forall x :: x in records && FamilyOfIdentifier(x.payload) == FamilyOfIdentifier(base.payload) ==> x == base || x.revision == 1;
  }

  lemma OnePerRevision(t: Tables, dataSourceId: string, identifierType: string, value: string, scope: string, decisionAt: int,
                       records: seq<Version<IdentifierVersion>>, x: Version<IdentifierVersion>, y: Version<IdentifierVersion>)
    requires SettledTables(t)
    requires Lists(Identifiers(NOBODY), t.identifiers, IdentifierQuery(dataSourceId, identifierType, value, scope, decisionAt), records)
    requires x in records && y in records && x.revision == y.revision && FamilyOfIdentifier(x.payload) == FamilyOfIdentifier(y.payload)
    ensures x == y
  {
    var k, q := Identifiers(NOBODY), IdentifierQuery(dataSourceId, identifierType, value, scope, decisionAt);
    ListedFits(k, t.identifiers, q, records, x);
    ListedFits(k, t.identifiers, q, records, y);
    SameStart(x.payload.interval, y.payload.interval);
    var a :| a in t.identifiers && k.stored(t.identifiers[a]) == x;
    var b :| b in t.identifiers && k.stored(t.identifiers[b]) == y;
    assert k.clash(x, y);
  }
}
