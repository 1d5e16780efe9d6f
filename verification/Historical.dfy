/**
 Point-in-time resolution. The latest version of every family is found first; the
 families whose interval contains the market date then compete by the same rank.
 */
module Historical {
  import opened Wrappers
  import opened Sorting
  import opened Versions
  import Text

  // ---------- the records ----------

  datatype Interval = Interval(validFrom: int, validUntil: Option<int>)
  {
    predicate Contains(asOf: int)
    {
      validFrom <= asOf && (validUntil.Some? ==> asOf < validUntil.value)
    }
  }

  datatype IdentifierVersion = IdentifierVersion(
    securityId: string, identifierType: string, value: string, normalizedValue: string, identifierScope: string,
    interval: Interval, sourceReference: string, dataSourceId: string, rawPayloadHash: string, isPrimary: bool)

  datatype ListingVersion = ListingVersion(
    securityId: string, issuerId: Option<string>, exchange: string, mic: string, currency: string, primaryListing: bool,
    interval: Interval, sourceReference: string, dataSourceId: string, rawPayloadHash: string)

  datatype Membership = Membership(
    universeId: string, securityId: string, member: bool, interval: Interval, announcedAt: Option<int>,
    sourceReference: string, dataSourceId: string, rawPayloadHash: string)

  datatype CorporateAction = CorporateAction(
    securityId: string, sourceEventId: string, actionStatus: string, actionType: string,
    observedAt: int, observedPrecision: string, publishedAt: int, publishedPrecision: string, effectiveAt: int, effectivePrecision: string,
    recordDate: Option<string>, paymentDate: Option<string>, ratioNumerator: Option<string>, ratioDenominator: Option<string>,
    cashAmount: Option<string>, currency: Option<string>, targetSecurityId: Option<string>, sourceReference: string,
    dataSourceId: string, ingestionRunId: string, rawPayloadHash: string, rawRecordLocator: Option<string>, ingestedAt: int,
    normalizerVersion: Option<string>)

  // ---------- the contests ----------

  datatype IdentifierFamily = IdentifierFamily(securityId: string, identifierType: string, normalizedValue: string, identifierScope: string, validFrom: int)

  datatype ListingFamily = ListingFamily(securityId: string, mic: string, validFrom: int)

  datatype ListingIdentity = ListingIdentity(issuerId: string, exchange: string, mic: string, currency: string, primaryListing: bool)

  datatype MembershipFamily = MembershipFamily(universeId: string, securityId: string, validFrom: int)

  function IdentityOfListing(p: ListingVersion): ListingIdentity
  {
    ListingIdentity(if p.issuerId.Some? then p.issuerId.value else "", p.exchange, p.mic, p.currency, p.primaryListing)
  }

  function IdentifierFamilies(): Contest<IdentifierVersion, IdentifierFamily, (IdentifierFamily, string, Option<int>, bool)>
  {
    Contest(
      (r: Version<IdentifierVersion>) => FamilyOfIdentifier(r.payload),
      (r: Version<IdentifierVersion>) => (FamilyOfIdentifier(r.payload), r.payload.value, r.payload.interval.validUntil, r.payload.isPrimary))
  }

  function FamilyOfIdentifier(p: IdentifierVersion): IdentifierFamily
  {
    IdentifierFamily(p.securityId, p.identifierType, p.normalizedValue, p.identifierScope, p.interval.validFrom)
  }

  function IdentifierWinner(): Contest<IdentifierVersion, (), string>
  {
    Contest((r: Version<IdentifierVersion>) => (), (r: Version<IdentifierVersion>) => r.payload.securityId)
  }

  function ListingFamilies(): Contest<ListingVersion, ListingFamily, (ListingIdentity, Interval)>
  {
    Contest(
      (r: Version<ListingVersion>) => ListingFamily(r.payload.securityId, r.payload.mic, r.payload.interval.validFrom),
      (r: Version<ListingVersion>) => (IdentityOfListing(r.payload), r.payload.interval))
  }

  function ListingWinner(): Contest<ListingVersion, (), ListingIdentity>
  {
    Contest((r: Version<ListingVersion>) => (), (r: Version<ListingVersion>) => IdentityOfListing(r.payload))
  }

  function MembershipFamilies(): Contest<Membership, MembershipFamily, (MembershipFamily, Option<int>, bool)>
  {
    Contest(
      (r: Version<Membership>) => FamilyOfMembership(r.payload),
      (r: Version<Membership>) => (FamilyOfMembership(r.payload), r.payload.interval.validUntil, r.payload.member))
  }

  function FamilyOfMembership(p: Membership): MembershipFamily
  {
    MembershipFamily(p.universeId, p.securityId, p.interval.validFrom)
  }

  function MembershipWinner(): Contest<Membership, string, bool>
  {
    Contest((r: Version<Membership>) => r.payload.securityId, (r: Version<Membership>) => r.payload.member)
  }

  /** Identity of one action revision: everything but the ranking fields and the identifier. */
  function ActionFamilies(): Contest<CorporateAction, string, CorporateAction>
  {
    Contest((r: Version<CorporateAction>) => r.payload.sourceEventId, (r: Version<CorporateAction>) => r.payload)
  }

  // ---------- two-stage resolution ----------

  /** The latest version of its family, when its interval qualifies. */
  ghost predicate Candidate<P, F, I>(fam: Contest<P, F, I>, records: seq<Version<P>>, eligible: Version<P> -> bool, v: Version<P>)
  {
    Holder(fam, records, v) && eligible(v)
  }

  /** A candidate that beats every other candidate of its group. */
  ghost predicate Selected<P(!new), F, I, G, V>(fam: Contest<P, F, I>, c: Contest<P, G, V>, records: seq<Version<P>>, eligible: Version<P> -> bool, v: Version<P>)
  {
    && Candidate(fam, records, eligible, v)
    && forall u :: Candidate(fam, records, eligible, u) && c.group(u) == c.group(v) && u != v ==> Beats(v, u)
  }

  /** Two candidates that disagree although neither outranks the other. */
  ghost predicate CandidateTie<P, F, I, G, V>(fam: Contest<P, F, I>, c: Contest<P, G, V>, records: seq<Version<P>>, eligible: Version<P> -> bool, a: Version<P>, b: Version<P>)
  {
    Candidate(fam, records, eligible, a) && Candidate(fam, records, eligible, b) && Disagree(c, a, b)
  }

  ghost predicate NoCandidateTies<P(!new), F, I, G, V>(fam: Contest<P, F, I>, c: Contest<P, G, V>, records: seq<Version<P>>, eligible: Version<P> -> bool)
  {
    forall a, b :: !CandidateTie(fam, c, records, eligible, a, b)
  }

  lemma SelectedUnique<P(!new), F, I, G, V>(fam: Contest<P, F, I>, c: Contest<P, G, V>, records: seq<Version<P>>, eligible: Version<P> -> bool, v: Version<P>, w: Version<P>)
    requires Selected(fam, c, records, eligible, v) && Selected(fam, c, records, eligible, w) && c.group(v) == c.group(w)
    ensures v == w
  {
    BeatsOrder(v, w, v);
  }

  /**
   What a successful resolution returned, whichever way the family map was walked:
   in every group with a candidate the one selected version, and nobody of equal
   rank disagrees with it.
   */
  ghost predicate Resolved<P(!new), F, I, G, V>(fam: Contest<P, F, I>, c: Contest<P, G, V>, records: seq<Version<P>>, eligible: Version<P> -> bool, latest: map<G, Version<P>>)
  {
    && (forall u :: Candidate(fam, records, eligible, u) ==> c.group(u) in latest)
    && (forall g :: g in latest ==> Selected(fam, c, records, eligible, latest[g]) && c.group(latest[g]) == g)
    && (forall u :: Candidate(fam, records, eligible, u) ==> !Disagree(c, u, latest[c.group(u)]))
  }

  /** Two successful resolutions of the same records agree, whatever orders their walks took. */
  lemma ResolutionsAgree<P(!new), F, I, G, V>(fam: Contest<P, F, I>, c: Contest<P, G, V>, records: seq<Version<P>>, eligible: Version<P> -> bool, x: map<G, Version<P>>, y: map<G, Version<P>>)
    requires Resolved(fam, c, records, eligible, x) && Resolved(fam, c, records, eligible, y)
    ensures x == y
  {
    hide Selected, Candidate, Disagree;
    forall g | g in x ensures g in y && x[g] == y[g] {
      SelectedIsCandidate(fam, c, records, eligible, x[g]);
      SelectedUnique(fam, c, records, eligible, x[g], y[g]);
    }
    forall g | g in y ensures g in x {
      SelectedIsCandidate(fam, c, records, eligible, y[g]);
    }
  }

  lemma SelectedIsCandidate<P(!new), F, I, G, V>(fam: Contest<P, F, I>, c: Contest<P, G, V>, records: seq<Version<P>>, eligible: Version<P> -> bool, v: Version<P>)
    requires Selected(fam, c, records, eligible, v)
    ensures Candidate(fam, records, eligible, v)
  {
  }

  lemma FamilyHoldersDistinct<P(!new), F, I>(fam: Contest<P, F, I>, records: seq<Version<P>>, families: map<F, Version<P>>)
    requires DistinctIds(records) && HoldersOf(fam, records, families)
    ensures forall f, h :: f in families && h in families && f != h ==> families[f].id != families[h].id
    ensures forall v :: Holder(fam, records, v) <==> v in families.Values
  {
    forall f, h | f in families && h in families && f != h ensures families[f].id != families[h].id {
      assert families[f] in records && families[h] in records;
    }
    forall v ensures Holder(fam, records, v) <==> v in families.Values {
      if Holder(fam, records, v) {
        HolderUnique(fam, records, v, families[fam.group(v)]);
        assert v == families[fam.group(v)];
      }
      if v in families.Values {
        var f :| f in families && families[f] == v;
      }
    }
  }

  /** The second walk over exactly the candidates, in any order, selects among them. */
  lemma WalkResolves<P(!new), F, I, G, V>(fam: Contest<P, F, I>, c: Contest<P, G, V>, records: seq<Version<P>>, eligible: Version<P> -> bool, order: seq<Version<P>>)
    requires DistinctIds(order) && Walk(c, order).Some?
    requires forall v :: v in order <==> Candidate(fam, records, eligible, v)
    ensures Resolved(fam, c, records, eligible, Walk(c, order).value)
  {
    WalkHolds(c, order);
    hide Walk, Candidate, Beats;
    var latest := Walk(c, order).value;
    forall g | g in latest ensures Selected(fam, c, records, eligible, latest[g]) && c.group(latest[g]) == g {
      assert Holder(c, order, latest[g]);
      assert latest[g] in order;
    }
  }

  /** A failed second walk met two candidates that tie and disagree. */
  lemma FailedWalkTies<P(!new), F, I, G, V>(fam: Contest<P, F, I>, c: Contest<P, G, V>, records: seq<Version<P>>, eligible: Version<P> -> bool, order: seq<Version<P>>)
    requires DistinctIds(order) && Walk(c, order).None?
    requires forall v :: v in order ==> Candidate(fam, records, eligible, v)
    ensures !NoCandidateTies(fam, c, records, eligible)
  {
    WalkFailsOnTie(c, order);
    var a, b :| a in order && b in order && Disagree(c, a, b);
    assert CandidateTie(fam, c, records, eligible, a, b);
  }

  method Resolve<P(==, !new), F(==), I(==), G(==), V(==)>(fam: Contest<P, F, I>, c: Contest<P, G, V>, records: seq<Version<P>>, eligible: Version<P> -> bool)
    returns (r: Option<map<G, Version<P>>>)
    requires DistinctIds(records)
    ensures r.Some? ==> TopAgrees(fam, records) && Resolved(fam, c, records, eligible, r.value)
    ensures NoTies(fam, records) && NoCandidateTies(fam, c, records, eligible) ==> r.Some?
    ensures r.None? ==> !NoTies(fam, records) || !NoCandidateTies(fam, c, records, eligible)
    ensures ByRankDescending(fam, records) && r.None? ==> !TopAgrees(fam, records) || !NoCandidateTies(fam, c, records, eligible)
  {
    var families := Collect(fam, records);
    if families.None? {
      WalkFailsOnTie(fam, records);
      if ByRankDescending(fam, records) {
        DescendingSucceedsIffTopAgrees(fam, records);
      }
      return None;
    }
    SuccessMeansTopAgrees(fam, records);
    WalkHolds(fam, records);
    FamilyHoldersDistinct(fam, records, families.value);
    ghost var order;
    r, order := CollectValues(c, families.value, eligible);
    if r.Some? {
      WalkResolves(fam, c, records, eligible, order);
    } else {
      FailedWalkTies(fam, c, records, eligible, order);
    }
  }

  // ---------- the resolvers ----------

  function IdentifierValidAt(asOf: int): Version<IdentifierVersion> -> bool { (v: Version<IdentifierVersion>) => v.payload.interval.Contains(asOf) }

  function ListingValidAt(asOf: int): Version<ListingVersion> -> bool { (v: Version<ListingVersion>) => v.payload.interval.Contains(asOf) }

  function ValidAt(asOf: int): Version<Membership> -> bool { (v: Version<Membership>) => v.payload.interval.Contains(asOf) }

  /** The identifier version valid at `asOf`, if there is one. */
  method SelectIdentifierRevision(records: seq<Version<IdentifierVersion>>, asOf: int) returns (r: Option<Option<Version<IdentifierVersion>>>)
    requires DistinctIds(records)
    ensures var eligible := IdentifierValidAt(asOf);
            && (r.Some? ==>
                  && TopAgrees(IdentifierFamilies(), records)
                  && (r.value.None? <==> forall v :: !Candidate(IdentifierFamilies(), records, eligible, v))
                  && (r.value.Some? ==> Selected(IdentifierFamilies(), IdentifierWinner(), records, eligible, r.value.value)))
            && (NoTies(IdentifierFamilies(), records) && NoCandidateTies(IdentifierFamilies(), IdentifierWinner(), records, eligible) ==> r.Some?)
            && (ByRankDescending(IdentifierFamilies(), records) && TopAgrees(IdentifierFamilies(), records) && NoCandidateTies(IdentifierFamilies(), IdentifierWinner(), records, eligible) ==> r.Some?)
  {
    var eligible := IdentifierValidAt(asOf);
    var resolved := Resolve(IdentifierFamilies(), IdentifierWinner(), records, eligible);
    r := SingleWinner(IdentifierFamilies(), IdentifierWinner(), records, eligible, resolved);
  }

  /** The listing version valid at `asOf`, if there is one. */
  method SelectListingRevision(records: seq<Version<ListingVersion>>, asOf: int) returns (r: Option<Option<Version<ListingVersion>>>)
    requires DistinctIds(records)
    ensures var eligible := ListingValidAt(asOf);
            && (r.Some? ==>
                  && TopAgrees(ListingFamilies(), records)
                  && (r.value.None? <==> forall v :: !Candidate(ListingFamilies(), records, eligible, v))
                  && (r.value.Some? ==> Selected(ListingFamilies(), ListingWinner(), records, eligible, r.value.value)))
            && (NoTies(ListingFamilies(), records) && NoCandidateTies(ListingFamilies(), ListingWinner(), records, eligible) ==> r.Some?)
            && (ByRankDescending(ListingFamilies(), records) && TopAgrees(ListingFamilies(), records) && NoCandidateTies(ListingFamilies(), ListingWinner(), records, eligible) ==> r.Some?)
  {
    var eligible := ListingValidAt(asOf);
    var resolved := Resolve(ListingFamilies(), ListingWinner(), records, eligible);
    r := SingleWinner(ListingFamilies(), ListingWinner(), records, eligible, resolved);
  }

  /** With one group the map of winners is one version or none. */
  function SingleWinner<P(!new), F, I, V>(ghost fam: Contest<P, F, I>, ghost c: Contest<P, (), V>, ghost records: seq<Version<P>>, ghost eligible: Version<P> -> bool, resolved: Option<map<(), Version<P>>>): (r: Option<Option<Version<P>>>)
    requires resolved.Some? ==> Resolved(fam, c, records, eligible, resolved.value)
    ensures r.Some? <==> resolved.Some?
    ensures r.Some? ==>
              && (r.value.None? <==> forall v :: !Candidate(fam, records, eligible, v))
              && (r.value.Some? ==> Selected(fam, c, records, eligible, r.value.value))
  {
    if resolved.None? then None
    else if () in resolved.value then
      assert Candidate(fam, records, eligible, resolved.value[()]);
      Some(Some(resolved.value[()]))
    else
      assert forall u :: Candidate(fam, records, eligible, u) ==> c.group(u) == ();
      Some(None)
  }

  /** The security's selected version at `asOf` says member. */
  ghost predicate InUniverse(records: seq<Version<Membership>>, asOf: int, securityId: string)
  {
    exists v :: Selected(MembershipFamilies(), MembershipWinner(), records, ValidAt(asOf), v) &&
                v.payload.securityId == securityId && v.payload.member
  }

  /** ORDER BY security_id, available_at DESC, revision DESC, recorded_at DESC, id DESC. */
  predicate UniverseQueryOrder(records: seq<Version<Membership>>)
  {
    forall i, j :: 0 <= i < j < |records| ==>
      || Text.Less(records[i].payload.securityId, records[j].payload.securityId)
      || (records[i].payload.securityId == records[j].payload.securityId && Beats(records[i], records[j]))
  }

  lemma UniverseQueryRanks(records: seq<Version<Membership>>)
    requires UniverseQueryOrder(records)
    ensures ByRankDescending(MembershipFamilies(), records)
  {
    forall i, j | 0 <= i < j < |records| && MembershipFamilies().group(records[i]) == MembershipFamilies().group(records[j])
      ensures Beats(records[i], records[j])
    {
      Text.LessTrichotomy(records[i].payload.securityId, records[j].payload.securityId);
    }
  }

  /** Identifiers in the order of strings, each once. */
  predicate Ascending(s: seq<string>)
  {
    forall i, j :: 0 <= i < j < |s| ==> Text.Less(s[i], s[j])
  }

  /** The keys of a map that qualify, collected in some order and then sorted. */
  method SortedMembers(winners: map<string, Version<Membership>>) returns (sorted: seq<string>)
    ensures Ascending(sorted)
    ensures forall s :: s in sorted <==> s in winners && winners[s].payload.member
  {
    var result: seq<string> := [];
    var todo := winners.Keys;
    while todo != {}
      invariant todo <= winners.Keys
      invariant forall s :: s in result <==> s in winners && s !in todo && winners[s].payload.member
      invariant forall i, j :: 0 <= i < j < |result| ==> result[i] != result[j]
      decreases todo
    {
      var securityId :| securityId in todo;
      todo := todo - {securityId};
      if winners[securityId].payload.member {
        result := result + [securityId];
      }
    }
    sorted := SortBy(Text.Less, result);
    DistinctSortAscends(result);
  }

  lemma TextOrderTotal(dom: set<string>)
    ensures StrictTotal(Text.Less, dom)
  {
    forall x, y, z | x in dom && y in dom && z in dom && Compared(x, y, z)
      ensures !(Text.Less(x, y) && Text.Less(y, x))
      ensures Text.Less(x, y) && Text.Less(y, z) ==> Text.Less(x, z)
      ensures !Text.Less(x, y) && !Text.Less(y, x) ==> x == y
    {
      Text.LessTrichotomy(x, y);
      if Text.Less(x, y) && Text.Less(y, z) {
        Text.LessTransitive(x, y, z);
      }
    }
  }

  lemma DistinctSortAscends(s: seq<string>)
    requires forall i, j :: 0 <= i < j < |s| ==> s[i] != s[j]
    ensures Ascending(SortBy(Text.Less, s))
    ensures forall x :: x in SortBy(Text.Less, s) <==> x in s
  {
    var dom := set x | x in s;
    TextOrderTotal(dom);
    SortBySorted(Text.Less, s, dom);
    var sorted := SortBy(Text.Less, s);
    SameMembers(sorted, s);
    hide SortBy, StrictTotal;
    forall i, j | 0 <= i < j < |sorted| ensures Text.Less(sorted[i], sorted[j]) {
      var k, l := TwoPlaces(s, sorted, i, j);
      Text.LessTrichotomy(sorted[i], sorted[j]);
    }
  }

  /** The members of a universe at `asOf` in order, whatever way the family map is walked. */
  method SelectUniverseRevisions(records: seq<Version<Membership>>, asOf: int) returns (r: Option<seq<string>>)
    requires DistinctIds(records)
    ensures r.Some? ==> TopAgrees(MembershipFamilies(), records)
    ensures r.Some? ==> Ascending(r.value) && forall s :: s in r.value <==> InUniverse(records, asOf, s)
    ensures NoTies(MembershipFamilies(), records) && NoCandidateTies(MembershipFamilies(), MembershipWinner(), records, ValidAt(asOf)) ==> r.Some?
    ensures r.None? ==> !NoTies(MembershipFamilies(), records) || !NoCandidateTies(MembershipFamilies(), MembershipWinner(), records, ValidAt(asOf))
    ensures ByRankDescending(MembershipFamilies(), records) && r.None? ==>
              !TopAgrees(MembershipFamilies(), records) || !NoCandidateTies(MembershipFamilies(), MembershipWinner(), records, ValidAt(asOf))
  {
    var resolved := Resolve(MembershipFamilies(), MembershipWinner(), records, ValidAt(asOf));
    if resolved.None? {
      return None;
    }
    var result := SortedMembers(resolved.value);
    forall s ensures s in result <==> InUniverse(records, asOf, s) {
      MembersAreInUniverse(records, asOf, resolved.value, s);
    }
    return Some(result);
  }

  lemma MembersAreInUniverse(records: seq<Version<Membership>>, asOf: int, winners: map<string, Version<Membership>>, s: string)
    requires Resolved(MembershipFamilies(), MembershipWinner(), records, ValidAt(asOf), winners)
    ensures s in winners && winners[s].payload.member <==> InUniverse(records, asOf, s)
  {
    var fam, c := MembershipFamilies(), MembershipWinner();
    forall v | Selected(fam, c, records, ValidAt(asOf), v) && v.payload.securityId == s ensures s in winners && winners[s] == v {
      SelectedIsCandidate(fam, c, records, ValidAt(asOf), v);
      SelectedUnique(fam, c, records, ValidAt(asOf), v, winners[s]);
    }
  }

  /** By observation time, and then by source event. */
  predicate ActionBefore(a: Version<CorporateAction>, b: Version<CorporateAction>)
  {
    if a.payload.observedAt != b.payload.observedAt then a.payload.observedAt < b.payload.observedAt
    else Text.Less(a.payload.sourceEventId, b.payload.sourceEventId)
  }

  predicate ActionsInOrder(s: seq<Version<CorporateAction>>)
  {
    forall i, j :: 0 <= i < j < |s| ==> ActionBefore(s[i], s[j])
  }

  lemma ActionOrderWeak(dom: set<Version<CorporateAction>>)
    ensures StrictWeak(ActionBefore, dom)
  {
    forall x, y, z | x in dom && y in dom && z in dom && Compared(x, y, z)
      ensures !(ActionBefore(x, y) && ActionBefore(y, x)) && (ActionBefore(x, z) ==> ActionBefore(x, y) || ActionBefore(y, z))
    {
      var a, b, c := x.payload.sourceEventId, y.payload.sourceEventId, z.payload.sourceEventId;
      Text.LessTrichotomy(a, b);
      Text.LessTrichotomy(b, c);
      Text.LessTrichotomy(a, c);
      if Text.Less(c, b) && Text.Less(b, a) {
        Text.LessTransitive(c, b, a);
      }
    }
  }

  lemma DistinctActionsSort(s: seq<Version<CorporateAction>>)
    requires forall i, j :: 0 <= i < j < |s| ==> s[i].payload.sourceEventId != s[j].payload.sourceEventId
    ensures ActionsInOrder(SortBy(ActionBefore, s))
    ensures forall x :: x in SortBy(ActionBefore, s) <==> x in s
  {
    var dom := set x | x in s;
    ActionOrderWeak(dom);
    WeakSortSorted(ActionBefore, s, dom);
    var sorted := SortBy(ActionBefore, s);
    SameMembers(sorted, s);
    hide SortBy, StrictWeak;
    forall i, j | 0 <= i < j < |sorted| ensures ActionBefore(sorted[i], sorted[j]) {
      var k, l := TwoPlaces(s, sorted, i, j);
      assert !ActionBefore(sorted[j], sorted[i]);
      Text.LessTrichotomy(sorted[i].payload.sourceEventId, sorted[j].payload.sourceEventId);
    }
  }

  /** The versions of a map that are not cancelled, collected in some order and then sorted. */
  method SortedActions(latest: map<string, Version<CorporateAction>>) returns (sorted: seq<Version<CorporateAction>>)
    requires forall f :: f in latest ==> latest[f].payload.sourceEventId == f
    ensures ActionsInOrder(sorted)
    ensures forall v :: v in sorted <==> v in latest.Values && v.payload.actionStatus != "cancelled"
  {
    var result: seq<Version<CorporateAction>> := [];
    var todo := latest.Keys;
    while todo != {}
      invariant todo <= latest.Keys
      invariant forall v :: v in result <==> v.payload.sourceEventId in latest && v.payload.sourceEventId !in todo && latest[v.payload.sourceEventId] == v && v.payload.actionStatus != "cancelled"
      invariant forall i, j :: 0 <= i < j < |result| ==> result[i].payload.sourceEventId != result[j].payload.sourceEventId
      decreases todo
    {
      var f :| f in todo;
      todo := todo - {f};
      if latest[f].payload.actionStatus != "cancelled" {
        forall i | 0 <= i < |result| ensures result[i].payload.sourceEventId != f {
          assert result[i] in result;
        }
        result := result + [latest[f]];
      }
    }
    sorted := SortBy(ActionBefore, result);
    DistinctActionsSort(result);
    forall v ensures v in sorted <==> v in latest.Values && v.payload.actionStatus != "cancelled" {
    }
  }

  /** The latest version of every action family that is not cancelled, in order of observation. */
  method SelectCorporateActionRevisions(records: seq<Version<CorporateAction>>) returns (r: Option<seq<Version<CorporateAction>>>)
    requires DistinctIds(records)
    ensures r.Some? ==> TopAgrees(ActionFamilies(), records)
    ensures r.Some? ==> ActionsInOrder(r.value) && forall v :: v in r.value <==> Holder(ActionFamilies(), records, v) && v.payload.actionStatus != "cancelled"
    ensures NoTies(ActionFamilies(), records) ==> r.Some?
    ensures ByRankDescending(ActionFamilies(), records) ==> (r.Some? <==> TopAgrees(ActionFamilies(), records))
  {
    var latest := Collect(ActionFamilies(), records);
    if ByRankDescending(ActionFamilies(), records) {
      DescendingSucceedsIffTopAgrees(ActionFamilies(), records);
    }
    if latest.None? {
      WalkFailsOnTie(ActionFamilies(), records);
      return None;
    }
    SuccessMeansTopAgrees(ActionFamilies(), records);
    WalkHolds(ActionFamilies(), records);
    FamilyHoldersDistinct(ActionFamilies(), records, latest.value);
    var result := SortedActions(latest.value);
    return Some(result);
  }

  // ---------- rows handed over directly ----------

  /** A membership of one security, valid from `validFrom` on. */
  function Vintage(id: string, validFrom: int, availableAt: int, member: bool): Version<Membership>
  {
    Version(id, availableAt, 0, availableAt, Membership("u", "s", member, Interval(validFrom, None), None, "r", "d", "h"))
  }

  /** Two memberships of one rank that disagree, and a third that outranks both. */
  function Tied(): seq<Version<Membership>> { [Vintage("a", 1, 5, true), Vintage("b", 2, 5, false)] }

  function Above(): Version<Membership> { Vintage("c", 3, 6, true) }

  lemma WalkOn<P, G, V>(c: Contest<P, G, V>, front: seq<Version<P>>, r: Version<P>)
    ensures Walk(c, front + [r]) == if Walk(c, front).None? then None else Visit(c, Walk(c, front).value, r)
  {
    assert (front + [r])[..|front + [r]| - 1] == front;
  }

  /**
   Handed to the selection in a slice, the two tied memberships fail it or not as the
   map walk comes by: after the one that outranks them both they are passed over,
   before it they disagree. Published rows cannot be like that.
   */
  lemma TieBelowTheTop()
    ensures DistinctIds(Tied() + [Above()]) && NoTies(MembershipFamilies(), Tied() + [Above()])
    ensures Walk(MembershipWinner(), [Above()] + Tied()).Some? && Walk(MembershipWinner(), Tied() + [Above()]).None?
    ensures Walk(MembershipWinner(), Tied()).None?
  {
    TiedApart();
    var c, a, b, top := MembershipWinner(), Tied()[0], Tied()[1], Above();
    assert Disagree(c, a, b) && Beats(top, a) && Beats(top, b) && c.group(a) == c.group(b) == c.group(top);
    assert [a, b] + [] == Tied() && [a, b] + [top] == Tied() + [top];
    TieFailsSomeOrder(c, a, b, []);
    TieFailsSomeOrder(c, a, b, [top]);
    PassedOver(c, top, a, b);
  }

  lemma TiedApart()
    ensures DistinctIds(Tied() + [Above()]) && NoTies(MembershipFamilies(), Tied() + [Above()])
    ensures LaterRank(Above(), Tied()[0]) && LaterRank(Above(), Tied()[1])
  {
    assert "a" != "b" && "b" != "c" && "a" != "c" by {
      assert "a"[0] != "b"[0] && "b"[0] != "c"[0] && "a"[0] != "c"[0];
    }
  }

  /** After a record that outranks them both, two records are passed over. */
  lemma PassedOver<P, G, V>(c: Contest<P, G, V>, top: Version<P>, a: Version<P>, b: Version<P>)
    requires LaterRank(top, a) && LaterRank(top, b) && c.group(a) == c.group(b) == c.group(top)
    ensures Walk(c, [top] + [a, b]).Some?
  {
    WalkOn(c, [], top);
    WalkOn(c, [top], a);
    WalkOn(c, [top, a], b);
    assert [] + [top] == [top] && [top] + [a] == [top, a] && [top, a] + [b] == [top] + [a, b];
    assert Walk(c, []) == Some(map[]);
  }
}
