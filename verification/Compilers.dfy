/**
 Compiling index membership notices into bitemporal versions. Every ticker's events
 are put in order and checked; what the resolver then says equals what replaying
 the events says.
 */
module Compilers {
  import opened Wrappers
  import opened Instants
  import opened Sorting
  import opened Versions
  import opened Historical
  import Text

  // ---------- inputs ----------

  datatype Evidence = Evidence(
    ticker: string, member: bool, effectiveAt: int, announcedAt: int, availableAt: int,
    rawRecordLocator: string, rawPayloadHash: string, recordedAt: int)
  {
    predicate Complete()
    {
      rawPayloadHash != "" && rawRecordLocator != "" && availableAt != ZERO_TIME && effectiveAt != ZERO_TIME
    }

    /** The event as its stored row remembers it. */
    function Stored(): Evidence
    {
      this.(effectiveAt := CanonicalTime(effectiveAt), availableAt := CanonicalTime(availableAt))
    }
  }

  datatype Security = Security(
    securityId: string, issuerId: string, ticker: string, exchange: string, mic: string, currency: string, primaryListing: bool)
  {
    predicate Complete() { issuerId != "" && exchange != "" && mic != "" && currency != "" }
  }

  datatype Request = Request(
    dataSourceId: string, source: string, universeId: string, tickers: seq<string>, universe: seq<Security>, evidence: seq<Evidence>)

  datatype Batch = Batch(
    identifiers: seq<Version<IdentifierVersion>>, listings: seq<Version<ListingVersion>>, memberships: seq<Version<Membership>>)

  datatype CompileError =
    | AmbiguousMapping(ticker: string)
    | NoMapping(ticker: string)
    | NoSourceEvent(ticker: string)
    | BeginsWithRemoval(ticker: string)
    | IncompleteMapping(ticker: string)
    | RepeatsMember(ticker: string)
    | NotChronological(ticker: string)
    | IncompleteEvidence(ticker: string)

  // ---------- the log of one ticker ----------

  predicate Earlier(a: Evidence, b: Evidence)
  {
    if a.effectiveAt != b.effectiveAt then a.effectiveAt < b.effectiveAt else a.availableAt < b.availableAt
  }

  function EventsOf(evidence: seq<Evidence>, ticker: string): (r: seq<Evidence>)
    ensures forall e :: e in r <==> e in evidence && e.ticker == ticker
  {
    if evidence == [] then []
    else
      var front, last := evidence[..|evidence| - 1], evidence[|evidence| - 1];
      assert evidence == front + [last];
      EventsOf(front, ticker) + if last.ticker == ticker then [last] else []
  }

  function Log(evidence: seq<Evidence>, ticker: string): seq<Evidence>
  {
    SortBy(Earlier, EventsOf(evidence, ticker))
  }

  predicate Follows(previous: Evidence, next: Evidence)
  {
    previous.member != next.member && previous.effectiveAt < next.effectiveAt && previous.availableAt < next.availableAt
  }

  /** Starts with an addition, then alternates, moving forward in both times. */
  predicate GoodLog(log: seq<Evidence>)
  {
    && log != []
    && log[0].member
    && (forall i :: 0 < i < |log| ==> Follows(log[i - 1], log[i]))
    && (forall i :: 0 <= i < |log| ==> log[i].Complete())
  }

  lemma {:induction false} LogRises(log: seq<Evidence>, i: nat, j: nat)
    requires GoodLog(log) && i < j < |log|
    ensures log[i].effectiveAt < log[j].effectiveAt && log[i].availableAt < log[j].availableAt
    decreases j
  {
    if i < j - 1 {
      LogRises(log, i, j - 1);
    }
    assert Follows(log[j - 1], log[j]);
  }

  /** However the sort breaks ties, an arrangement is a good log exactly when the canonical one is, and is then that log. */
  lemma ArrangementIrrelevant(events: seq<Evidence>, arranged: seq<Evidence>)
    requires multiset(arranged) == multiset(events) && Sorted(Earlier, arranged)
    ensures GoodLog(arranged) <==> GoodLog(SortBy(Earlier, events))
    ensures GoodLog(arranged) ==> arranged == SortBy(Earlier, events)
  {
    var log := SortBy(Earlier, events);
    SortedByTime(events);
    if GoodLog(arranged) {
      OneGoodLog(arranged, log);
    }
    if GoodLog(log) {
      OneGoodLog(log, arranged);
    }
  }

  lemma SortedByTime(events: seq<Evidence>)
    ensures Sorted(Earlier, SortBy(Earlier, events)) && multiset(SortBy(Earlier, events)) == multiset(events)
  {
    var dom := set e | e in events;
    assert StrictWeak(Earlier, dom);
    WeakSortSorted(Earlier, events, dom);
  }

  lemma OneGoodLog(log: seq<Evidence>, other: seq<Evidence>)
    requires GoodLog(log) && Sorted(Earlier, other) && multiset(log) == multiset(other)
    ensures log == other
  {
    var dom := set e | e in log;
    forall x, y, z | x in dom && y in dom && z in dom && Compared(x, y, z)
      ensures !(Earlier(x, y) && Earlier(y, x))
      ensures Earlier(x, y) && Earlier(y, z) ==> Earlier(x, z)
      ensures !Earlier(x, y) && !Earlier(y, x) ==> x == y
    {
      var i :| 0 <= i < |log| && log[i] == x;
      var j :| 0 <= j < |log| && log[j] == y;
      if i < j { LogRises(log, i, j); }
      if j < i { LogRises(log, j, i); }
    }
    forall i, j | 0 <= i < j < |log| ensures !Earlier(log[j], log[i]) {
      LogRises(log, i, j);
    }
    SortedUnique(Earlier, log, other, dom);
  }

  // ---------- mappings ----------

  function FindSecurity(universe: seq<Security>, ticker: string): (r: Option<Security>)
    ensures r.Some? ==> r.value in universe && r.value.ticker == ticker
    ensures r.None? ==> forall s :: s in universe ==> s.ticker != ticker
  {
    if universe == [] then None
    else
      var front, last := universe[..|universe| - 1], universe[|universe| - 1];
      assert universe == front + [last];
      if last.ticker == ticker then Some(last) else FindSecurity(front, ticker)
  }

  predicate Unambiguous(universe: seq<Security>, tickers: seq<string>)
  {
    forall i, j :: 0 <= i < j < |universe| && universe[i].ticker in tickers ==> universe[i].ticker != universe[j].ticker
  }

  predicate TickerAccepted(q: Request, ticker: string)
  {
    && FindSecurity(q.universe, ticker).Some?
    && FindSecurity(q.universe, ticker).value.Complete()
    && GoodLog(Log(q.evidence, ticker))
  }

  predicate Accepted(q: Request)
  {
    && Unambiguous(q.universe, q.tickers)
    && forall i :: 0 <= i < |q.tickers| ==> TickerAccepted(q, q.tickers[i])
  }

  // ---------- the compiled rows ----------

  /** uuid.NewSHA1 of a joined name: the name itself stands for it. */
  function MembershipName(q: Request, securityId: string, e: Evidence): string
  {
    Text.Join(["membership", q.dataSourceId, q.universeId, securityId, Text.Sprint(e.effectiveAt), if e.member then "true" else "false"])
  }

  function MembershipRow(q: Request, security: Security, e: Evidence, revision: nat): Version<Membership>
  {
    Version(
      MembershipName(q, security.securityId, e), CanonicalTime(e.availableAt), revision, CanonicalTime(e.recordedAt),
      Membership(
        q.universeId, security.securityId, e.member, Interval(CanonicalTime(e.effectiveAt), None), Some(CanonicalTime(e.announcedAt)),
        q.source + "/" + e.rawRecordLocator, q.dataSourceId, e.rawPayloadHash))
  }

  function IdentifierRow(q: Request, security: Security, first: Evidence): Version<IdentifierVersion>
  {
    Version(
      Text.Join(["identifier", q.dataSourceId, security.securityId, "ticker", security.ticker, security.mic, Text.Sprint(first.effectiveAt)]),
      CanonicalTime(first.availableAt), 0, CanonicalTime(first.recordedAt),
      IdentifierVersion(
        security.securityId, "ticker", security.ticker, security.ticker, security.mic, Interval(CanonicalTime(first.effectiveAt), None),
        q.source + "/" + first.rawRecordLocator, q.dataSourceId, first.rawPayloadHash, security.primaryListing))
  }

  function ListingRow(q: Request, security: Security, first: Evidence): Version<ListingVersion>
  {
    Version(
      Text.Join(["listing", q.dataSourceId, security.securityId, security.mic, Text.Sprint(first.effectiveAt)]),
      CanonicalTime(first.availableAt), 0, CanonicalTime(first.recordedAt),
      ListingVersion(
        security.securityId, Some(security.issuerId), security.exchange, security.mic, security.currency, security.primaryListing,
        Interval(CanonicalTime(first.effectiveAt), None), q.source + "/" + first.rawRecordLocator, q.dataSourceId, first.rawPayloadHash))
  }

  function MembershipRows(q: Request, security: Security, log: seq<Evidence>): seq<Version<Membership>>
  {
    seq(|log|, i requires 0 <= i < |log| => MembershipRow(q, security, log[i], i))
  }

  function TickerBatch(q: Request, ticker: string): Batch
    requires TickerAccepted(q, ticker)
  {
    var security, log := FindSecurity(q.universe, ticker).value, Log(q.evidence, ticker);
    Batch([IdentifierRow(q, security, log[0])], [ListingRow(q, security, log[0])], MembershipRows(q, security, log))
  }

  function Append(a: Batch, b: Batch): Batch
  {
    Batch(a.identifiers + b.identifiers, a.listings + b.listings, a.memberships + b.memberships)
  }

  /** The rows of the first `n` requested tickers. */
  function Compiled(q: Request, n: nat): Batch
    requires n <= |q.tickers| && Accepted(q)
  {
    if n == 0 then Batch([], [], []) else Append(Compiled(q, n - 1), TickerBatch(q, q.tickers[n - 1]))
  }

  function Ignored(evidence: seq<Evidence>, tickers: seq<string>): nat
  {
    if evidence == [] then 0
    else Ignored(evidence[..|evidence| - 1], tickers) + if evidence[|evidence| - 1].ticker in tickers then 0 else 1
  }

  // ---------- the compiler ----------

  /** sort.Slice by effective then available time; equal times may come out either way. */
  method Arrange(events: seq<Evidence>) returns (arranged: seq<Evidence>)
    ensures multiset(arranged) == multiset(events) && Sorted(Earlier, arranged)
  {
    SortedByTime(events);
    return SortBy(Earlier, events);
  }

  method MapSecurities(q: Request) returns (r: Result<map<string, Security>, CompileError>)
    ensures r.Ok? <==> Unambiguous(q.universe, q.tickers)
    ensures r.Ok? ==> forall t :: t in q.tickers ==> (t in r.value <==> FindSecurity(q.universe, t).Some?)
    ensures r.Ok? ==> forall t :: t in q.tickers && t in r.value ==> FindSecurity(q.universe, t) == Some(r.value[t])
  {
    var securityByTicker: map<string, Security> := map[];
    for i := 0 to |q.universe|
      invariant forall t :: t in securityByTicker ==> t in q.tickers
      invariant forall t :: t in q.tickers ==> (t in securityByTicker <==> FindSecurity(q.universe[..i], t).Some?)
      invariant forall t :: t in securityByTicker ==> FindSecurity(q.universe[..i], t) == Some(securityByTicker[t])
      invariant Unambiguous(q.universe[..i], q.tickers)
    {
      var security := q.universe[i];
      assert q.universe[..i + 1][..i] == q.universe[..i];
      assert q.universe[..i + 1] == q.universe[..i] + [security];
      if security.ticker in q.tickers {
        if security.ticker in securityByTicker {
          var s := securityByTicker[security.ticker];
          assert s in q.universe[..i];
          var k :| 0 <= k < i && q.universe[k] == s;
          return Err(AmbiguousMapping(security.ticker));
        }
        forall k | 0 <= k < i ensures q.universe[k].ticker != security.ticker {
          assert q.universe[k] in q.universe[..i];
        }
        securityByTicker := securityByTicker[security.ticker := security];
      }
    }
    assert q.universe[..|q.universe|] == q.universe;
    return Ok(securityByTicker);
  }

  method GroupEvidence(q: Request) returns (byTicker: map<string, seq<Evidence>>, ignored: nat)
    ensures ignored == Ignored(q.evidence, q.tickers)
    ensures forall t :: t in q.tickers ==> EventsOf(q.evidence, t) == if t in byTicker then byTicker[t] else []
  {
    byTicker, ignored := map[], 0;
    for i := 0 to |q.evidence|
      invariant ignored == Ignored(q.evidence[..i], q.tickers)
      invariant forall t :: t in q.tickers ==> EventsOf(q.evidence[..i], t) == if t in byTicker then byTicker[t] else []
    {
      var event := q.evidence[i];
      assert q.evidence[..i + 1][..i] == q.evidence[..i];
      if event.ticker !in q.tickers {
        ignored := ignored + 1;
      } else {
        byTicker := byTicker[event.ticker := (if event.ticker in byTicker then byTicker[event.ticker] else []) + [event]];
      }
    }
    assert q.evidence[..|q.evidence|] == q.evidence;
  }

  /** The rows of one ticker, from its events in any arrangement by time. */
  method CompileTicker(q: Request, security: Security, events: seq<Evidence>) returns (r: Result<seq<Version<Membership>>, CompileError>)
    requires events != []
    ensures r.Ok? <==> security.Complete() && GoodLog(events)
    ensures r.Ok? ==> r.value == MembershipRows(q, security, events)
  {
    if !events[0].member {
      return Err(BeginsWithRemoval(security.ticker));
    }
    if !security.Complete() {
      return Err(IncompleteMapping(security.ticker));
    }
    var rows: seq<Version<Membership>> := [];
    for revision := 0 to |events|
      invariant rows == MembershipRows(q, security, events[..revision])
      invariant forall i :: 0 < i < revision ==> Follows(events[i - 1], events[i])
      invariant forall i :: 0 <= i < revision ==> events[i].Complete()
    {
      var event := events[revision];
      if revision > 0 {
        var previous := events[revision - 1];
        if previous.member == event.member {
          return Err(RepeatsMember(security.ticker));
        }
        if !(event.effectiveAt > previous.effectiveAt) || !(event.availableAt > previous.availableAt) {
          return Err(NotChronological(security.ticker));
        }
      }
      if !event.Complete() {
        return Err(IncompleteEvidence(security.ticker));
      }
      rows := rows + [MembershipRow(q, security, event, revision)];
    }
    assert events[..|events|] == events;
    return Ok(rows);
  }

  method CompileRequested(q: Request, securities: map<string, Security>, byTicker: map<string, seq<Evidence>>, ticker: string) returns (r: Result<Batch, CompileError>)
    requires ticker in securities <==> FindSecurity(q.universe, ticker).Some?
    requires ticker in securities ==> FindSecurity(q.universe, ticker) == Some(securities[ticker])
    requires EventsOf(q.evidence, ticker) == if ticker in byTicker then byTicker[ticker] else []
    ensures r.Ok? <==> TickerAccepted(q, ticker)
    ensures r.Ok? ==> r.value == TickerBatch(q, ticker)
  {
    hide GoodLog, SortBy, FindSecurity, EventsOf, MembershipRows;
    if ticker !in securities {
      return Err(NoMapping(ticker));
    }
    if ticker !in byTicker || byTicker[ticker] == [] {
      EmptyLog(q.evidence, ticker);
      return Err(NoSourceEvent(ticker));
    }
    var security := securities[ticker];
    var events := Arrange(byTicker[ticker]);
    SameMembers(events, byTicker[ticker]);
    ArrangementIrrelevant(byTicker[ticker], events);
    var rows := CompileTicker(q, security, events);
    if rows.Err? {
      return Err(rows.error);
    }
    return Ok(Batch([IdentifierRow(q, security, events[0])], [ListingRow(q, security, events[0])], rows.value));
  }

  method MembershipHistoricalTruthBatch(q: Request) returns (r: Result<Batch, CompileError>, ignored: nat)
    ensures r.Ok? <==> Accepted(q)
    ensures r.Ok? ==> r.value == Compiled(q, |q.tickers|) && ignored == Ignored(q.evidence, q.tickers)
  {
    hide TickerAccepted, TickerBatch, Append, Ignored, FindSecurity, EventsOf, Unambiguous;
    var securities := MapSecurities(q);
    if securities.Err? {
      return Err(securities.error), 0;
    }
    var byTicker;
    byTicker, ignored := GroupEvidence(q);
    var batch := Batch([], [], []);
    for n := 0 to |q.tickers|
      invariant forall i :: 0 <= i < n ==> TickerAccepted(q, q.tickers[i])
      invariant Accepted(q) ==> batch == Compiled(q, n)
    {
      var rows := CompileRequested(q, securities.value, byTicker, q.tickers[n]);
      if rows.Err? {
        return Err(rows.error), ignored;
      }
      batch := Append(batch, rows.value);
    }
    return Ok(batch), ignored;
  }

  lemma EmptyLog(evidence: seq<Evidence>, ticker: string)
    requires EventsOf(evidence, ticker) == []
    ensures !GoodLog(Log(evidence, ticker))
  {
  }

  // ---------- replay ----------

  predicate Known(e: Evidence, asOf: int, decisionAt: int)
  {
    e.effectiveAt <= asOf && e.availableAt <= decisionAt
  }

  /** Plays the events in order, ignoring those not yet effective or not yet available. */
  function Replay(log: seq<Evidence>, asOf: int, decisionAt: int): bool
  {
    if log == [] then false
    else
      var last := log[|log| - 1];
      if Known(last, asOf, decisionAt) then last.member else Replay(log[..|log| - 1], asOf, decisionAt)
  }

  function StoredLog(log: seq<Evidence>): seq<Evidence>
  {
    seq(|log|, i requires 0 <= i < |log| => log[i].Stored())
  }

  predicate IsLastKnown(log: seq<Evidence>, asOf: int, decisionAt: int, k: nat)
  {
    k < |log| && Known(log[k], asOf, decisionAt) && forall j :: k < j < |log| ==> !Known(log[j], asOf, decisionAt)
  }

  lemma {:induction false} LastKnownDecides(log: seq<Evidence>, asOf: int, decisionAt: int, k: nat)
    requires IsLastKnown(log, asOf, decisionAt, k)
    ensures Replay(log, asOf, decisionAt) == log[k].member
    decreases |log|
  {
    if k < |log| - 1 {
      LastKnownDecides(log[..|log| - 1], asOf, decisionAt, k);
    }
  }

  lemma {:induction false} ReplayMeansLastKnown(log: seq<Evidence>, asOf: int, decisionAt: int) returns (k: nat)
    requires Replay(log, asOf, decisionAt)
    ensures IsLastKnown(log, asOf, decisionAt, k)
    decreases |log|
  {
    k := |log| - 1;
    if !Known(log[k], asOf, decisionAt) {
      k := ReplayMeansLastKnown(log[..|log| - 1], asOf, decisionAt);
    }
  }

  // ---------- compiled rows under resolution ----------

  ghost predicate RowOf(q: Request, v: Version<Membership>, t: string, i: nat)
  {
    && t in q.tickers
    && FindSecurity(q.universe, t).Some?
    && i < |Log(q.evidence, t)|
    && v == MembershipRow(q, FindSecurity(q.universe, t).value, Log(q.evidence, t)[i], i)
  }

  ghost predicate TickerRow(q: Request, v: Version<Membership>, t: string)
  {
    exists i: nat :: RowOf(q, v, t, i)
  }

  lemma TickerRows(q: Request, t: string, v: Version<Membership>)
    requires TickerAccepted(q, t) && t in q.tickers
    ensures v in TickerBatch(q, t).memberships <==> TickerRow(q, v, t)
  {
    hide SortBy, EventsOf, FindSecurity, GoodLog, MembershipRow;
    var security, log := FindSecurity(q.universe, t).value, Log(q.evidence, t);
    var rows := MembershipRows(q, security, log);
    if v in rows {
      var i :| 0 <= i < |log| && rows[i] == v;
      assert RowOf(q, v, t, i);
    }
    if i: nat :| RowOf(q, v, t, i) {
      assert rows[i] == v;
    }
  }

  lemma {:induction false} CompiledRows(q: Request, n: nat, v: Version<Membership>)
    requires Accepted(q) && n <= |q.tickers|
    ensures v in Compiled(q, n).memberships <==> exists k :: 0 <= k < n && TickerRow(q, v, q.tickers[k])
  {
    hide TickerRow, TickerAccepted, TickerBatch, Unambiguous;
    if n > 0 {
      CompiledRows(q, n - 1, v);
      TickerRows(q, q.tickers[n - 1], v);
      assert Compiled(q, n).memberships == Compiled(q, n - 1).memberships + TickerBatch(q, q.tickers[n - 1]).memberships;
    }
  }

  /** What the query returns at `decisionAt`: the compiled rows available by then, once each, in any order. */
  ghost predicate VisibleRows(q: Request, decisionAt: int, records: seq<Version<Membership>>)
    requires Accepted(q)
  {
    && (forall v :: v in records <==> v in Compiled(q, |q.tickers|).memberships && v.availableAt <= decisionAt)
    && (forall i, j :: 0 <= i < j < |records| ==> records[i] != records[j])
  }

  /** Security identifiers are unique in a validated configuration, and no text the names join holds a separator. */
  predicate WellFormed(q: Request)
  {
    && (forall i, j :: 0 <= i < j < |q.universe| ==> q.universe[i].securityId != q.universe[j].securityId)
    && (forall i :: 0 <= i < |q.universe| ==> Text.Plain(q.universe[i].securityId))
    && Text.Plain(q.dataSourceId) && Text.Plain(q.universeId)
  }

  lemma SameSecuritySameTicker(q: Request, t: string, u: string)
    requires WellFormed(q) && FindSecurity(q.universe, t).Some? && FindSecurity(q.universe, u).Some?
    requires FindSecurity(q.universe, t).value.securityId == FindSecurity(q.universe, u).value.securityId
    ensures t == u
  {
    var a, b := FindSecurity(q.universe, t).value, FindSecurity(q.universe, u).value;
    var i :| 0 <= i < |q.universe| && q.universe[i] == a;
    var j :| 0 <= j < |q.universe| && q.universe[j] == b;
  }

  lemma NamesIdentifyEvents(q: Request, s: string, e: Evidence, u: string, f: Evidence)
    requires Text.Plain(q.dataSourceId) && Text.Plain(q.universeId) && Text.Plain(s) && Text.Plain(u)
    requires MembershipName(q, s, e) == MembershipName(q, u, f)
    ensures s == u && e.effectiveAt == f.effectiveAt && e.member == f.member
  {
    Text.SprintPlain(e.effectiveAt);
    Text.SprintPlain(f.effectiveAt);
    var a := ["membership", q.dataSourceId, q.universeId, s, Text.Sprint(e.effectiveAt), if e.member then "true" else "false"];
    var b := ["membership", q.dataSourceId, q.universeId, u, Text.Sprint(f.effectiveAt), if f.member then "true" else "false"];
    hide Text.Join, Text.Sprint;
    Text.JoinInjective(a, b);
    assert a[3] == b[3] && a[4] == b[4] && a[5] == b[5];
    Text.SprintInjective(e.effectiveAt, f.effectiveAt);
  }

  /** Inside one log later rows outrank earlier ones and start no earlier. */
  lemma RowsRise(q: Request, security: Security, log: seq<Evidence>, i: nat, j: nat)
    requires GoodLog(log) && i < j < |log|
    ensures LaterRank(MembershipRow(q, security, log[j], j), MembershipRow(q, security, log[i], i))
    ensures CanonicalTime(log[i].effectiveAt) <= CanonicalTime(log[j].effectiveAt)
  {
    LogRises(log, i, j);
    CanonicalMonotone(log[i].effectiveAt, log[j].effectiveAt);
    CanonicalMonotone(log[i].availableAt, log[j].availableAt);
  }

  lemma VisibleRowOf(q: Request, decisionAt: int, records: seq<Version<Membership>>, v: Version<Membership>) returns (t: string, i: nat)
    requires Accepted(q) && VisibleRows(q, decisionAt, records) && v in records
    ensures RowOf(q, v, t, i) && TickerAccepted(q, t) && v.availableAt <= decisionAt
  {
    hide TickerAccepted, RowOf, Compiled;
    CompiledRows(q, |q.tickers|, v);
    var k :| 0 <= k < |q.tickers| && TickerRow(q, v, q.tickers[k]);
    var n: nat :| RowOf(q, v, q.tickers[k], n);
    t, i := q.tickers[k], n;
    assert TickerAccepted(q, q.tickers[k]);
  }

  lemma RowIsVisible(q: Request, decisionAt: int, records: seq<Version<Membership>>, v: Version<Membership>, t: string, i: nat)
    requires Accepted(q) && VisibleRows(q, decisionAt, records) && RowOf(q, v, t, i) && v.availableAt <= decisionAt
    ensures v in records
  {
    CompiledRows(q, |q.tickers|, v);
    var k :| 0 <= k < |q.tickers| && q.tickers[k] == t;
    assert RowOf(q, v, q.tickers[k], i) && TickerRow(q, v, q.tickers[k]);
  }

  /** Rows of one security come from one log, in rank order. */
  lemma SameSecurityRows(q: Request, decisionAt: int, records: seq<Version<Membership>>, v: Version<Membership>, t: string, i: nat, w: Version<Membership>) returns (j: nat)
    requires WellFormed(q) && Accepted(q) && VisibleRows(q, decisionAt, records)
    requires RowOf(q, v, t, i) && TickerAccepted(q, t) && w in records && w.payload.securityId == v.payload.securityId
    ensures RowOf(q, w, t, j)
    ensures i == j ==> v == w
    ensures i < j ==> LaterRank(w, v) && v.payload.interval.validFrom <= w.payload.interval.validFrom
    ensures j < i ==> LaterRank(v, w) && w.payload.interval.validFrom <= v.payload.interval.validFrom
  {
    hide GoodLog, SortBy, EventsOf, FindSecurity;
    var u;
    u, j := VisibleRowOf(q, decisionAt, records, w);
    SameSecuritySameTicker(q, t, u);
    var security, log := FindSecurity(q.universe, t).value, Log(q.evidence, t);
    if i < j { RowsRise(q, security, log, i, j); }
    if j < i { RowsRise(q, security, log, j, i); }
  }

  lemma VisibleIdsDistinct(q: Request, decisionAt: int, records: seq<Version<Membership>>)
    requires WellFormed(q) && Accepted(q) && VisibleRows(q, decisionAt, records)
    ensures DistinctIds(records)
  {
    forall a, b | 0 <= a < b < |records| ensures records[a].id != records[b].id {
      var t, i := VisibleRowOf(q, decisionAt, records, records[a]);
      var u, k := VisibleRowOf(q, decisionAt, records, records[b]);
      var security, log := FindSecurity(q.universe, t).value, Log(q.evidence, t);
      var other, logU := FindSecurity(q.universe, u).value, Log(q.evidence, u);
      hide GoodLog, SortBy, EventsOf, FindSecurity, MembershipName, Text.Plain;
      if records[a].id == records[b].id {
        NamesIdentifyEvents(q, security.securityId, log[i], other.securityId, logU[k]);
        var j := SameSecurityRows(q, decisionAt, records, records[a], t, i, records[b]);
        SameSecuritySameTicker(q, t, u);
        if i < k { LogRises(log, i, k); }
        if k < i { LogRises(log, k, i); }
      }
    }
  }

  lemma VisibleRowsNeverTie(q: Request, asOf: int, decisionAt: int, records: seq<Version<Membership>>)
    requires WellFormed(q) && Accepted(q) && VisibleRows(q, decisionAt, records)
    ensures NoTies(MembershipFamilies(), records)
    ensures NoCandidateTies(MembershipFamilies(), MembershipWinner(), records, ValidAt(asOf))
  {
    forall a, b | a in records && b in records ensures a.payload.securityId == b.payload.securityId && SameRank(a, b) ==> a == b {
      SameRankSameRow(q, decisionAt, records, a, b);
    }
    hide VisibleRows, Accepted, WellFormed, SameRank;
    forall a, b | a in records && b in records ensures !Disagree(MembershipFamilies(), a, b) {
    }
    forall a, b ensures !CandidateTie(MembershipFamilies(), MembershipWinner(), records, ValidAt(asOf), a, b) {
    }
  }

  lemma SameRankSameRow(q: Request, decisionAt: int, records: seq<Version<Membership>>, a: Version<Membership>, b: Version<Membership>)
    requires WellFormed(q) && Accepted(q) && VisibleRows(q, decisionAt, records) && a in records && b in records
    ensures a.payload.securityId == b.payload.securityId && SameRank(a, b) ==> a == b
  {
    if a.payload.securityId == b.payload.securityId {
      hide VisibleRows, Accepted, WellFormed, TickerAccepted, RowOf;
      var t, i := VisibleRowOf(q, decisionAt, records, a);
      var j := SameSecurityRows(q, decisionAt, records, a, t, i, b);
    }
  }

  // ---------- resolution is replay ----------

  lemma {:induction false} LastKnownExists(log: seq<Evidence>, asOf: int, decisionAt: int, i: nat) returns (k: nat)
    requires i < |log| && Known(log[i], asOf, decisionAt)
    ensures IsLastKnown(log, asOf, decisionAt, k)
    decreases |log| - i
  {
    if j: nat :| i < j < |log| && Known(log[j], asOf, decisionAt) {
      k := LastKnownExists(log, asOf, decisionAt, j);
    } else {
      k := i;
    }
  }

  function StoredLogOf(q: Request, t: string): seq<Evidence>
  {
    StoredLog(Log(q.evidence, t))
  }

  /** The last event known at the two instants is the version the resolver selects. */
  lemma LastKnownSelected(q: Request, asOf: int, decisionAt: int, records: seq<Version<Membership>>, t: string, k: nat) returns (v: Version<Membership>)
    requires WellFormed(q) && Accepted(q) && VisibleRows(q, decisionAt, records)
    requires t in q.tickers && TickerAccepted(q, t) && IsLastKnown(StoredLogOf(q, t), asOf, decisionAt, k)
    ensures RowOf(q, v, t, k)
    ensures Selected(MembershipFamilies(), MembershipWinner(), records, ValidAt(asOf), v)
  {
    v := MembershipRow(q, FindSecurity(q.universe, t).value, Log(q.evidence, t)[k], k);
    assert RowOf(q, v, t, k);
    RowIsVisible(q, decisionAt, records, v, t, k);
    forall w | w in records && w.payload.securityId == v.payload.securityId
      ensures w.payload.interval.Contains(asOf) && w != v ==> Beats(v, w)
      ensures w.payload.interval.validFrom == v.payload.interval.validFrom && w != v ==> Beats(v, w)
    {
      OthersLose(q, asOf, decisionAt, records, t, k, v, w);
    }
    hide VisibleRows, Accepted, WellFormed, Beats, TickerAccepted, IsLastKnown, RowOf, Log;
    assert v.payload.interval.Contains(asOf);
    assert Holder(MembershipFamilies(), records, v);
    assert Candidate(MembershipFamilies(), records, ValidAt(asOf), v);
  }

  lemma OthersLose(q: Request, asOf: int, decisionAt: int, records: seq<Version<Membership>>, t: string, k: nat, v: Version<Membership>, w: Version<Membership>)
    requires WellFormed(q) && Accepted(q) && VisibleRows(q, decisionAt, records)
    requires TickerAccepted(q, t) && RowOf(q, v, t, k) && IsLastKnown(StoredLogOf(q, t), asOf, decisionAt, k)
    requires w in records && w.payload.securityId == v.payload.securityId
    ensures w.payload.interval.Contains(asOf) && w != v ==> Beats(v, w)
    ensures w.payload.interval.validFrom == v.payload.interval.validFrom && w != v ==> Beats(v, w)
  {
    hide VisibleRows, Accepted, WellFormed, TickerAccepted, GoodLog, SortBy, EventsOf, FindSecurity;
    var j := SameSecurityRows(q, decisionAt, records, v, t, k, w);
    VisibleAvailable(q, decisionAt, records, w);
    if k < j {
      assert !Known(StoredLogOf(q, t)[j], asOf, decisionAt);
    }
  }

  lemma VisibleAvailable(q: Request, decisionAt: int, records: seq<Version<Membership>>, w: Version<Membership>)
    requires Accepted(q) && VisibleRows(q, decisionAt, records) && w in records
    ensures w.availableAt <= decisionAt
  {
  }

  ghost predicate ReplaysIn(q: Request, asOf: int, decisionAt: int, s: string)
  {
    exists t :: t in q.tickers && FindSecurity(q.universe, t).Some? && FindSecurity(q.universe, t).value.securityId == s &&
                Replay(StoredLogOf(q, t), asOf, decisionAt)
  }

  lemma ReplayedIsMember(q: Request, asOf: int, decisionAt: int, records: seq<Version<Membership>>, s: string)
    requires WellFormed(q) && Accepted(q) && VisibleRows(q, decisionAt, records) && ReplaysIn(q, asOf, decisionAt, s)
    ensures InUniverse(records, asOf, s)
  {
    var t :| t in q.tickers && FindSecurity(q.universe, t).Some? && FindSecurity(q.universe, t).value.securityId == s &&
             Replay(StoredLogOf(q, t), asOf, decisionAt);
    assert TickerAccepted(q, t);
    hide VisibleRows, WellFormed, Accepted, TickerAccepted, Selected, Log, FindSecurity, Replay;
    var k := ReplayMeansLastKnown(StoredLogOf(q, t), asOf, decisionAt);
    LastKnownDecides(StoredLogOf(q, t), asOf, decisionAt, k);
    var v := LastKnownSelected(q, asOf, decisionAt, records, t, k);
  }

  lemma MemberIsReplayed(q: Request, asOf: int, decisionAt: int, records: seq<Version<Membership>>, s: string)
    requires WellFormed(q) && Accepted(q) && VisibleRows(q, decisionAt, records) && InUniverse(records, asOf, s)
    ensures ReplaysIn(q, asOf, decisionAt, s)
  {
    hide VisibleRows, WellFormed, Accepted, TickerAccepted, Log, FindSecurity, Replay, Beats;
    var v :| Selected(MembershipFamilies(), MembershipWinner(), records, ValidAt(asOf), v) && v.payload.securityId == s && v.payload.member;
    assert v in records && v.payload.interval.Contains(asOf);
    var t, i := VisibleRowOf(q, decisionAt, records, v);
    hide Selected;
    assert Known(StoredLogOf(q, t)[i], asOf, decisionAt);
    var k := LastKnownExists(StoredLogOf(q, t), asOf, decisionAt, i);
    LastKnownDecides(StoredLogOf(q, t), asOf, decisionAt, k);
    var w := LastKnownSelected(q, asOf, decisionAt, records, t, k);
    SelectedUnique(MembershipFamilies(), MembershipWinner(), records, ValidAt(asOf), v, w);
  }

  /**
   The compiled rows, whatever order a query returns them in, resolve without
   failure to exactly the securities whose events, replayed in order from what had
   taken effect by `asOf` and was available by `decisionAt`, end inside the index.
   */
  lemma ResolutionIsReplay(q: Request, asOf: int, decisionAt: int, records: seq<Version<Membership>>)
    requires WellFormed(q) && Accepted(q) && VisibleRows(q, decisionAt, records)
    ensures DistinctIds(records)
    ensures NoTies(MembershipFamilies(), records)
    ensures NoCandidateTies(MembershipFamilies(), MembershipWinner(), records, ValidAt(asOf))
    ensures forall s :: InUniverse(records, asOf, s) <==> ReplaysIn(q, asOf, decisionAt, s)
  {
    VisibleIdsDistinct(q, decisionAt, records);
    VisibleRowsNeverTie(q, asOf, decisionAt, records);
    hide *;
    forall s ensures InUniverse(records, asOf, s) <==> ReplaysIn(q, asOf, decisionAt, s) {
      if InUniverse(records, asOf, s) {
        MemberIsReplayed(q, asOf, decisionAt, records, s);
      }
      if ReplaysIn(q, asOf, decisionAt, s) {
        ReplayedIsMember(q, asOf, decisionAt, records, s);
      }
    }
  }

  // ---------- when rounding is visible ----------

  predicate WholeMicros(log: seq<Evidence>)
  {
    forall i :: 0 <= i < |log| ==> log[i].effectiveAt % MICRO == 0 && log[i].availableAt % MICRO == 0
  }

  /** Stored and exact times replay alike at every pair of instants. */
  ghost predicate RoundingInvisible(log: seq<Evidence>)
  {
    forall asOf, decisionAt :: Replay(StoredLog(log), asOf, decisionAt) == Replay(log, asOf, decisionAt)
  }

  lemma WholeMicrosUnchanged(log: seq<Evidence>)
    requires WholeMicros(log)
    ensures StoredLog(log) == log
  {
  }

  function TimeOf(e: Evidence, byAvailability: bool): int
  {
    if byAvailability then e.availableAt else e.effectiveAt
  }

  /** Past every event of the log. */
  function Far(log: seq<Evidence>): int
    requires log != []
  {
    var last := log[|log| - 1];
    if last.effectiveAt < last.availableAt then last.availableAt else last.effectiveAt
  }

  /** The replay limited in one time only. */
  function ReplayTo(log: seq<Evidence>, far: int, byAvailability: bool, limit: int): bool
  {
    if byAvailability then Replay(log, far, limit) else Replay(log, limit, far)
  }

  lemma LastWithin(log: seq<Evidence>, far: int, byAvailability: bool, limit: int, k: nat)
    requires k < |log| && TimeOf(log[k], byAvailability) <= limit
    requires forall j :: k < j < |log| ==> limit < TimeOf(log[j], byAvailability)
    requires forall j :: 0 <= j < |log| ==> log[j].effectiveAt <= far && log[j].availableAt <= far
    ensures ReplayTo(log, far, byAvailability, limit) == log[k].member
  {
    if byAvailability {
      LastKnownDecides(log, far, limit, k);
    } else {
      LastKnownDecides(log, limit, far, k);
    }
  }

  lemma {:induction false} NoneWithin(log: seq<Evidence>, far: int, byAvailability: bool, limit: int)
    requires forall j :: 0 <= j < |log| ==> limit < TimeOf(log[j], byAvailability)
    ensures !ReplayTo(log, far, byAvailability, limit)
    decreases |log|
  {
    if log != [] {
      NoneWithin(log[..|log| - 1], far, byAvailability, limit);
    }
  }

  lemma FarIsPast(log: seq<Evidence>)
    requires GoodLog(log)
    ensures forall j :: 0 <= j < |log| ==> log[j].effectiveAt <= Far(log) && log[j].availableAt <= Far(log)
  {
    forall j | 0 <= j < |log| ensures log[j].effectiveAt <= Far(log) && log[j].availableAt <= Far(log) {
      if j < |log| - 1 {
        LogRises(log, j, |log| - 1);
      }
    }
  }

  lemma StoredTimes(log: seq<Evidence>, byAvailability: bool)
    requires GoodLog(log)
    ensures forall j :: 0 <= j < |log| ==> TimeOf(StoredLog(log)[j], byAvailability) == CanonicalTime(TimeOf(log[j], byAvailability))
    ensures forall i, j :: 0 <= i < j < |log| ==> TimeOf(log[i], byAvailability) < TimeOf(log[j], byAvailability)
    ensures forall i, j :: 0 <= i < j < |log| ==> TimeOf(StoredLog(log)[i], byAvailability) <= TimeOf(StoredLog(log)[j], byAvailability)
    ensures forall j :: 0 <= j < |log| ==> StoredLog(log)[j].effectiveAt <= Far(log) && StoredLog(log)[j].availableAt <= Far(log)
  {
    FarIsPast(log);
    forall i, j | 0 <= i < j < |log|
      ensures TimeOf(log[i], byAvailability) < TimeOf(log[j], byAvailability)
      ensures TimeOf(StoredLog(log)[i], byAvailability) <= TimeOf(StoredLog(log)[j], byAvailability)
    {
      LogRises(log, i, j);
      CanonicalMonotone(TimeOf(log[i], byAvailability), TimeOf(log[j], byAvailability));
    }
  }

  /** The last event that shares the rounded time of event `i`. */
  lemma LastRounded(log: seq<Evidence>, byAvailability: bool, i: nat) returns (m: nat)
    requires GoodLog(log) && i < |log|
    ensures i <= m < |log|
    ensures forall limit :: TimeOf(StoredLog(log)[i], byAvailability) <= limit < TimeOf(StoredLog(log)[i], byAvailability) + MICRO ==>
                              ReplayTo(StoredLog(log), Far(log), byAvailability, limit) == log[m].member
  {
    StoredTimes(log, byAvailability);
    var stored, rounded := StoredLog(log), TimeOf(StoredLog(log)[i], byAvailability);
    m := i;
    while m + 1 < |log| && TimeOf(stored[m + 1], byAvailability) == rounded
      invariant i <= m < |log| && TimeOf(stored[m], byAvailability) == rounded
    {
      m := m + 1;
    }
    forall limit | rounded <= limit < rounded + MICRO ensures ReplayTo(stored, Far(log), byAvailability, limit) == log[m].member {
      forall j | m < j < |log| ensures limit < TimeOf(stored[j], byAvailability) {
        assert rounded < TimeOf(stored[m + 1], byAvailability) <= TimeOf(stored[j], byAvailability);
        NextMicro(rounded, TimeOf(stored[j], byAvailability));
      }
      LastWithin(stored, Far(log), byAvailability, limit, m);
    }
  }

  lemma NextMicro(a: int, b: int)
    requires a < b && a % MICRO == 0 && b % MICRO == 0
    ensures a + MICRO <= b
  {
  }

  /** A first fractional time makes some pair of instants tell stored from exact replay. */
  lemma FractionShows(log: seq<Evidence>, byAvailability: bool, i: nat)
    requires GoodLog(log) && i < |log| && TimeOf(log[i], byAvailability) % MICRO != 0
    requires forall j :: 0 <= j < i ==> TimeOf(log[j], byAvailability) % MICRO == 0
    ensures !RoundingInvisible(log)
  {
    StoredTimes(log, byAvailability);
    FarIsPast(log);
    var m := LastRounded(log, byAvailability, i);
    var far, exact := Far(log), TimeOf(log[i], byAvailability);
    var rounded := CanonicalTime(exact);
    var limit := if log[m].member == log[i].member then rounded else exact;
    assert ReplayTo(StoredLog(log), far, byAvailability, limit) == log[m].member;
    if log[m].member != log[i].member {
      LastWithin(log, far, byAvailability, exact, i);
    } else if i == 0 {
      NoneWithin(log, far, byAvailability, rounded);
    } else {
      assert Follows(log[i - 1], log[i]);
      CanonicalMonotone(TimeOf(log[i - 1], byAvailability), exact);
      LastWithin(log, far, byAvailability, rounded, i - 1);
    }
    assert ReplayTo(StoredLog(log), far, byAvailability, limit) != ReplayTo(log, far, byAvailability, limit);
  }

  /** Rounding to microseconds changes no answer exactly when every event time is whole. */
  lemma RoundingInvisibleIffWhole(log: seq<Evidence>)
    requires GoodLog(log)
    ensures RoundingInvisible(log) <==> WholeMicros(log)
  {
    if WholeMicros(log) {
      WholeMicrosUnchanged(log);
    } else if i :| 0 <= i < |log| && log[i].effectiveAt % MICRO != 0 {
      var first := FirstFraction(log, false, i);
      FractionShows(log, false, first);
    } else {
      var i :| 0 <= i < |log| && log[i].availableAt % MICRO != 0;
      var first := FirstFraction(log, true, i);
      FractionShows(log, true, first);
    }
  }

  lemma {:induction false} FirstFraction(log: seq<Evidence>, byAvailability: bool, i: nat) returns (first: nat)
    requires i < |log| && TimeOf(log[i], byAvailability) % MICRO != 0
    ensures first < |log| && TimeOf(log[first], byAvailability) % MICRO != 0
    ensures forall j :: 0 <= j < first ==> TimeOf(log[j], byAvailability) % MICRO == 0
    decreases i
  {
    if j: nat :| j < i && TimeOf(log[j], byAvailability) % MICRO != 0 {
      first := FirstFraction(log, byAvailability, j);
    } else {
      first := i;
    }
  }

  // ---------- listing corrections ----------

  /** What listingHistoryBatch publishes for a delisting notice: revision one of a base identifier, closed. */
  datatype Delisting = Delisting(security: Security, validFrom: int, validUntil: int, availableAt: int, recordedAt: int, rawRecordLocator: string, rawPayloadHash: string)

  function CorrectionRow(dataSourceId: string, e: Delisting): Version<IdentifierVersion>
  {
    var validUntil := CanonicalTime(e.validUntil);
    Version(
      Text.Join(["identifier-correction", dataSourceId, e.security.securityId, "ticker", e.security.ticker, e.security.mic, Text.Sprint(e.validFrom), Text.Sprint(validUntil), "1"]),
      CanonicalTime(e.availableAt), 1, CanonicalTime(e.recordedAt),
      IdentifierVersion(
        e.security.securityId, "ticker", e.security.ticker, e.security.ticker, e.security.mic,
        Interval(CanonicalTime(e.validFrom), Some(validUntil)), "b3/" + e.rawRecordLocator, dataSourceId, e.rawPayloadHash, e.security.primaryListing))
  }

  /** The published base row that a correction names: same family, open ended, revision zero. */
  predicate BaseOf(base: Version<IdentifierVersion>, correction: Version<IdentifierVersion>)
  {
    && FamilyOfIdentifier(base.payload) == FamilyOfIdentifier(correction.payload)
    && base.revision == 0 && base.payload.interval.validUntil == None && base.id != correction.id
  }

  /**
   Once a correction is available it decides, exactly when it is not available
   earlier than the base row; otherwise the open-ended base goes on resolving.
   */
  lemma CorrectionDecides(dataSourceId: string, base: Version<IdentifierVersion>, e: Delisting, v: Version<IdentifierVersion>)
    requires BaseOf(base, CorrectionRow(dataSourceId, e))
    ensures var correction := CorrectionRow(dataSourceId, e);
            Holder(IdentifierFamilies(), [base, correction], v) <==> v == if correction.availableAt >= base.availableAt then correction else base
    ensures NoTies(IdentifierFamilies(), [base, CorrectionRow(dataSourceId, e)])
  {
    var correction := CorrectionRow(dataSourceId, e);
    hide Text.Join, CanonicalTime;
    var records := [base, correction];
    assert records[0] == base && records[1] == correction;
    BeatsOrder(base, correction, base);
    BeatsOrder(base, base, base);
    BeatsOrder(correction, correction, base);
    assert correction.revision == 1;
  }
}
