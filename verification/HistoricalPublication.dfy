/**
 Collecting index membership notices again and again: when a recompiled log can still
 be published over what earlier runs published, and what the universe then resolves to.
 */
module HistoricalPublication {
  import opened Wrappers
  import opened Instants
  import opened Patterns
  import opened Sorting
  import opened Versions
  import opened Historical
  import opened Compilers
  import opened ImmutableTables
  import opened HistoricalTruth
  import Calendars
  import Manifests
  import Text

  /** The compiled rows as a publication unit. */
  function Truth(q: Request): TruthBatch
    requires Accepted(q)
  {
    var b := Compiled(q, |q.tickers|);
    TruthBatch(b.identifiers, b.listings, b.memberships, [], [], [])
  }

  // ---------- compiled rows in their tables ----------

  lemma CanonicalRows(q: Request, security: Security, e: Evidence, i: nat)
    ensures StoredMembership(MembershipRow(q, security, e, i)) == MembershipRow(q, security, e, i)
    ensures StoredIdentifier(IdentifierRow(q, security, e)) == IdentifierRow(q, security, e)
    ensures StoredListing(ListingRow(q, security, e)) == ListingRow(q, security, e)
  {
    hide Text.Join;
    CanonicalTwice(e.availableAt);
    CanonicalTwice(e.recordedAt);
    CanonicalTwice(e.effectiveAt);
    CanonicalTwice(e.announcedAt);
    hide CanonicalTime;
  }

  /** Compiled intervals are open-ended, so rows clash when they are about one security and carry one revision. */
  lemma CompiledClash(q: Request, a: Security, e: Evidence, i: nat, b: Security, f: Evidence, j: nat)
    ensures MembershipsClash(MembershipRow(q, a, e, i), MembershipRow(q, b, f, j)) <==> a.securityId == b.securityId && i == j
    ensures IdentifiersClash(IdentifierRow(q, a, e), IdentifierRow(q, b, f)) <==> a.mic == b.mic && a.ticker == b.ticker
    ensures ListingsClash(ListingRow(q, a, e), ListingRow(q, b, f)) <==> a.securityId == b.securityId && a.mic == b.mic
  {
    hide Text.Join, CanonicalTime;
  }

  /** Two records of one notice that the tables cannot tell apart. */
  predicate SameNotice(a: Evidence, b: Evidence)
  {
    && a.member == b.member && a.effectiveAt == b.effectiveAt && a.rawRecordLocator == b.rawRecordLocator && a.rawPayloadHash == b.rawPayloadHash
    && CanonicalTime(a.announcedAt) == CanonicalTime(b.announcedAt) && CanonicalTime(a.availableAt) == CanonicalTime(b.availableAt)
    && CanonicalTime(a.recordedAt) == CanonicalTime(b.recordedAt)
  }

  lemma SameNoticeSameRow(q: Request, security: Security, a: Evidence, b: Evidence, i: nat)
    requires Text.Plain(q.dataSourceId) && Text.Plain(q.universeId) && Text.Plain(security.securityId)
    ensures SameNotice(a, b) <==> MembershipRow(q, security, a, i) == MembershipRow(q, security, b, i)
    ensures SameNotice(a, b) ==> IdentifierRow(q, security, a) == IdentifierRow(q, security, b) && ListingRow(q, security, a) == ListingRow(q, security, b)
  {
    if MembershipRow(q, security, a, i) == MembershipRow(q, security, b, i) {
      NamesIdentifyEvents(q, security.securityId, a, security.securityId, b);
      SuffixEqual(q.source + "/", a.rawRecordLocator, b.rawRecordLocator);
    }
    hide Text.Join, CanonicalTime;
  }

  lemma SuffixEqual(head: string, a: string, b: string)
    requires head + a == head + b
    ensures a == b
  {
    assert (head + a)[|head|..] == a && (head + b)[|head|..] == b;
  }

  // ---------- the index and its book ----------

  /** The constants every run of one index shares. */
  predicate SameIndex(ix: Request, q: Request)
  {
    q.dataSourceId == ix.dataSourceId && q.source == ix.source && q.universeId == ix.universeId && q.universe == ix.universe
  }

  /** Unique securities, and no text that the names join holds a separator. */
  predicate PlainIndex(ix: Request)
  {
    WellFormed(ix) && forall i :: 0 <= i < |ix.universe| ==> Text.Plain(ix.universe[i].ticker) && Text.Plain(ix.universe[i].mic)
  }

  predicate OneMapping(universe: seq<Security>, t: string)
  {
    forall i, j :: 0 <= i < j < |universe| && universe[i].ticker == t ==> universe[j].ticker != t
  }

  /** Per ticker the longest log published so far. */
  type Book = map<string, seq<Evidence>>

  predicate InBook(ix: Request, book: Book)
  {
    forall t :: t in book ==>
      && OneMapping(ix.universe, t)
      && FindSecurity(ix.universe, t).Some? && FindSecurity(ix.universe, t).value.Complete()
      && GoodLog(book[t]) && forall i :: 0 <= i < |book[t]| ==> book[t][i].ticker == t
  }

  function SecurityOf(ix: Request, t: string): Security
    requires FindSecurity(ix.universe, t).Some?
  {
    FindSecurity(ix.universe, t).value
  }

  /** The row of event `i` of ticker `t`. */
  ghost predicate BookRow(ix: Request, book: Book, v: Version<Membership>, t: string, i: nat)
  {
    t in book && i < |book[t]| && FindSecurity(ix.universe, t).Some? && v == MembershipRow(ix, SecurityOf(ix, t), book[t][i], i)
  }

  ghost predicate BookHead(ix: Request, book: Book, t: string)
  {
    t in book && book[t] != [] && FindSecurity(ix.universe, t).Some?
  }

  ghost predicate BookedMemberships(ix: Request, t: Tables, book: Book)
  {
    forall v :: v in t.memberships.Values <==> exists s, i: nat :: BookRow(ix, book, v, s, i)
  }

  ghost predicate BookedIdentifiers(ix: Request, t: Tables, book: Book)
  {
    forall v :: v in t.identifiers.Values <==> exists s :: BookHead(ix, book, s) && v == IdentifierRow(ix, SecurityOf(ix, s), book[s][0])
  }

  ghost predicate BookedListings(ix: Request, t: Tables, book: Book)
  {
    forall v :: v in t.listings.Values <==> exists s :: BookHead(ix, book, s) && v == ListingRow(ix, SecurityOf(ix, s), book[s][0])
  }

  /** The three tables hold exactly the rows of the book. */
  ghost predicate Booked(ix: Request, t: Tables, book: Book)
  {
    BookedMemberships(ix, t, book) && BookedIdentifiers(ix, t, book) && BookedListings(ix, t, book)
  }

  /** The two logs agree, notice by notice, as far as both go. */
  predicate Compatible(a: seq<Evidence>, b: seq<Evidence>)
  {
    forall i :: 0 <= i < |a| && i < |b| ==> SameNotice(a[i], b[i])
  }

  ghost predicate AllCompatible(book: Book, q: Request)
  {
    forall t :: t in q.tickers && t in book ==> Compatible(book[t], Log(q.evidence, t))
  }

  /** The book with the logs of a published request: a longer log replaces a shorter one. */
  function Entered(book: Book, q: Request): Book
  {
    var asked := set t | t in q.tickers;
    map t | t in book.Keys + asked ::
      if t in book && (t !in asked || |Log(q.evidence, t)| <= |book[t]|) then book[t] else Log(q.evidence, t)
  }

  // ---------- when a recompiled log is still publishable ----------

  /** Rows that share an identifier or clash are the same row: then nothing stands in the way of the batch. */
  lemma MeetingRowsAdmit<R(!new)>(k: Kind<R>, rows: Rows<R>, batch: seq<R>)
    requires forall id :: id in rows ==> k.id(rows[id]) == id
    requires forall x, y :: x in rows.Values && y in batch && (k.id(x) == k.id(y) || k.clash(k.stored(x), k.stored(y))) ==> x == y
    requires forall x, y :: x in batch && y in batch && (k.id(x) == k.id(y) || k.clash(k.stored(x), k.stored(y))) ==> x == y
    ensures IdsAgree(k, rows, batch) && NewApart(k, rows, batch)
  {
    forall i | 0 <= i < |batch| && k.id(batch[i]) in rows ensures rows[k.id(batch[i])] == batch[i] {
      assert rows[k.id(batch[i])] in rows.Values;
    }
    forall i, id | 0 <= i < |batch| && k.id(batch[i]) !in rows && id in rows ensures !k.clash(k.stored(rows[id]), k.stored(batch[i])) {
      assert rows[id] in rows.Values;
    }
  }

  /** Two events of compatible logs share a name or a revision only when they are the same notice at the same place. */
  lemma NoticesMeet(ix: Request, security: Security, a: seq<Evidence>, b: seq<Evidence>, i: nat, j: nat)
    requires GoodLog(a) && GoodLog(b) && Compatible(a, b) && i < |a| && j < |b|
    requires Text.Plain(ix.dataSourceId) && Text.Plain(ix.universeId) && Text.Plain(security.securityId)
    requires i == j || MembershipName(ix, security.securityId, a[i]) == MembershipName(ix, security.securityId, b[j])
    ensures i == j && SameNotice(a[i], b[j])
  {
    hide GoodLog, MembershipName, Text.Plain, CanonicalTime;
    if i != j {
      NamesIdentifyEvents(ix, security.securityId, a[i], security.securityId, b[j]);
      if i < j {
        assert SameNotice(a[i], b[i]);
        LogRises(b, i, j);
      } else {
        assert SameNotice(a[j], b[j]);
        LogRises(a, j, i);
      }
    }
  }

  lemma CompatibleWithItself(a: seq<Evidence>)
    ensures Compatible(a, a)
  {
  }

  lemma SameIndexRows(ix: Request, q: Request, security: Security, e: Evidence, i: nat)
    requires SameIndex(ix, q)
    ensures MembershipRow(q, security, e, i) == MembershipRow(ix, security, e, i)
    ensures IdentifierRow(q, security, e) == IdentifierRow(ix, security, e) && ListingRow(q, security, e) == ListingRow(ix, security, e)
  {
    hide Text.Join, CanonicalTime;
  }

  lemma PlainSecurity(ix: Request, t: string)
    requires PlainIndex(ix) && FindSecurity(ix.universe, t).Some?
    ensures Text.Plain(ix.dataSourceId) && Text.Plain(ix.universeId)
    ensures Text.Plain(SecurityOf(ix, t).securityId) && Text.Plain(SecurityOf(ix, t).ticker) && Text.Plain(SecurityOf(ix, t).mic)
    ensures SecurityOf(ix, t).ticker == t
  {
    hide Text.Plain;
    var s := SecurityOf(ix, t);
    var i :| 0 <= i < |ix.universe| && ix.universe[i] == s;
  }

  /** A ticker with its log. */
  ghost predicate Logged(ix: Request, t: string, log: seq<Evidence>)
  {
    FindSecurity(ix.universe, t).Some? && GoodLog(log)
  }

  /** Rows of two logs meet only in the same row. */
  lemma MembershipRowsMeet(ix: Request, t: string, a: seq<Evidence>, i: nat, u: string, b: seq<Evidence>, j: nat)
    requires PlainIndex(ix) && Logged(ix, t, a) && Logged(ix, u, b) && i < |a| && j < |b| && (t == u ==> Compatible(a, b))
    requires var x, y := MembershipRow(ix, SecurityOf(ix, t), a[i], i), MembershipRow(ix, SecurityOf(ix, u), b[j], j);
             x.id == y.id || MembershipsClash(x, y)
    ensures MembershipRow(ix, SecurityOf(ix, t), a[i], i) == MembershipRow(ix, SecurityOf(ix, u), b[j], j)
  {
    hide GoodLog, MembershipName, Text.Plain, CanonicalTime, FindSecurity, Compatible, SameNotice;
    PlainSecurity(ix, t);
    PlainSecurity(ix, u);
    CompiledClash(ix, SecurityOf(ix, t), a[i], i, SecurityOf(ix, u), b[j], j);
    if MembershipName(ix, SecurityOf(ix, t).securityId, a[i]) == MembershipName(ix, SecurityOf(ix, u).securityId, b[j]) {
      NamesIdentifyEvents(ix, SecurityOf(ix, t).securityId, a[i], SecurityOf(ix, u).securityId, b[j]);
    }
    SameSecuritySameTicker(ix, t, u);
    NoticesMeet(ix, SecurityOf(ix, t), a, b, i, j);
    SameNoticeSameRow(ix, SecurityOf(ix, t), a[i], b[j], i);
  }

  lemma HeadNames(ix: Request, a: Security, e: Evidence, b: Security, f: Evidence)
    requires Text.Plain(ix.dataSourceId) && Text.Plain(a.securityId) && Text.Plain(b.securityId)
    requires Text.Plain(a.ticker) && Text.Plain(b.ticker) && Text.Plain(a.mic) && Text.Plain(b.mic)
    ensures IdentifierRow(ix, a, e).id == IdentifierRow(ix, b, f).id ==> a.securityId == b.securityId
    ensures ListingRow(ix, a, e).id == ListingRow(ix, b, f).id ==> a.securityId == b.securityId
  {
    Text.SprintPlain(e.effectiveAt);
    Text.SprintPlain(f.effectiveAt);
    var x := ["identifier", ix.dataSourceId, a.securityId, "ticker", a.ticker, a.mic, Text.Sprint(e.effectiveAt)];
    var y := ["identifier", ix.dataSourceId, b.securityId, "ticker", b.ticker, b.mic, Text.Sprint(f.effectiveAt)];
    var z := ["listing", ix.dataSourceId, a.securityId, a.mic, Text.Sprint(e.effectiveAt)];
    var w := ["listing", ix.dataSourceId, b.securityId, b.mic, Text.Sprint(f.effectiveAt)];
    hide Text.Join, Text.Sprint, CanonicalTime;
    if Text.Join(x) == Text.Join(y) {
      Text.JoinInjective(x, y);
      assert x[2] == y[2];
    }
    if Text.Join(z) == Text.Join(w) {
      Text.JoinInjective(z, w);
      assert z[2] == w[2];
    }
  }

  lemma HeadRowsMeet(ix: Request, t: string, a: seq<Evidence>, u: string, b: seq<Evidence>)
    requires PlainIndex(ix) && Logged(ix, t, a) && Logged(ix, u, b) && a != [] && b != [] && (t == u ==> Compatible(a, b))
    ensures var x, y := IdentifierRow(ix, SecurityOf(ix, t), a[0]), IdentifierRow(ix, SecurityOf(ix, u), b[0]);
            x.id == y.id || IdentifiersClash(x, y) ==> x == y
    ensures var x, y := ListingRow(ix, SecurityOf(ix, t), a[0]), ListingRow(ix, SecurityOf(ix, u), b[0]);
            x.id == y.id || ListingsClash(x, y) ==> x == y
  {
    hide GoodLog, MembershipRow, IdentifierRow, ListingRow, IdentifiersClash, ListingsClash, Text.Plain, CanonicalTime, FindSecurity, SameNotice;
    PlainSecurity(ix, t);
    PlainSecurity(ix, u);
    CompiledClash(ix, SecurityOf(ix, t), a[0], 0, SecurityOf(ix, u), b[0], 0);
    HeadNames(ix, SecurityOf(ix, t), a[0], SecurityOf(ix, u), b[0]);
    if SecurityOf(ix, t).securityId == SecurityOf(ix, u).securityId {
      SameSecuritySameTicker(ix, t, u);
    }
    if t == u {
      SameNoticeSameRow(ix, SecurityOf(ix, t), a[0], b[0], 0);
    }
  }

  // ---------- the rows of a compiled request ----------

  lemma {:induction false} CompiledHeads(q: Request, n: nat)
    requires Accepted(q) && n <= |q.tickers|
    ensures |Compiled(q, n).identifiers| == n && |Compiled(q, n).listings| == n
    ensures forall k :: 0 <= k < n ==>
              && TickerAccepted(q, q.tickers[k])
              && Compiled(q, n).identifiers[k] == IdentifierRow(q, FindSecurity(q.universe, q.tickers[k]).value, Log(q.evidence, q.tickers[k])[0])
              && Compiled(q, n).listings[k] == ListingRow(q, FindSecurity(q.universe, q.tickers[k]).value, Log(q.evidence, q.tickers[k])[0])
  {
    hide Unambiguous, IdentifierRow, ListingRow, MembershipRows, SortBy, EventsOf, FindSecurity;
    if n > 0 {
      CompiledHeads(q, n - 1);
      assert TickerAccepted(q, q.tickers[n - 1]);
    }
  }

  /** A compiled membership, read with the constants of the index. */
  lemma CompiledRowOf(ix: Request, q: Request, v: Version<Membership>) returns (t: string, i: nat)
    requires SameIndex(ix, q) && Accepted(q) && v in Compiled(q, |q.tickers|).memberships
    ensures t in q.tickers && Logged(ix, t, Log(q.evidence, t)) && i < |Log(q.evidence, t)|
    ensures v == MembershipRow(ix, SecurityOf(ix, t), Log(q.evidence, t)[i], i)
  {
    hide MembershipRow, Log, FindSecurity, Compiled, GoodLog;
    CompiledRows(q, |q.tickers|, v);
    var k :| 0 <= k < |q.tickers| && TickerRow(q, v, q.tickers[k]);
    assert TickerAccepted(q, q.tickers[k]);
    t := q.tickers[k];
    var n: nat :| RowOf(q, v, t, n);
    i := n;
    SameIndexRows(ix, q, SecurityOf(ix, t), Log(q.evidence, t)[i], i);
  }

  lemma RowIsCompiled(ix: Request, q: Request, t: string, i: nat)
    requires SameIndex(ix, q) && Accepted(q) && t in q.tickers && i < |Log(q.evidence, t)|
    ensures Logged(ix, t, Log(q.evidence, t))
    ensures MembershipRow(ix, SecurityOf(ix, t), Log(q.evidence, t)[i], i) in Compiled(q, |q.tickers|).memberships
  {
    var k :| 0 <= k < |q.tickers| && q.tickers[k] == t;
    assert TickerAccepted(q, q.tickers[k]);
    hide MembershipRow, Log, FindSecurity, Compiled, GoodLog;
    var v := MembershipRow(q, SecurityOf(ix, t), Log(q.evidence, t)[i], i);
    assert RowOf(q, v, q.tickers[k], i) && TickerRow(q, v, q.tickers[k]);
    CompiledRows(q, |q.tickers|, v);
    SameIndexRows(ix, q, SecurityOf(ix, t), Log(q.evidence, t)[i], i);
  }

  lemma BookLogged(ix: Request, book: Book, t: string)
    requires InBook(ix, book) && t in book
    ensures Logged(ix, t, book[t]) && book[t] != []
  {
  }

  /** Every table of the index keeps its rows under their identifiers. */
  ghost predicate Keyed(t: Tables)
  {
    && (forall id :: id in t.memberships ==> t.memberships[id].id == id)
    && (forall id :: id in t.identifiers ==> t.identifiers[id].id == id)
    && (forall id :: id in t.listings ==> t.listings[id].id == id)
  }

  lemma SettledKeyed(t: Tables)
    requires SettledTables(t)
    ensures Keyed(t)
  {
  }

  lemma CompatibleMemberships(parents: Parents, ix: Request, t: Tables, book: Book, q: Request)
    requires PlainIndex(ix) && SameIndex(ix, q) && Accepted(q) && InBook(ix, book) && Booked(ix, t, book) && Keyed(t) && AllCompatible(book, q)
    ensures IdsAgree(Memberships(parents), t.memberships, Truth(q).memberships) && NewApart(Memberships(parents), t.memberships, Truth(q).memberships)
  {
    hide MembershipRow, MembershipsClash, StoredMembership, MembershipFits, Log, FindSecurity, Compiled, GoodLog, PlainIndex, InBook, Accepted, Compatible, IdsAgree, NewApart;
    var k, batch := Memberships(parents), Truth(q).memberships;
    forall x, y | x in t.memberships.Values && y in batch && (k.id(x) == k.id(y) || k.clash(k.stored(x), k.stored(y))) ensures x == y {
      var s, i: nat :| BookRow(ix, book, x, s, i);
      var u, j := CompiledRowOf(ix, q, y);
      BookLogged(ix, book, s);
      CanonicalRows(ix, SecurityOf(ix, s), book[s][i], i);
      CanonicalRows(ix, SecurityOf(ix, u), Log(q.evidence, u)[j], j);
      MembershipRowsMeet(ix, s, book[s], i, u, Log(q.evidence, u), j);
    }
    forall x, y | x in batch && y in batch && (k.id(x) == k.id(y) || k.clash(k.stored(x), k.stored(y))) ensures x == y {
      var s, i := CompiledRowOf(ix, q, x);
      var u, j := CompiledRowOf(ix, q, y);
      CanonicalRows(ix, SecurityOf(ix, s), Log(q.evidence, s)[i], i);
      CanonicalRows(ix, SecurityOf(ix, u), Log(q.evidence, u)[j], j);
      CompatibleWithItself(Log(q.evidence, s));
      MembershipRowsMeet(ix, s, Log(q.evidence, s), i, u, Log(q.evidence, u), j);
    }
    MeetingRowsAdmit(k, t.memberships, batch);
  }

  /** A compiled first event, read with the constants of the index. */
  lemma CompiledHeadOf(ix: Request, q: Request, n: nat) returns (t: string)
    requires SameIndex(ix, q) && Accepted(q) && n < |q.tickers|
    ensures t == q.tickers[n] && Logged(ix, t, Log(q.evidence, t)) && Log(q.evidence, t) != []
    ensures |Truth(q).identifiers| == |Truth(q).listings| == |q.tickers|
    ensures Truth(q).identifiers[n] == IdentifierRow(ix, SecurityOf(ix, t), Log(q.evidence, t)[0])
    ensures Truth(q).listings[n] == ListingRow(ix, SecurityOf(ix, t), Log(q.evidence, t)[0])
  {
    hide IdentifierRow, ListingRow, Log, FindSecurity, Compiled;
    t := q.tickers[n];
    CompiledHeads(q, |q.tickers|);
    SameIndexRows(ix, q, SecurityOf(ix, t), Log(q.evidence, t)[0], 0);
  }

  lemma HeadCount(q: Request)
    requires Accepted(q)
    ensures |Truth(q).identifiers| == |Truth(q).listings| == |q.tickers|
  {
    CompiledHeads(q, |q.tickers|);
  }

  lemma IdentifiersApart(parents: Parents, ix: Request, t: Tables, book: Book, q: Request)
    requires PlainIndex(ix) && SameIndex(ix, q) && Accepted(q) && InBook(ix, book) && Booked(ix, t, book) && Keyed(t) && AllCompatible(book, q)
    ensures IdsAgree(Identifiers(parents), t.identifiers, Truth(q).identifiers) && NewApart(Identifiers(parents), t.identifiers, Truth(q).identifiers)
  {
    hide IdentifierRow, IdentifiersClash, StoredIdentifier, IdentifierFits, Log, FindSecurity, Compiled, GoodLog, PlainIndex, InBook, Accepted, Compatible, IdsAgree, NewApart, Truth;
    var k, batch := Identifiers(parents), Truth(q).identifiers;
    HeadCount(q);
    forall x, y | x in t.identifiers.Values && y in batch && (k.id(x) == k.id(y) || k.clash(k.stored(x), k.stored(y))) ensures x == y {
      var s :| BookHead(ix, book, s) && x == IdentifierRow(ix, SecurityOf(ix, s), book[s][0]);
      var n :| 0 <= n < |batch| && batch[n] == y;
      var u := CompiledHeadOf(ix, q, n);
      BookLogged(ix, book, s);
      CanonicalRows(ix, SecurityOf(ix, s), book[s][0], 0);
      CanonicalRows(ix, SecurityOf(ix, u), Log(q.evidence, u)[0], 0);
      HeadRowsMeet(ix, s, book[s], u, Log(q.evidence, u));
    }
    forall x, y | x in batch && y in batch && (k.id(x) == k.id(y) || k.clash(k.stored(x), k.stored(y))) ensures x == y {
      var m :| 0 <= m < |batch| && batch[m] == x;
      var n :| 0 <= n < |batch| && batch[n] == y;
      var s := CompiledHeadOf(ix, q, m);
      var u := CompiledHeadOf(ix, q, n);
      CanonicalRows(ix, SecurityOf(ix, s), Log(q.evidence, s)[0], 0);
      CanonicalRows(ix, SecurityOf(ix, u), Log(q.evidence, u)[0], 0);
      CompatibleWithItself(Log(q.evidence, s));
      HeadRowsMeet(ix, s, Log(q.evidence, s), u, Log(q.evidence, u));
    }
    MeetingRowsAdmit(k, t.identifiers, batch);
  }

  lemma ListingsApart(parents: Parents, ix: Request, t: Tables, book: Book, q: Request)
    requires PlainIndex(ix) && SameIndex(ix, q) && Accepted(q) && InBook(ix, book) && Booked(ix, t, book) && Keyed(t) && AllCompatible(book, q)
    ensures IdsAgree(Listings(parents), t.listings, Truth(q).listings) && NewApart(Listings(parents), t.listings, Truth(q).listings)
  {
    hide ListingRow, ListingsClash, StoredListing, ListingFits, Log, FindSecurity, Compiled, GoodLog, PlainIndex, InBook, Accepted, Compatible, IdsAgree, NewApart, Truth;
    var k, batch := Listings(parents), Truth(q).listings;
    HeadCount(q);
    forall x, y | x in t.listings.Values && y in batch && (k.id(x) == k.id(y) || k.clash(k.stored(x), k.stored(y))) ensures x == y {
      var s :| BookHead(ix, book, s) && x == ListingRow(ix, SecurityOf(ix, s), book[s][0]);
      var n :| 0 <= n < |batch| && batch[n] == y;
      var u := CompiledHeadOf(ix, q, n);
      BookLogged(ix, book, s);
      CanonicalRows(ix, SecurityOf(ix, s), book[s][0], 0);
      CanonicalRows(ix, SecurityOf(ix, u), Log(q.evidence, u)[0], 0);
      HeadRowsMeet(ix, s, book[s], u, Log(q.evidence, u));
    }
    forall x, y | x in batch && y in batch && (k.id(x) == k.id(y) || k.clash(k.stored(x), k.stored(y))) ensures x == y {
      var m :| 0 <= m < |batch| && batch[m] == x;
      var n :| 0 <= n < |batch| && batch[n] == y;
      var s := CompiledHeadOf(ix, q, m);
      var u := CompiledHeadOf(ix, q, n);
      CanonicalRows(ix, SecurityOf(ix, s), Log(q.evidence, s)[0], 0);
      CanonicalRows(ix, SecurityOf(ix, u), Log(q.evidence, u)[0], 0);
      CompatibleWithItself(Log(q.evidence, s));
      HeadRowsMeet(ix, s, Log(q.evidence, s), u, Log(q.evidence, u));
    }
    MeetingRowsAdmit(k, t.listings, batch);
  }

  /** Published memberships leave no room for a log that disagrees with them. */
  lemma AdmittedIsCompatible(parents: Parents, ix: Request, t: Tables, book: Book, q: Request)
    requires PlainIndex(ix) && SameIndex(ix, q) && Accepted(q) && InBook(ix, book) && Booked(ix, t, book) && Keyed(t)
    requires IdsAgree(Memberships(parents), t.memberships, Truth(q).memberships) && NewApart(Memberships(parents), t.memberships, Truth(q).memberships)
    ensures AllCompatible(book, q)
  {
    hide GoodLog, PlainIndex, InBook, Accepted, IdsAgree, NewApart, Log, FindSecurity, SameNotice, Truth, Booked;
    forall s, i | s in q.tickers && s in book && 0 <= i < |book[s]| && i < |Log(q.evidence, s)| ensures SameNotice(book[s][i], Log(q.evidence, s)[i]) {
      PlaceTaken(parents, ix, t, book, q, s, i);
    }
  }

  lemma PlaceTaken(parents: Parents, ix: Request, t: Tables, book: Book, q: Request, s: string, i: nat)
    requires PlainIndex(ix) && SameIndex(ix, q) && Accepted(q) && InBook(ix, book) && Booked(ix, t, book) && Keyed(t)
    requires IdsAgree(Memberships(parents), t.memberships, Truth(q).memberships) && NewApart(Memberships(parents), t.memberships, Truth(q).memberships)
    requires s in q.tickers && s in book && i < |book[s]| && i < |Log(q.evidence, s)|
    ensures SameNotice(book[s][i], Log(q.evidence, s)[i])
  {
    hide MembershipRow, MembershipsClash, StoredMembership, MembershipFits, Log, FindSecurity, Compiled, GoodLog, PlainIndex, InBook, Accepted, SameNotice;
    RowIsCompiled(ix, q, s, i);
    BookLogged(ix, book, s);
    PlainSecurity(ix, s);
    var a, b, security := book[s][i], Log(q.evidence, s)[i], SecurityOf(ix, s);
    var x, y, batch := MembershipRow(ix, security, a, i), MembershipRow(ix, security, b, i), Truth(q).memberships;
    SameNoticeSameRow(ix, security, a, b, i);
    CanonicalRows(ix, security, a, i);
    CanonicalRows(ix, security, b, i);
    CompiledClash(ix, security, a, i, security, b, i);
    assert BookRow(ix, book, x, s, i);
    assert x in t.memberships.Values;
    var id :| id in t.memberships && t.memberships[id] == x;
    var n :| 0 <= n < |batch| && batch[n] == y;
    if y.id in t.memberships {
      assert y in t.memberships.Values;
      var u, j: nat :| BookRow(ix, book, y, u, j);
      SamePlace(ix, s, b, i, u, book[u][j], j);
    }
  }

  lemma SamePlace(ix: Request, s: string, e: Evidence, i: nat, u: string, f: Evidence, j: nat)
    requires PlainIndex(ix) && FindSecurity(ix.universe, s).Some? && FindSecurity(ix.universe, u).Some?
    requires MembershipRow(ix, SecurityOf(ix, s), e, i) == MembershipRow(ix, SecurityOf(ix, u), f, j)
    ensures s == u && i == j
  {
    hide Text.Join, CanonicalTime, FindSecurity;
    SameSecuritySameTicker(ix, s, u);
  }

  /** Every row that is new meets its column checks and references. */
  ghost predicate NewRowsFit(parents: Parents, t: Tables, b: TruthBatch)
  {
    && NewFit(Identifiers(parents), t.identifiers, b.identifiers) && NewFit(Listings(parents), t.listings, b.listings)
    && NewFit(Memberships(parents), t.memberships, b.memberships)
  }

  /**
   Over what earlier runs of the index published, a recompiled request is published
   exactly when it is valid, its new rows fit, and every log agrees with the published
   log of its ticker as far as both go: history is only ever extended at its end.
   */
  lemma PublishedIffCompatible(zones: set<string>, parents: Parents, ix: Request, t: Tables, book: Book, q: Request)
    requires PlainIndex(ix) && SameIndex(ix, q) && Accepted(q) && InBook(ix, book) && Booked(ix, t, book) && SettledTables(t)
    ensures PublishTruth(zones, parents, t, Truth(q)).Some? <==> ValidTruth(zones, Truth(q)) && NewRowsFit(parents, t, Truth(q)) && AllCompatible(book, q)
  {
    hide PlainIndex, InBook, Accepted, Log, Booked, SettledTables, ValidTruth, AllCompatible, IdsAgree, NewApart, NewFit, Keyed, Compiled,
         Identifiers, Listings, Memberships, CalendarKind, SessionKind, Actions, PublishTruth;
    PublishedIffAdmitted(zones, parents, t, Truth(q));
    SettledKeyed(t);
    NothingToAdmit(CalendarKind(parents), t.calendars);
    NothingToAdmit(SessionKind(parents, CalendarsAfter(parents, t, Truth(q))), t.sessions);
    NothingToAdmit(Actions(parents), t.actions);
    if PublishTruth(zones, parents, t, Truth(q)).Some? {
      AdmittedIsCompatible(parents, ix, t, book, q);
    }
    if AllCompatible(book, q) {
      CompatibleMemberships(parents, ix, t, book, q);
      IdentifiersApart(parents, ix, t, book, q);
      ListingsApart(parents, ix, t, book, q);
    }
  }

  lemma NothingToAdmit<R>(k: Kind<R>, rows: Rows<R>)
    ensures Admits(k, rows, [])
  {
  }

  // ---------- the book after a publication ----------

  /** The rows of a log stay where they are when the log grows. */
  lemma GrownLog(ix: Request, book: Book, q: Request, s: string, i: nat)
    requires PlainIndex(ix) && InBook(ix, book) && AllCompatible(book, q) && s in book && i < |book[s]|
    ensures s in Entered(book, q) && i < |Entered(book, q)[s]|
    ensures MembershipRow(ix, SecurityOf(ix, s), Entered(book, q)[s][i], i) == MembershipRow(ix, SecurityOf(ix, s), book[s][i], i)
    ensures i == 0 ==> IdentifierRow(ix, SecurityOf(ix, s), Entered(book, q)[s][0]) == IdentifierRow(ix, SecurityOf(ix, s), book[s][0])
    ensures i == 0 ==> ListingRow(ix, SecurityOf(ix, s), Entered(book, q)[s][0]) == ListingRow(ix, SecurityOf(ix, s), book[s][0])
  {
    hide MembershipRow, IdentifierRow, ListingRow, Log, FindSecurity, GoodLog, PlainIndex, SameNotice;
    PlainSecurity(ix, s);
    SameNoticeSameRow(ix, SecurityOf(ix, s), Entered(book, q)[s][i], book[s][i], i);
    if Entered(book, q)[s] != book[s] {
      assert SameNotice(book[s][i], Log(q.evidence, s)[i]);
      SameNoticeTurns(book[s][i], Log(q.evidence, s)[i]);
    }
  }

  lemma SameNoticeTurns(a: Evidence, b: Evidence)
    requires SameNotice(a, b)
    ensures SameNotice(b, a)
  {
  }

  /** A published log is in the book, itself or under a longer one. */
  lemma EnteredLog(ix: Request, book: Book, q: Request, s: string, i: nat)
    requires PlainIndex(ix) && InBook(ix, book) && AllCompatible(book, q) && s in q.tickers && i < |Log(q.evidence, s)| && FindSecurity(ix.universe, s).Some?
    ensures s in Entered(book, q) && i < |Entered(book, q)[s]|
    ensures MembershipRow(ix, SecurityOf(ix, s), Entered(book, q)[s][i], i) == MembershipRow(ix, SecurityOf(ix, s), Log(q.evidence, s)[i], i)
    ensures i == 0 ==> IdentifierRow(ix, SecurityOf(ix, s), Entered(book, q)[s][0]) == IdentifierRow(ix, SecurityOf(ix, s), Log(q.evidence, s)[0])
    ensures i == 0 ==> ListingRow(ix, SecurityOf(ix, s), Entered(book, q)[s][0]) == ListingRow(ix, SecurityOf(ix, s), Log(q.evidence, s)[0])
  {
    hide MembershipRow, IdentifierRow, ListingRow, Log, FindSecurity, GoodLog, PlainIndex, SameNotice;
    PlainSecurity(ix, s);
    SameNoticeSameRow(ix, SecurityOf(ix, s), Entered(book, q)[s][i], Log(q.evidence, s)[i], i);
    if Entered(book, q)[s] != Log(q.evidence, s) {
      assert SameNotice(book[s][i], Log(q.evidence, s)[i]);
    }
  }

  lemma EnteredInBook(ix: Request, book: Book, q: Request)
    requires SameIndex(ix, q) && Accepted(q) && InBook(ix, book)
    ensures InBook(ix, Entered(book, q))
  {
    hide GoodLog, FindSecurity, Log, Accepted, OneMapping;
    forall t | t in q.tickers
      ensures OneMapping(ix.universe, t) && FindSecurity(ix.universe, t).Some? && FindSecurity(ix.universe, t).value.Complete()
      ensures GoodLog(Log(q.evidence, t)) && forall i :: 0 <= i < |Log(q.evidence, t)| ==> Log(q.evidence, t)[i].ticker == t
    {
      AcceptedLog(q, t);
    }
  }

  lemma AcceptedLog(q: Request, t: string)
    requires Accepted(q) && t in q.tickers
    ensures OneMapping(q.universe, t) && FindSecurity(q.universe, t).Some? && FindSecurity(q.universe, t).value.Complete()
    ensures GoodLog(Log(q.evidence, t)) && forall i :: 0 <= i < |Log(q.evidence, t)| ==> Log(q.evidence, t)[i].ticker == t
  {
    hide GoodLog, FindSecurity, SortBy;
    var k :| 0 <= k < |q.tickers| && q.tickers[k] == t;
    assert TickerAccepted(q, q.tickers[k]);
    SortedByTime(EventsOf(q.evidence, t));
    SameMembers(Log(q.evidence, t), EventsOf(q.evidence, t));
    forall i | 0 <= i < |Log(q.evidence, t)| ensures Log(q.evidence, t)[i].ticker == t {
      assert Log(q.evidence, t)[i] in EventsOf(q.evidence, t);
    }
  }

  /** After a publication the tables are again exactly the book. */
  lemma EnteredBooked(zones: set<string>, parents: Parents, ix: Request, t: Tables, book: Book, q: Request)
    requires PlainIndex(ix) && SameIndex(ix, q) && Accepted(q) && InBook(ix, book) && Booked(ix, t, book) && SettledTables(t)
    requires PublishTruth(zones, parents, t, Truth(q)).Some?
    ensures Booked(ix, PublishTruth(zones, parents, t, Truth(q)).value, Entered(book, q))
  {
    hide PlainIndex, InBook, Accepted, Log, BookedMemberships, BookedIdentifiers, BookedListings, SettledTables, AllCompatible, Compiled, PublishTruth, GrownTruth, ValidTruth, NewRowsFit;
    PublishedIffCompatible(zones, parents, ix, t, book, q);
    PublishedIffAdmitted(zones, parents, t, Truth(q));
    var after := PublishTruth(zones, parents, t, Truth(q)).value;
    MembershipsEntered(ix, t, book, q, after);
    IdentifiersEntered(ix, t, book, q, after);
    ListingsEntered(ix, t, book, q, after);
  }

  /** After a publication a table holds its old values and the batch. */
  lemma GrownValues<R>(k: Kind<R>, rows: Rows<R>, batch: seq<R>, after: Rows<R>)
    requires Grown(k, rows, batch, after)
    ensures forall v :: v in after.Values <==> v in rows.Values || v in batch
  {
    forall v | v in after.Values ensures v in rows.Values || v in batch {
      var id :| id in after && after[id] == v;
      if id !in rows {
        var i :| 0 <= i < |batch| && k.id(batch[i]) == id;
      }
    }
  }

  lemma MembershipsEntered(ix: Request, t: Tables, book: Book, q: Request, after: Tables)
    requires PlainIndex(ix) && SameIndex(ix, q) && Accepted(q) && InBook(ix, book) && Booked(ix, t, book) && AllCompatible(book, q)
    requires GrownTruth(t, Truth(q), after)
    ensures BookedMemberships(ix, after, Entered(book, q))
  {
    hide PlainIndex, Accepted, Log, AllCompatible, Compiled, MembershipRow, FindSecurity, GoodLog, Grown, Entered;
    var k, next := Memberships(NOBODY), Entered(book, q);
    GrownValues(k, t.memberships, Truth(q).memberships, after.memberships);
    forall v | v in after.memberships.Values ensures exists s, i: nat :: BookRow(ix, next, v, s, i) {
      if v in t.memberships.Values {
        var s, i: nat :| BookRow(ix, book, v, s, i);
        GrownLog(ix, book, q, s, i);
        assert BookRow(ix, next, v, s, i);
      } else {
        var s, i := CompiledRowOf(ix, q, v);
        EnteredLog(ix, book, q, s, i);
        assert BookRow(ix, next, v, s, i);
      }
    }
    forall v, s, i: nat | BookRow(ix, next, v, s, i) ensures v in after.memberships.Values {
      FromBookOrRequest(book, q, s);
      if s in book && next[s] == book[s] {
        assert BookRow(ix, book, v, s, i);
      } else {
        RowIsCompiled(ix, q, s, i);
      }
    }
  }

  lemma FromBookOrRequest(book: Book, q: Request, s: string)
    requires s in Entered(book, q)
    ensures (s in book && Entered(book, q)[s] == book[s]) || (s in q.tickers && Entered(book, q)[s] == Log(q.evidence, s))
  {
    hide Log;
  }

  lemma IdentifiersEntered(ix: Request, t: Tables, book: Book, q: Request, after: Tables)
    requires PlainIndex(ix) && SameIndex(ix, q) && Accepted(q) && InBook(ix, book) && Booked(ix, t, book) && AllCompatible(book, q)
    requires GrownTruth(t, Truth(q), after)
    ensures BookedIdentifiers(ix, after, Entered(book, q))
  {
    hide PlainIndex, Accepted, Log, AllCompatible, Compiled, IdentifierRow, FindSecurity, GoodLog, Grown, Entered, Truth, InBook;
    var next, batch := Entered(book, q), Truth(q).identifiers;
    HeadCount(q);
    GrownValues(Identifiers(NOBODY), t.identifiers, batch, after.identifiers);
    forall v | v in after.identifiers.Values ensures exists s :: BookHead(ix, next, s) && v == IdentifierRow(ix, SecurityOf(ix, s), next[s][0]) {
      if v in t.identifiers.Values {
        var s :| BookHead(ix, book, s) && v == IdentifierRow(ix, SecurityOf(ix, s), book[s][0]);
        GrownLog(ix, book, q, s, 0);
      } else {
        var n :| 0 <= n < |q.tickers| && batch[n] == v;
        var s := CompiledHeadOf(ix, q, n);
        EnteredLog(ix, book, q, s, 0);
      }
    }
    forall s | BookHead(ix, next, s) ensures IdentifierRow(ix, SecurityOf(ix, s), next[s][0]) in after.identifiers.Values {
      FromBookOrRequest(book, q, s);
      if s in book && next[s] == book[s] {
        assert BookHead(ix, book, s);
      } else {
        var n :| 0 <= n < |q.tickers| && q.tickers[n] == s;
        var u := CompiledHeadOf(ix, q, n);
        assert batch[n] in batch;
      }
    }
  }

  lemma ListingsEntered(ix: Request, t: Tables, book: Book, q: Request, after: Tables)
    requires PlainIndex(ix) && SameIndex(ix, q) && Accepted(q) && InBook(ix, book) && Booked(ix, t, book) && AllCompatible(book, q)
    requires GrownTruth(t, Truth(q), after)
    ensures BookedListings(ix, after, Entered(book, q))
  {
    hide PlainIndex, Accepted, Log, AllCompatible, Compiled, ListingRow, FindSecurity, GoodLog, Grown, Entered, Truth, InBook;
    var next, batch := Entered(book, q), Truth(q).listings;
    HeadCount(q);
    GrownValues(Listings(NOBODY), t.listings, batch, after.listings);
    forall v | v in after.listings.Values ensures exists s :: BookHead(ix, next, s) && v == ListingRow(ix, SecurityOf(ix, s), next[s][0]) {
      if v in t.listings.Values {
        var s :| BookHead(ix, book, s) && v == ListingRow(ix, SecurityOf(ix, s), book[s][0]);
        GrownLog(ix, book, q, s, 0);
      } else {
        var n :| 0 <= n < |q.tickers| && batch[n] == v;
        var s := CompiledHeadOf(ix, q, n);
        EnteredLog(ix, book, q, s, 0);
      }
    }
    forall s | BookHead(ix, next, s) ensures ListingRow(ix, SecurityOf(ix, s), next[s][0]) in after.listings.Values {
      FromBookOrRequest(book, q, s);
      if s in book && next[s] == book[s] {
        assert BookHead(ix, book, s);
      } else {
        var n :| 0 <= n < |q.tickers| && q.tickers[n] == s;
        var u := CompiledHeadOf(ix, q, n);
        assert batch[n] in batch;
      }
    }
  }

  // ---------- any history of collections ----------

  /** One run of the index: what it compiled, and the parent rows there were. */
  datatype Collection = Collection(parents: Parents, request: Request)

  datatype Shelf = Shelf(tables: Tables, book: Book)

  function Run(zones: set<string>, before: Shelf, c: Collection): Option<Shelf>
  {
    if !Accepted(c.request) then None
    else
      var after := PublishTruth(zones, c.parents, before.tables, Truth(c.request));
      if after.None? then None else Some(Shelf(after.value, Entered(before.book, c.request)))
  }

  /** What a history of runs leaves; a run that is refused leaves everything as it was. */
  function ShelfAfter(zones: set<string>, history: seq<Collection>): Shelf
  {
    if history == [] then Shelf(EMPTY, map[])
    else
      var before := ShelfAfter(zones, history[..|history| - 1]);
      var after := Run(zones, before, history[|history| - 1]);
      if after.Some? then after.value else before
  }

  predicate Published(zones: set<string>, history: seq<Collection>, n: nat)
  {
    n < |history| && Run(zones, ShelfAfter(zones, history[..n]), history[n]).Some?
  }

  predicate RunsOf(ix: Request, history: seq<Collection>)
  {
    PlainIndex(ix) && forall i :: 0 <= i < |history| ==> SameIndex(ix, history[i].request)
  }

  ghost predicate Kept(ix: Request, shelf: Shelf)
  {
    InBook(ix, shelf.book) && Booked(ix, shelf.tables, shelf.book) && SettledTables(shelf.tables)
  }

  lemma NothingKept(ix: Request)
    ensures Kept(ix, Shelf(EMPTY, map[]))
  {
  }

  lemma RunKeeps(zones: set<string>, ix: Request, before: Shelf, c: Collection)
    requires PlainIndex(ix) && SameIndex(ix, c.request) && Kept(ix, before) && Run(zones, before, c).Some?
    ensures Kept(ix, Run(zones, before, c).value)
    ensures AllCompatible(before.book, c.request)
  {
    hide PlainIndex, InBook, Accepted, Booked, SettledTables, PublishTruth, Entered, ValidTruth, NewRowsFit, AllCompatible;
    EnteredInBook(ix, before.book, c.request);
    EnteredBooked(zones, c.parents, ix, before.tables, before.book, c.request);
    PublishKeepsSettled(zones, c.parents, before.tables, Truth(c.request));
    PublishedIffCompatible(zones, c.parents, ix, before.tables, before.book, c.request);
  }

  lemma {:induction false} HistoryKeeps(zones: set<string>, ix: Request, history: seq<Collection>)
    requires RunsOf(ix, history)
    ensures Kept(ix, ShelfAfter(zones, history))
    decreases |history|
  {
    hide Kept, Run, PlainIndex, AllCompatible;
    if history == [] {
      NothingKept(ix);
    } else {
      HistoryKeeps(zones, ix, history[..|history| - 1]);
      if Run(zones, ShelfAfter(zones, history[..|history| - 1]), history[|history| - 1]).Some? {
        RunKeeps(zones, ix, ShelfAfter(zones, history[..|history| - 1]), history[|history| - 1]);
      }
    }
  }

  /** Run `n` was published and asked for this ticker. */
  ghost predicate PublishedFor(zones: set<string>, history: seq<Collection>, n: nat, t: string)
  {
    Published(zones, history, n) && t in history[n].request.tickers
  }

  function LogIn(history: seq<Collection>, n: nat, t: string): seq<Evidence>
    requires n < |history|
  {
    Log(history[n].request.evidence, t)
  }

  /** Every published log of the ticker agrees with this one and is no longer. */
  ghost predicate CoversAll(zones: set<string>, history: seq<Collection>, t: string, log: seq<Evidence>)
  {
    forall n: nat :: PublishedFor(zones, history, n, t) ==> |LogIn(history, n, t)| <= |log| && Compatible(log, LogIn(history, n, t))
  }

  ghost predicate WasPublished(zones: set<string>, history: seq<Collection>, t: string, log: seq<Evidence>)
  {
    exists n: nat :: PublishedFor(zones, history, n, t) && LogIn(history, n, t) == log
  }

  lemma EarlierRun(zones: set<string>, history: seq<Collection>, n: nat, t: string)
    requires history != [] && n < |history| - 1
    ensures PublishedFor(zones, history, n, t) <==> PublishedFor(zones, history[..|history| - 1], n, t)
    ensures LogIn(history, n, t) == LogIn(history[..|history| - 1], n, t)
  {
    hide Run, Log;
    assert history[..|history| - 1][..n] == history[..n];
  }

  lemma CompatibleThrough(a: seq<Evidence>, b: seq<Evidence>, c: seq<Evidence>)
    requires Compatible(b, a) && Compatible(b, c) && |c| <= |b|
    ensures Compatible(a, c)
  {
    hide CanonicalTime;
    forall i | 0 <= i < |a| && i < |c| ensures SameNotice(a[i], c[i]) {
      assert SameNotice(b[i], a[i]) && SameNotice(b[i], c[i]);
    }
  }

  /** The book has, for every ticker ever published, the longest published log, and all others agree with it. */
  lemma {:induction false} BookIsLongest(zones: set<string>, ix: Request, history: seq<Collection>, t: string)
    requires RunsOf(ix, history)
    ensures var book := ShelfAfter(zones, history).book;
            && (t in book <==> exists n: nat :: PublishedFor(zones, history, n, t))
            && (t in book ==> WasPublished(zones, history, t, book[t]) && CoversAll(zones, history, t, book[t]))
    decreases |history|
  {
    hide Run, PlainIndex, Log, Compatible;
    if history != [] {
      var front, last := history[..|history| - 1], |history| - 1;
      BookIsLongest(zones, ix, front, t);
      forall n: nat | n < last ensures PublishedFor(zones, history, n, t) <==> PublishedFor(zones, front, n, t) {
        EarlierRun(zones, history, n, t);
      }
      if Run(zones, ShelfAfter(zones, front), history[last]).Some? {
        LongestStep(zones, ix, history, t);
      } else {
        UnchangedStep(zones, history, t);
      }
    }
  }

  lemma UnchangedStep(zones: set<string>, history: seq<Collection>, t: string)
    requires history != [] && Run(zones, ShelfAfter(zones, history[..|history| - 1]), history[|history| - 1]).None?
    ensures var front := history[..|history| - 1];
            && ((exists n: nat :: PublishedFor(zones, history, n, t)) <==> exists n: nat :: PublishedFor(zones, front, n, t))
            && (forall log :: WasPublished(zones, front, t, log) ==> WasPublished(zones, history, t, log))
            && (forall log :: CoversAll(zones, front, t, log) ==> CoversAll(zones, history, t, log))
  {
    hide Run, Log, Compatible;
    var front := history[..|history| - 1];
    forall n: nat ensures PublishedFor(zones, history, n, t) ==> n < |front| && PublishedFor(zones, front, n, t) && LogIn(history, n, t) == LogIn(front, n, t) {
      if n < |front| {
        EarlierRun(zones, history, n, t);
      }
    }
    forall n: nat ensures PublishedFor(zones, front, n, t) ==> n < |front| && PublishedFor(zones, history, n, t) && LogIn(history, n, t) == LogIn(front, n, t) {
      if n < |front| {
        EarlierRun(zones, history, n, t);
      }
    }
  }

  lemma LongestStep(zones: set<string>, ix: Request, history: seq<Collection>, t: string)
    requires history != [] && RunsOf(ix, history)
    requires var front := history[..|history| - 1];
             var book := ShelfAfter(zones, front).book;
             && Run(zones, ShelfAfter(zones, front), history[|history| - 1]).Some?
             && (t in book <==> exists n: nat :: PublishedFor(zones, front, n, t))
             && (t in book ==> WasPublished(zones, front, t, book[t]) && CoversAll(zones, front, t, book[t]))
    ensures var book := ShelfAfter(zones, history).book;
            && (t in book <==> exists n: nat :: PublishedFor(zones, history, n, t))
            && (t in book ==> WasPublished(zones, history, t, book[t]) && CoversAll(zones, history, t, book[t]))
  {
    hide Run, PlainIndex, Log, Compatible, Kept, ShelfAfter, PublishedFor, CoversAll, WasPublished, LogIn, Entered;
    var front, last := history[..|history| - 1], |history| - 1;
    var before := ShelfAfter(zones, front);
    HistoryKeeps(zones, ix, front);
    RunKeeps(zones, ix, before, history[last]);
    LastRun(zones, history);
    RunEnters(zones, before, history[last]);
    RunsSoFar(zones, history, t);
    LongestOf(zones, history, front, before.book, t);
  }

  /** The published runs with one more at the end. */
  lemma RunsSoFar(zones: set<string>, history: seq<Collection>, t: string)
    requires history != [] && Run(zones, ShelfAfter(zones, history[..|history| - 1]), history[|history| - 1]).Some?
    ensures OneMoreRun(zones, history, t)
  {
    hide Run, Log, ShelfAfter;
    var front, last := history[..|history| - 1], |history| - 1;
    assert history[..last] == front;
    forall n: nat
      ensures PublishedFor(zones, history, n, t) <==> (n == last && t in history[last].request.tickers) || (n < last && PublishedFor(zones, front, n, t))
      ensures PublishedFor(zones, front, n, t) ==> n < last && LogIn(front, n, t) == LogIn(history, n, t)
    {
      if n < last {
        EarlierRun(zones, history, n, t);
      }
    }
  }

  ghost predicate OneMoreRun(zones: set<string>, history: seq<Collection>, t: string)
  {
    history != [] &&
    var front, last := history[..|history| - 1], |history| - 1;
    && (forall n: nat :: PublishedFor(zones, history, n, t) <==> (n == last && t in history[last].request.tickers) || (n < last && PublishedFor(zones, front, n, t)))
    && (forall n: nat :: PublishedFor(zones, front, n, t) ==> n < last && n < |history| && LogIn(front, n, t) == LogIn(history, n, t))
  }

  lemma LongestOf(zones: set<string>, history: seq<Collection>, front: seq<Collection>, book: Book, t: string)
    requires OneMoreRun(zones, history, t) && AllCompatible(book, history[|history| - 1].request) && front == history[..|history| - 1]
    requires t in book <==> exists n: nat :: PublishedFor(zones, front, n, t)
    requires t in book ==> WasPublished(zones, front, t, book[t]) && CoversAll(zones, front, t, book[t])
    ensures var next := Entered(book, history[|history| - 1].request);
            && (t in next <==> exists n: nat :: PublishedFor(zones, history, n, t))
            && (t in next ==> WasPublished(zones, history, t, next[t]) && CoversAll(zones, history, t, next[t]))
  {
    hide Log, Compatible, Published;
    var last, q := |history| - 1, history[|history| - 1].request;
    var log := Log(q.evidence, t);
    assert log == LogIn(history, last, t);
    if t in book {
      var m: nat :| PublishedFor(zones, front, m, t) && LogIn(front, m, t) == book[t];
      assert PublishedFor(zones, history, m, t) && LogIn(history, m, t) == book[t];
    }
    if t in q.tickers {
      assert PublishedFor(zones, history, last, t);
      CompatibleWithItself(log);
      if t in book && |book[t]| < |log| {
        forall n: nat | PublishedFor(zones, front, n, t) ensures Compatible(log, LogIn(front, n, t)) && |LogIn(front, n, t)| <= |log| {
          CompatibleThrough(log, book[t], LogIn(front, n, t));
        }
      }
    }
  }

  lemma LastRun(zones: set<string>, history: seq<Collection>)
    requires history != [] && Run(zones, ShelfAfter(zones, history[..|history| - 1]), history[|history| - 1]).Some?
    ensures ShelfAfter(zones, history) == Run(zones, ShelfAfter(zones, history[..|history| - 1]), history[|history| - 1]).value
  {
  }

  lemma RunEnters(zones: set<string>, before: Shelf, c: Collection)
    requires Run(zones, before, c).Some?
    ensures Run(zones, before, c).value.book == Entered(before.book, c.request)
  {
  }

  // ---------- what the universe then resolves to ----------

  /** The notices of a book, log after log. */
  function Notices(book: Book, tickers: seq<string>): seq<Evidence>
    requires forall t :: t in tickers ==> t in book
  {
    if tickers == [] then [] else Notices(book, tickers[..|tickers| - 1]) + book[tickers[|tickers| - 1]]
  }

  lemma {:induction false} EventsJoin(a: seq<Evidence>, b: seq<Evidence>, t: string)
    ensures EventsOf(a + b, t) == EventsOf(a, t) + EventsOf(b, t)
    decreases |b|
  {
    if b == [] {
      assert a + b == a;
    } else {
      hide *;
      var front, last := b[..|b| - 1], b[|b| - 1];
      Regroup(a, front, [last]);
      assert b == front + [last];
      EventsJoin(a, front, t);
      EventsMore(a + front, last, t);
      EventsMore(front, last, t);
      Regroup(EventsOf(a, t), EventsOf(front, t), if last.ticker == t then [last] else []);
    }
  }

  lemma Regroup<T>(x: seq<T>, y: seq<T>, z: seq<T>)
    ensures (x + y) + z == x + (y + z)
  {
  }

  lemma EventsMore(front: seq<Evidence>, last: Evidence, t: string)
    ensures EventsOf(front + [last], t) == EventsOf(front, t) + if last.ticker == t then [last] else []
  {
    assert (front + [last])[..|front|] == front;
  }

  lemma {:induction false} EventsOfOne(log: seq<Evidence>, owner: string, t: string)
    requires forall i :: 0 <= i < |log| ==> log[i].ticker == owner
    ensures EventsOf(log, t) == if t == owner then log else []
    decreases |log|
  {
    if log != [] {
      assert log == log[..|log| - 1] + [log[|log| - 1]];
      EventsOfOne(log[..|log| - 1], owner, t);
    }
  }

  lemma {:induction false} EventsOfBook(ix: Request, book: Book, tickers: seq<string>, t: string)
    requires InBook(ix, book) && forall u :: u in tickers ==> u in book
    requires forall i, j :: 0 <= i < j < |tickers| ==> tickers[i] != tickers[j]
    ensures EventsOf(Notices(book, tickers), t) == if t in tickers then book[t] else []
    decreases |tickers|
  {
    hide EventsOf, GoodLog, FindSecurity;
    if tickers == [] {
      assert EventsOf([], t) == [] by {
        NoEvents(t);
      }
    } else {
      var front, last := tickers[..|tickers| - 1], tickers[|tickers| - 1];
      EventsOfBook(ix, book, front, t);
      EventsOfOne(book[last], last, t);
      EventsJoin(Notices(book, front), book[last], t);
    }
  }

  lemma NoEvents(t: string)
    ensures EventsOf([], t) == []
  {
  }

  lemma {:induction false} Enumerated(todo: set<string>) returns (tickers: seq<string>)
    ensures forall t :: t in tickers <==> t in todo
    ensures forall i, j :: 0 <= i < j < |tickers| ==> tickers[i] != tickers[j]
    decreases todo
  {
    if todo == {} {
      tickers := [];
    } else {
      var t :| t in todo;
      var rest := Enumerated(todo - {t});
      tickers := rest + [t];
    }
  }

  /** One request that would compile to the whole book at once. */
  lemma WholeBook(ix: Request, book: Book) returns (q: Request)
    requires PlainIndex(ix) && InBook(ix, book)
    ensures SameIndex(ix, q) && WellFormed(q) && Accepted(q)
    ensures forall t :: t in q.tickers <==> t in book
    ensures forall t :: t in book ==> Log(q.evidence, t) == book[t]
  {
    var tickers := Enumerated(book.Keys);
    q := ix.(tickers := tickers, evidence := Notices(book, tickers));
    hide Notices, EventsOf, FindSecurity, GoodLog, SortBy, Text.Plain;
    forall t | t in book ensures Log(q.evidence, t) == book[t] {
      EventsOfBook(ix, book, tickers, t);
      SortedByTime(book[t]);
      GoodLogSorted(book[t]);
    }
    forall i, j | 0 <= i < j < |q.universe| && q.universe[i].ticker in q.tickers ensures q.universe[i].ticker != q.universe[j].ticker {
      assert OneMapping(ix.universe, q.universe[i].ticker);
    }
    forall i | 0 <= i < |q.tickers| ensures TickerAccepted(q, q.tickers[i]) {
      assert q.tickers[i] in book;
    }
  }

  lemma GoodLogSorted(log: seq<Evidence>)
    requires GoodLog(log)
    ensures SortBy(Earlier, log) == log
  {
    SortedByTime(log);
    OneGoodLog(log, SortBy(Earlier, log));
  }

  /** The security's longest published log, replayed, ends inside the index. */
  ghost predicate ReplaysInBook(ix: Request, book: Book, asOf: int, decisionAt: int, s: string)
  {
    exists t :: t in book && FindSecurity(ix.universe, t).Some? && SecurityOf(ix, t).securityId == s && Replay(StoredLog(book[t]), asOf, decisionAt)
  }

  lemma BookIsVisible(ix: Request, shelf: Shelf, q: Request, decisionAt: int, records: seq<Version<Membership>>)
    requires PlainIndex(ix) && Kept(ix, shelf) && SameIndex(ix, q) && Accepted(q)
    requires forall t :: t in q.tickers <==> t in shelf.book
    requires forall t :: t in shelf.book ==> Log(q.evidence, t) == shelf.book[t]
    requires Lists(Memberships(NOBODY), shelf.tables.memberships, UniverseQuery(ix.dataSourceId, ix.universeId, decisionAt), records)
    ensures VisibleRows(q, decisionAt, records)
  {
    hide Log, Compiled, GoodLog, FindSecurity, PlainIndex, Accepted, SettledTables, StoredMembership, MembershipRow, BookedIdentifiers, BookedListings, InBook;
    var rows, query := shelf.tables.memberships, UniverseQuery(ix.dataSourceId, ix.universeId, decisionAt);
    forall v ensures v in records <==> v in Compiled(q, |q.tickers|).memberships && v.availableAt <= decisionAt {
      if v in records {
        var id :| id in rows && StoredMembership(rows[id]) == v && query(v);
        assert rows[id] in rows.Values;
        var s, i: nat :| BookRow(ix, shelf.book, rows[id], s, i);
        CanonicalRows(ix, SecurityOf(ix, s), shelf.book[s][i], i);
        RowIsCompiled(ix, q, s, i);
      }
      if v in Compiled(q, |q.tickers|).memberships && v.availableAt <= decisionAt {
        var s, i := CompiledRowOf(ix, q, v);
        assert BookRow(ix, shelf.book, v, s, i);
        assert v in rows.Values;
        var id :| id in rows && rows[id] == v;
        CanonicalRows(ix, SecurityOf(ix, s), shelf.book[s][i], i);
        IndexOfRow(ix, SecurityOf(ix, s), shelf.book[s][i], i);
      }
    }
  }

  lemma IndexOfRow(ix: Request, security: Security, e: Evidence, i: nat)
    ensures MembershipRow(ix, security, e, i).payload.dataSourceId == ix.dataSourceId && MembershipRow(ix, security, e, i).payload.universeId == ix.universeId
  {
  }

  /**
   After any history of runs, published or refused, the universe that the stored rows
   resolve to is, at every pair of instants, the one that replaying the longest
   published log of every security gives; resolution never fails.
   */
  lemma UniverseReplaysLongestLogs(zones: set<string>, ix: Request, history: seq<Collection>, asOf: int, decisionAt: int, records: seq<Version<Membership>>)
    requires RunsOf(ix, history)
    requires Lists(Memberships(NOBODY), ShelfAfter(zones, history).tables.memberships, UniverseQuery(ix.dataSourceId, ix.universeId, decisionAt), records)
    ensures NoTies(MembershipFamilies(), records) && NoCandidateTies(MembershipFamilies(), MembershipWinner(), records, ValidAt(asOf))
    ensures forall s :: InUniverse(records, asOf, s) <==> ReplaysInBook(ix, ShelfAfter(zones, history).book, asOf, decisionAt, s)
  {
    hide Log, ShelfAfter, Lists, InUniverse, NoTies, NoCandidateTies, Kept, PlainIndex, InBook, Accepted, WellFormed, Replay, FindSecurity;
    var shelf := ShelfAfter(zones, history);
    HistoryKeeps(zones, ix, history);
    KeptBook(ix, shelf);
    var q := WholeBook(ix, shelf.book);
    BookIsVisible(ix, shelf, q, decisionAt, records);
    ResolutionIsReplay(q, asOf, decisionAt, records);
    forall s ensures ReplaysIn(q, asOf, decisionAt, s) <==> ReplaysInBook(ix, shelf.book, asOf, decisionAt, s) {
      SameReplay(ix, shelf.book, q, asOf, decisionAt, s);
    }
  }

  lemma KeptBook(ix: Request, shelf: Shelf)
    requires Kept(ix, shelf)
    ensures InBook(ix, shelf.book)
  {
  }

  lemma SameReplay(ix: Request, book: Book, q: Request, asOf: int, decisionAt: int, s: string)
    requires SameIndex(ix, q)
    requires forall t :: t in q.tickers <==> t in book
    requires forall t :: t in book ==> Log(q.evidence, t) == book[t]
    ensures ReplaysIn(q, asOf, decisionAt, s) <==> ReplaysInBook(ix, book, asOf, decisionAt, s)
  {
    hide Log, Replay, StoredLog, FindSecurity;
  }

  // ---------- collecting the same notices again ----------

  /** The same evidence, recorded by a run that started at `t`. */
  function RecordedAt(e: Evidence, t: int): Evidence { e.(recordedAt := t) }

  function Again(q: Request, t: int): Request
  {
    q.(evidence := Map((e: Evidence) => RecordedAt(e, t), q.evidence))
  }

  lemma {:induction false} EventsAgain(evidence: seq<Evidence>, ticker: string, t: int)
    ensures EventsOf(Map((e: Evidence) => RecordedAt(e, t), evidence), ticker) == Map((e: Evidence) => RecordedAt(e, t), EventsOf(evidence, ticker))
    decreases |evidence|
  {
    if evidence != [] {
      var front, last := evidence[..|evidence| - 1], evidence[|evidence| - 1];
      EventsAgain(front, ticker, t);
      var all := Map((e: Evidence) => RecordedAt(e, t), evidence);
      assert all[..|all| - 1] == Map((e: Evidence) => RecordedAt(e, t), front) && all[|all| - 1] == RecordedAt(last, t);
      MapAppends((e: Evidence) => RecordedAt(e, t), EventsOf(front, ticker), if last.ticker == ticker then [last] else []);
    }
  }

  lemma MapAppends<T, U>(f: T -> U, a: seq<T>, b: seq<T>)
    ensures Map(f, a + b) == Map(f, a) + Map(f, b)
  {
  }

  lemma {:induction false} InsertAgain(x: Evidence, s: seq<Evidence>, t: int)
    ensures Insert(Earlier, RecordedAt(x, t), Map((e: Evidence) => RecordedAt(e, t), s)) == Map((e: Evidence) => RecordedAt(e, t), Insert(Earlier, x, s))
    decreases |s|
  {
    var mapped := Map((e: Evidence) => RecordedAt(e, t), s);
    if s != [] {
      assert mapped[0] == RecordedAt(s[0], t) && mapped[1..] == Map((e: Evidence) => RecordedAt(e, t), s[1..]);
      if Earlier(s[0], x) {
        InsertAgain(x, s[1..], t);
      }
    }
  }

  lemma {:induction false} SortAgain(s: seq<Evidence>, t: int)
    ensures SortBy(Earlier, Map((e: Evidence) => RecordedAt(e, t), s)) == Map((e: Evidence) => RecordedAt(e, t), SortBy(Earlier, s))
    decreases |s|
  {
    var mapped := Map((e: Evidence) => RecordedAt(e, t), s);
    if s != [] {
      assert mapped[0] == RecordedAt(s[0], t) && mapped[1..] == Map((e: Evidence) => RecordedAt(e, t), s[1..]);
      SortAgain(s[1..], t);
      InsertAgain(s[0], SortBy(Earlier, s[1..]), t);
    }
  }

  lemma GoodLogAgain(a: seq<Evidence>, b: seq<Evidence>, t: int)
    requires |a| == |b| && forall i :: 0 <= i < |a| ==> b[i] == RecordedAt(a[i], t)
    ensures GoodLog(b) <==> GoodLog(a)
  {
    if GoodLog(b) {
      forall i | 0 < i < |a| ensures Follows(a[i - 1], a[i]) {
        assert Follows(b[i - 1], b[i]);
      }
      forall i | 0 <= i < |a| ensures a[i].Complete() {
        assert b[i].Complete();
      }
    }
  }

  lemma LogAgain(q: Request, t: int, ticker: string)
    ensures Log(Again(q, t).evidence, ticker) == Map((e: Evidence) => RecordedAt(e, t), Log(q.evidence, ticker))
    ensures GoodLog(Log(Again(q, t).evidence, ticker)) <==> GoodLog(Log(q.evidence, ticker))
  {
    EventsAgain(q.evidence, ticker, t);
    SortAgain(EventsOf(q.evidence, ticker), t);
    hide SortBy, EventsOf, GoodLog;
    GoodLogAgain(Log(q.evidence, ticker), Log(Again(q, t).evidence, ticker), t);
  }

  lemma AcceptedAgain(q: Request, t: int)
    requires Accepted(q)
    ensures Accepted(Again(q, t))
  {
    hide Log, GoodLog;
    forall i | 0 <= i < |q.tickers| ensures TickerAccepted(Again(q, t), q.tickers[i]) {
      assert TickerAccepted(q, q.tickers[i]);
      LogAgain(q, t, q.tickers[i]);
    }
  }

  /** Both runs give the `i`-th event of a ticker one identifier, and one row only when they record the same time. */
  lemma RowsAgain(q: Request, t: int, ticker: string, i: nat)
    requires Accepted(q) && ticker in q.tickers && i < |Log(q.evidence, ticker)| && FindSecurity(q.universe, ticker).Some?
    ensures i < |Log(Again(q, t).evidence, ticker)|
    ensures var security, p := FindSecurity(q.universe, ticker).value, Again(q, t);
            var x, y := MembershipRow(q, security, Log(q.evidence, ticker)[i], i), MembershipRow(p, security, Log(p.evidence, ticker)[i], i);
            && x.id == y.id
            && (x == y <==> CanonicalTime(Log(q.evidence, ticker)[i].recordedAt) == CanonicalTime(t))
  {
    LogAgain(q, t, ticker);
    hide Log, Text.Join, CanonicalTime;
  }

  /** Every requested event was first recorded in the microsecond in which the second run started. */
  ghost predicate SameRecording(q: Request, t: int)
  {
    forall ticker, i :: ticker in q.tickers && 0 <= i < |Log(q.evidence, ticker)| ==> CanonicalTime(Log(q.evidence, ticker)[i].recordedAt) == CanonicalTime(t)
  }

  lemma TickerBatchAgain(q: Request, t: int, ticker: string)
    requires TickerAccepted(q, ticker) && TickerAccepted(Again(q, t), ticker) && ticker in q.tickers && SameRecording(q, t)
    ensures TickerBatch(Again(q, t), ticker) == TickerBatch(q, ticker)
  {
    LogAgain(q, t, ticker);
    hide Log, GoodLog, FindSecurity, Text.Join, CanonicalTime;
    var security, log, again := FindSecurity(q.universe, ticker).value, Log(q.evidence, ticker), Log(Again(q, t).evidence, ticker);
    forall i | 0 <= i < |log| ensures MembershipRow(Again(q, t), security, again[i], i) == MembershipRow(q, security, log[i], i) {
      assert again[i] == RecordedAt(log[i], t);
    }
    assert MembershipRows(Again(q, t), security, again) == MembershipRows(q, security, log);
    GoodLogStarts(log);
    assert again[0] == RecordedAt(log[0], t);
    assert CanonicalTime(log[0].recordedAt) == CanonicalTime(t);
  }

  lemma GoodLogStarts(log: seq<Evidence>)
    requires GoodLog(log)
    ensures |log| > 0
  {
  }

  lemma {:induction false} CompiledAgain(q: Request, t: int, n: nat)
    requires Accepted(q) && Accepted(Again(q, t)) && SameRecording(q, t) && n <= |q.tickers|
    ensures Compiled(Again(q, t), n) == Compiled(q, n)
  {
    hide TickerBatch, SameRecording, TickerAccepted, Unambiguous;
    if n > 0 {
      CompiledAgain(q, t, n - 1);
      assert TickerAccepted(q, q.tickers[n - 1]) && TickerAccepted(Again(q, t), Again(q, t).tickers[n - 1]);
      TickerBatchAgain(q, t, q.tickers[n - 1]);
    }
  }

  /**
   The identifiers of compiled rows leave out the recording time but their content has
   it. So once a batch is published, a later run that compiles the very same notices
   can publish them again only if it started in the same microsecond.
   */
  lemma RecollectionIff(zones: set<string>, parents: Parents, t: Tables, q: Request, start: int, later: Parents)
    requires Accepted(q) && PublishTruth(zones, parents, t, Truth(q)).Some?
    ensures Accepted(Again(q, start))
    ensures PublishTruth(zones, later, PublishTruth(zones, parents, t, Truth(q)).value, Truth(Again(q, start))).Some? <==> SameRecording(q, start)
  {
    AcceptedAgain(q, start);
    hide Accepted, SameRecording, Again, PublishTruth, Extends, AdmitsTruth, GrownTruth;
    var after := PublishTruth(zones, parents, t, Truth(q)).value;
    if SameRecording(q, start) {
      CompiledAgain(q, start, |q.tickers|);
      SameTickers(q, start);
      assert Truth(Again(q, start)) == Truth(q);
      ExtendsItself(after);
      ReplayIsNoOp(zones, parents, t, Truth(q), later, after);
    }
    if PublishTruth(zones, later, after, Truth(Again(q, start))).Some? {
      PublishedIffAdmitted(zones, parents, t, Truth(q));
      PublishedIffAdmitted(zones, later, after, Truth(Again(q, start)));
      AgreeingMeansSame(later, q, start, t, after);
    }
  }

  lemma SameTickers(q: Request, start: int)
    ensures Again(q, start).tickers == q.tickers
  {
  }

  lemma ExtendsItself(t: Tables)
    ensures Extends(t, t)
  {
  }

  lemma AgreeingMeansSame(later: Parents, q: Request, start: int, t: Tables, after: Tables)
    requires Accepted(q) && Accepted(Again(q, start)) && GrownTruth(t, Truth(q), after) && AdmitsTruth(later, after, Truth(Again(q, start)))
    ensures SameRecording(q, start)
  {
    hide Compiled, Accepted, Again, Log, CanonicalTime, GrownTruth, AdmitsTruth;
    forall ticker, i | ticker in q.tickers && 0 <= i < |Log(q.evidence, ticker)|
      ensures CanonicalTime(Log(q.evidence, ticker)[i].recordedAt) == CanonicalTime(start)
    {
      AgreeingRowSameTime(later, q, start, t, after, ticker, i);
    }
  }

  lemma AgreeingRowSameTime(later: Parents, q: Request, start: int, t: Tables, after: Tables, ticker: string, i: nat)
    requires Accepted(q) && Accepted(Again(q, start)) && GrownTruth(t, Truth(q), after) && AdmitsTruth(later, after, Truth(Again(q, start)))
    requires ticker in q.tickers && i < |Log(q.evidence, ticker)|
    ensures CanonicalTime(Log(q.evidence, ticker)[i].recordedAt) == CanonicalTime(start)
  {
    hide Log, MembershipRow, Compiled, Accepted, CanonicalTime, GrownTruth, AdmitsTruth, FindSecurity, Again, Memberships, Grown, IdsAgree, GoodLog;
    var again := Again(q, start);
    LogAgain(q, start, ticker);
    SameConstants(q, start);
    RowIsCompiled(q, q, ticker, i);
    RowIsCompiled(again, again, ticker, i);
    RowsAgain(q, start, ticker, i);
    MembershipsAgree(later, t, Truth(q), after, Truth(again));
    var security := FindSecurity(q.universe, ticker).value;
    SameIdSameRow(later, t, Truth(q), after, Truth(again),
                  MembershipRow(q, security, Log(q.evidence, ticker)[i], i), MembershipRow(again, security, Log(again.evidence, ticker)[i], i));
  }

  lemma SameConstants(q: Request, start: int)
    ensures SameIndex(q, q) && SameIndex(Again(q, start), Again(q, start)) && Again(q, start).tickers == q.tickers && Again(q, start).universe == q.universe
  {
  }

  lemma MembershipsAgree(later: Parents, t: Tables, first: TruthBatch, after: Tables, second: TruthBatch)
    requires GrownTruth(t, first, after) && AdmitsTruth(later, after, second)
    ensures Grown(Memberships(NOBODY), t.memberships, first.memberships, after.memberships)
    ensures IdsAgree(Memberships(later), after.memberships, second.memberships)
  {
    hide Identifiers, Listings, CalendarKind, SessionKind, Actions, Grown, IdsAgree, NewFit, NewApart;
  }

  lemma SameIdSameRow(later: Parents, t: Tables, first: TruthBatch, after: Tables, second: TruthBatch, x: Version<Membership>, y: Version<Membership>)
    requires Grown(Memberships(NOBODY), t.memberships, first.memberships, after.memberships)
    requires IdsAgree(Memberships(later), after.memberships, second.memberships)
    requires x in first.memberships && y in second.memberships && x.id == y.id
    ensures x == y
  {
    var n :| 0 <= n < |first.memberships| && first.memberships[n] == x;
    var m :| 0 <= m < |second.memberships| && second.memberships[m] == y;
  }

  // ---------- one notice collected twice ----------

  /** One notice about one mapped security. */
  function OneNotice(effectiveAt: int, recordedAt: int): Request
  {
    Request("d", "s", "index", ["T"], [Security("x", "i", "T", "e", "XNAS", "USD", true)],
            [Evidence("T", true, effectiveAt, 0, 0, "l", Manifests.ZeroHash(), recordedAt)])
  }

  function OneParents(): Parents { Parents({"x"}, {"i"}, {"d"}, {}) }

  lemma OneNoticeCompiles(effectiveAt: int, recordedAt: int)
    requires effectiveAt != ZERO_TIME
    ensures var q := OneNotice(effectiveAt, recordedAt);
            && Accepted(q) && Log(q.evidence, "T") == q.evidence
            && Truth(q) == TruthBatch([IdentifierRow(q, q.universe[0], q.evidence[0])], [ListingRow(q, q.universe[0], q.evidence[0])],
                                      [MembershipRow(q, q.universe[0], q.evidence[0], 0)], [], [], [])
  {
    var q := OneNotice(effectiveAt, recordedAt);
    var events, mapped := q.evidence, q.universe;
    assert EventsOf(events, "T") == events by {
      assert events[..|events| - 1] == [] && EventsOf([], "T") == [];
    }
    assert SortBy(Earlier, events) == events by {
      assert events[1..] == [] && SortBy(Earlier, []) == [];
    }
    assert FindSecurity(mapped, "T") == Some(mapped[0]);
    hide EventsOf, FindSecurity, MembershipRow, IdentifierRow, ListingRow, SortBy;
    assert TickerAccepted(q, "T");
    assert Compiled(q, 0) == Batch([], [], []);
    assert MembershipRows(q, mapped[0], events) == [MembershipRow(q, mapped[0], events[0], 0)];
    assert Compiled(q, 1) == TickerBatch(q, "T");
  }

  lemma Written(s: string)
    requires s != "" && !Text.IsSpace(s[0])
    ensures Nonblank(s)
  {
    Calendars.NonBlank(s, 0);
  }

  lemma NamesWritten(q: Request, security: Security, e: Evidence)
    ensures Nonblank(IdentifierRow(q, security, e).id) && Nonblank(ListingRow(q, security, e).id) && Nonblank(MembershipRow(q, security, e, 0).id)
  {
    hide Nonblank;
    Calendars.JoinStarts("identifier", [q.dataSourceId, security.securityId, "ticker", security.ticker, security.mic, Text.Sprint(e.effectiveAt)]);
    Calendars.JoinStarts("listing", [q.dataSourceId, security.securityId, security.mic, Text.Sprint(e.effectiveAt)]);
    Calendars.JoinStarts("membership", [q.dataSourceId, q.universeId, security.securityId, Text.Sprint(e.effectiveAt), if e.member then "true" else "false"]);
    Written(IdentifierRow(q, security, e).id);
    Written(ListingRow(q, security, e).id);
    Written(MembershipRow(q, security, e, 0).id);
  }

  lemma NotYetZero(t: int)
    requires t >= 0
    ensures CanonicalTime(t) >= 0 && CanonicalTime(0) == 0 && ZERO_TIME < 0
  {
  }

  lemma OneRowsValid(effectiveAt: int, recordedAt: int)
    requires effectiveAt >= 0 && recordedAt >= 0
    ensures var q := OneNotice(effectiveAt, recordedAt);
            && ValidIdentifier(IdentifierRow(q, q.universe[0], q.evidence[0])) && ValidListing(ListingRow(q, q.universe[0], q.evidence[0]))
            && ValidMembership(MembershipRow(q, q.universe[0], q.evidence[0], 0))
  {
    var q := OneNotice(effectiveAt, recordedAt);
    NamesWritten(q, q.universe[0], q.evidence[0]);
    NotYetZero(effectiveAt);
    NotYetZero(recordedAt);
    assert "s" + "/" + "l" == "s/l";
    Written("s/l");
    Written("d");
    Written("x");
    Written("T");
    Written("e");
    Written("ticker");
    Written("XNAS");
    Written("USD");
    Written("index");
    hide Text.TrimSpace, Text.Join, CanonicalTime, Manifests.ZeroHash;
  }

  lemma OneRowsFit(effectiveAt: int, recordedAt: int)
    requires effectiveAt >= 0 && recordedAt >= 0
    ensures var q, p := OneNotice(effectiveAt, recordedAt), OneParents();
            var x, y, z := IdentifierRow(q, q.universe[0], q.evidence[0]), ListingRow(q, q.universe[0], q.evidence[0]), MembershipRow(q, q.universe[0], q.evidence[0], 0);
            && IdentifierFits(StoredIdentifier(x)) && Identifiers(p).linked(StoredIdentifier(x))
            && ListingFits(StoredListing(y)) && Listings(p).linked(StoredListing(y))
            && MembershipFits(StoredMembership(z)) && Memberships(p).linked(StoredMembership(z))
  {
    var q := OneNotice(effectiveAt, recordedAt);
    OneRowsValid(effectiveAt, recordedAt);
    CanonicalRows(q, q.universe[0], q.evidence[0], 0);
    var x, y, z := IdentifierRow(q, q.universe[0], q.evidence[0]), ListingRow(q, q.universe[0], q.evidence[0]), MembershipRow(q, q.universe[0], q.evidence[0], 0);
    IdentifierFitsIff(x);
    ListingFitsIff(y);
    MembershipFitsIff(z);
    hide Text.TrimSpace, Text.Join, CanonicalTime, Manifests.ZeroHash, StoredIdentifier, StoredListing, StoredMembership, IdentifierFits, ListingFits, MembershipFits, Nonblank, Calendars.ValidCommon;
    assert IsCode("ticker") && IsMic("XNAS") && IsCurrency("USD") && IsCode("index");
  }

  lemma OneNoticeFits(t: Tables, effectiveAt: int, recordedAt: int)
    requires effectiveAt >= 0 && recordedAt >= 0
    ensures Accepted(OneNotice(effectiveAt, recordedAt)) && ValidTruth({}, Truth(OneNotice(effectiveAt, recordedAt)))
    ensures NewRowsFit(OneParents(), t, Truth(OneNotice(effectiveAt, recordedAt)))
  {
    hide Truth, IdentifierRow, ListingRow, MembershipRow, ValidIdentifier, ValidListing, ValidMembership, StoredIdentifier, StoredListing,
         StoredMembership, IdentifierFits, ListingFits, MembershipFits, Identifiers, Listings, Memberships, Accepted, Log, ValidTruth, NewRowsFit;
    var q := OneNotice(effectiveAt, recordedAt);
    OneNoticeCompiles(effectiveAt, recordedAt);
    OneRowsValid(effectiveAt, recordedAt);
    OneRowsFit(effectiveAt, recordedAt);
    OneOfEachValid(IdentifierRow(q, q.universe[0], q.evidence[0]), ListingRow(q, q.universe[0], q.evidence[0]), MembershipRow(q, q.universe[0], q.evidence[0], 0));
    OneOfEachFits(t, IdentifierRow(q, q.universe[0], q.evidence[0]), ListingRow(q, q.universe[0], q.evidence[0]), MembershipRow(q, q.universe[0], q.evidence[0], 0));
  }

  lemma OneOfEachValid(x: Version<IdentifierVersion>, y: Version<ListingVersion>, z: Version<Membership>)
    requires ValidIdentifier(x) && ValidListing(y) && ValidMembership(z)
    ensures ValidTruth({}, TruthBatch([x], [y], [z], [], [], []))
  {
    hide ValidIdentifier, ValidListing, ValidMembership, Calendars.ValidBatch;
    NoCalendars();
  }

  lemma OneOfEachFits(t: Tables, x: Version<IdentifierVersion>, y: Version<ListingVersion>, z: Version<Membership>)
    requires IdentifierFits(StoredIdentifier(x)) && Identifiers(OneParents()).linked(StoredIdentifier(x))
    requires ListingFits(StoredListing(y)) && Listings(OneParents()).linked(StoredListing(y))
    requires MembershipFits(StoredMembership(z)) && Memberships(OneParents()).linked(StoredMembership(z))
    ensures NewRowsFit(OneParents(), t, TruthBatch([x], [y], [z], [], [], []))
  {
    hide IdentifierFits, ListingFits, MembershipFits, StoredIdentifier, StoredListing, StoredMembership;
  }

  lemma NoCalendars()
    ensures Calendars.ValidBatch({}, [], [])
  {
  }

  lemma OneIndex(e1: int, r1: int, e2: int, r2: int)
    ensures PlainIndex(OneNotice(e1, r1)) && SameIndex(OneNotice(e1, r1), OneNotice(e2, r2))
    ensures RunsOf(OneNotice(e1, r1), [Collection(OneParents(), OneNotice(e1, r1)), Collection(OneParents(), OneNotice(e2, r2))])
  {
  }

  lemma FirstRun(effectiveAt: int, recordedAt: int)
    requires effectiveAt >= 0 && recordedAt >= 0
    ensures var q := OneNotice(effectiveAt, recordedAt);
            var shelf := ShelfAfter({}, [Collection(OneParents(), q)]);
            && Accepted(q) && PublishTruth({}, OneParents(), EMPTY, Truth(q)) == Some(shelf.tables)
            && shelf.book == map["T" := q.evidence] && Kept(q, shelf)
  {
    hide ValidTruth, PublishTruth, Truth, Accepted, Log, PlainIndex, SameIndex, InBook, Booked, SettledTables, NewRowsFit, IdentifierRow, ListingRow, MembershipRow;
    var q, empty := OneNotice(effectiveAt, recordedAt), Shelf(EMPTY, map[]);
    var c := Collection(OneParents(), q);
    OneIndex(effectiveAt, recordedAt, effectiveAt, recordedAt);
    OneNoticeFits(EMPTY, effectiveAt, recordedAt);
    OneNoticeCompiles(effectiveAt, recordedAt);
    NothingKept(q);
    assert [c][..|[c]| - 1] == [];
    assert ShelfAfter({}, []) == empty;
    OnlyEntry(q);
    PublishedIffCompatible({}, OneParents(), q, EMPTY, map[], q);
    RunKeeps({}, q, empty, c);
  }

  lemma OnlyEntry(q: Request)
    requires q.tickers == ["T"]
    ensures Entered(map[], q) == map["T" := Log(q.evidence, "T")]
  {
    hide Log;
  }

  /**
   One run publishes a notice; a later run of the same index that knows one notice about
   the same security is published exactly when it is the same notice, recorded in the
   same microsecond. An earlier or later effective date is refused although its rows
   have identifiers of their own: both intervals are open and both carry revision zero.
   */
  lemma NoticeCollectedTwice(e1: int, r1: int, e2: int, r2: int)
    requires e1 >= 0 && r1 >= 0 && e2 >= 0 && r2 >= 0
    ensures var first, second := OneNotice(e1, r1), OneNotice(e2, r2);
            && Accepted(first) && Accepted(second) && PublishTruth({}, OneParents(), EMPTY, Truth(first)).Some?
            && (PublishTruth({}, OneParents(), PublishTruth({}, OneParents(), EMPTY, Truth(first)).value, Truth(second)).Some? <==>
                  e1 == e2 && CanonicalTime(r1) == CanonicalTime(r2))
  {
    hide PublishTruth, Truth, Accepted, Kept, CanonicalTime, ShelfAfter, OneNotice;
    var shelf := ShelfAfter({}, [Collection(OneParents(), OneNotice(e1, r1))]);
    FirstRun(e1, r1);
    SecondRun(shelf, e1, r1, e2, r2);
  }

  lemma SecondRun(shelf: Shelf, e1: int, r1: int, e2: int, r2: int)
    requires e2 >= 0 && r2 >= 0
    requires shelf.book == map["T" := OneNotice(e1, r1).evidence] && Kept(OneNotice(e1, r1), shelf)
    ensures Accepted(OneNotice(e2, r2))
    ensures PublishTruth({}, OneParents(), shelf.tables, Truth(OneNotice(e2, r2))).Some? <==> e1 == e2 && CanonicalTime(r1) == CanonicalTime(r2)
  {
    hide ValidTruth, PublishTruth, Truth, Accepted, Log, PlainIndex, SameIndex, RunsOf, InBook, Booked, SettledTables, NewRowsFit, CanonicalTime, OneNotice,
         SameNotice, AllCompatible, IdentifierRow, ListingRow, MembershipRow;
    var first, second := OneNotice(e1, r1), OneNotice(e2, r2);
    OneIndex(e1, r1, e2, r2);
    OneNoticeFits(shelf.tables, e2, r2);
    OneNoticeCompiles(e2, r2);
    NoticesAlike(e1, r1, e2, r2);
    PublishedIffCompatible({}, OneParents(), first, shelf.tables, shelf.book, second);
    OneCompatible(shelf.book, first, second);
  }

  lemma NoticesAlike(e1: int, r1: int, e2: int, r2: int)
    ensures var first, second := OneNotice(e1, r1), OneNotice(e2, r2);
            && |first.evidence| == 1 && |second.evidence| == 1 && second.tickers == ["T"]
            && (SameNotice(first.evidence[0], second.evidence[0]) <==> e1 == e2 && CanonicalTime(r1) == CanonicalTime(r2))
  {
    hide CanonicalTime;
  }

  lemma OneCompatible(book: Book, first: Request, second: Request)
    requires |first.evidence| == 1 && |second.evidence| == 1 && second.tickers == ["T"]
    requires book == map["T" := first.evidence] && Log(second.evidence, "T") == second.evidence
    ensures AllCompatible(book, second) <==> SameNotice(first.evidence[0], second.evidence[0])
  {
    hide Log, SameNotice;
    assert "T" in second.tickers;
  }
}
