/**
 Acceptance of a discovery index: counts, ranks and the order its rows are stored in.
 */
module Discovery {
  import opened Wrappers
  import opened Instants
  import opened Patterns
  import opened Sorting
  import opened Fields
  import opened Text
  import opened Manifests

  datatype Ranking = Ranking(securityId: string, ticker: string, sector: string, eligibilityStatus: string, rank: Option<int>, score: Option<string>, candidate: bool)

  datatype Header = Header(
    discoveryId: string, modelName: string, modelVersion: string, gitCommit: string, universeId: string, universeName: string,
    universeFingerprint: string, marketSession: int, decisionAt: int, featureBatchId: string, featureInputFingerprint: string,
    manifestPath: string, manifestSha256: string)

  datatype Registration = Registration(header: Header, candidateCount: int, eligibleCount: int, rejectedCount: int, rankings: seq<Ranking>)

  datatype RegistrationError = BadHeader | BadCounts | BadRow(index: nat) | RanksNotContiguous | SummaryDiffers

  function TrimHeader(h: Header): Header
  {
    Header(
      TrimSpace(h.discoveryId), TrimSpace(h.modelName), TrimSpace(h.modelVersion), TrimSpace(h.gitCommit), TrimSpace(h.universeId),
      TrimSpace(h.universeName), TrimSpace(h.universeFingerprint), h.marketSession, h.decisionAt, TrimSpace(h.featureBatchId),
      TrimSpace(h.featureInputFingerprint), TrimSpace(h.manifestPath), TrimSpace(h.manifestSha256))
  }

  predicate HeaderGood(h: Header)
  {
    && ParsesAsUuid(h.discoveryId) && ParsesAsUuid(h.universeId) && ParsesAsUuid(h.featureBatchId)
    && IsName(h.modelName) && IsName(h.universeName) && IsVersion(h.modelVersion) && ValidGitCommit(h.gitCommit)
    && IsLowerHex(h.universeFingerprint, 64) && IsLowerHex(h.featureInputFingerprint, 64) && IsLowerHex(h.manifestSha256, 64)
    && IsSafePath(h.manifestPath) && h.marketSession != ZERO_TIME && h.decisionAt != ZERO_TIME
  }

  function Trimmed(r: Ranking): Ranking
  {
    r.(securityId := TrimSpace(r.securityId), ticker := TrimSpace(r.ticker), sector := TrimSpace(r.sector), eligibilityStatus := TrimSpace(r.eligibilityStatus))
  }

  function IdFields(): Ranking -> seq<Part> { (r: Ranking) => [Word(r.securityId)] }

  /** Sorted by the identifier as given, and only then trimmed. */
  function Rows(r: Registration): seq<Ranking>
  {
    Map((x: Ranking) => Trimmed(x), SortOn(IdFields(), r.rankings))
  }

  predicate Eligible(r: Ranking) { r.eligibilityStatus == "eligible" }

  predicate RowFormat(r: Ranking) { ParsesAsUuid(r.securityId) && IsTicker(r.ticker) && IsName(r.sector) }

  predicate RowGood(r: Ranking)
  {
    && RowFormat(r)
    && if r.eligibilityStatus == "eligible" then r.rank.Some? && r.score.Some? && r.rank.value > 0
       else r.eligibilityStatus == "rejected" && r.rank.None? && r.score.None? && !r.candidate
  }

  predicate RowsGood(rows: seq<Ranking>)
  {
    && (forall i :: 0 <= i < |rows| ==> RowGood(rows[i]))
    && (forall i, j :: 0 <= i < j < |rows| ==> rows[i].securityId != rows[j].securityId)
    && (forall i, j :: 0 <= i < j < |rows| && Eligible(rows[i]) && Eligible(rows[j]) ==> rows[i].rank != rows[j].rank)
  }

  function CountEligible(rows: seq<Ranking>): nat
  {
    if rows == [] then 0 else CountEligible(rows[..|rows| - 1]) + if Eligible(rows[|rows| - 1]) then 1 else 0
  }

  function CountCandidates(rows: seq<Ranking>): nat
  {
    if rows == [] then 0 else CountCandidates(rows[..|rows| - 1]) + if rows[|rows| - 1].candidate then 1 else 0
  }

  predicate HasRank(rows: seq<Ranking>, rank: int)
  {
    exists i :: 0 <= i < |rows| && Eligible(rows[i]) && rows[i].rank == Some(rank)
  }

  predicate Contiguous(rows: seq<Ranking>, n: nat)
  {
    forall rank :: 1 <= rank <= n ==> HasRank(rows, rank)
  }

  predicate Accepted(r: Registration)
  {
    var rows := Rows(r);
    && HeaderGood(TrimHeader(r.header))
    && r.candidateCount >= 0 && r.eligibleCount >= 0 && r.rejectedCount >= 0 && r.candidateCount <= r.eligibleCount
    && |r.rankings| == r.eligibleCount + r.rejectedCount
    && RowsGood(rows)
    && Contiguous(rows, CountEligible(rows))
    && CountCandidates(rows) == r.candidateCount && CountEligible(rows) == r.eligibleCount && |rows| - CountEligible(rows) == r.rejectedCount
  }

  // ---------- the accepting loop ----------

  predicate Fresh(rows: seq<Ranking>, r: Ranking)
  {
    forall k :: 0 <= k < |rows| ==> rows[k].securityId != r.securityId && (Eligible(rows[k]) && Eligible(r) ==> rows[k].rank != r.rank)
  }

  lemma OneMoreRow(rows: seq<Ranking>, n: nat)
    requires n < |rows|
    ensures RowsGood(rows[..n + 1]) <==> RowsGood(rows[..n]) && RowGood(rows[n]) && Fresh(rows[..n], rows[n])
    ensures RowsGood(rows) ==> RowsGood(rows[..n + 1])
    ensures CountEligible(rows[..n + 1]) == CountEligible(rows[..n]) + if Eligible(rows[n]) then 1 else 0
    ensures CountCandidates(rows[..n + 1]) == CountCandidates(rows[..n]) + if rows[n].candidate then 1 else 0
  {
    hide RowGood;
    var before, after := rows[..n], rows[..n + 1];
    assert after[n] == rows[n] && after[..n] == before;
    assert forall k :: 0 <= k < n ==> after[k] == before[k] == rows[k];
  }

  predicate HasId(rows: seq<Ranking>, s: string) { exists k :: 0 <= k < |rows| && rows[k].securityId == s }

  lemma HasOneMore(rows: seq<Ranking>, r: Ranking)
    ensures forall n :: HasRank(rows + [r], n) <==> HasRank(rows, n) || (Eligible(r) && r.rank == Some(n))
    ensures forall s :: HasId(rows + [r], s) <==> HasId(rows, s) || s == r.securityId
  {
    var all := rows + [r];
    assert all[|rows|] == r && forall k :: 0 <= k < |rows| ==> all[k] == rows[k];
    forall n ensures HasRank(all, n) <==> HasRank(rows, n) || (Eligible(r) && r.rank == Some(n)) {
      if k :| 0 <= k < |rows| && Eligible(rows[k]) && rows[k].rank == Some(n) {
        assert Eligible(all[k]) && all[k].rank == Some(n);
      }
      if Eligible(r) && r.rank == Some(n) {
        assert Eligible(all[|rows|]) && all[|rows|].rank == Some(n);
      }
    }
    forall s ensures HasId(all, s) <==> HasId(rows, s) || s == r.securityId {
      if k :| 0 <= k < |rows| && rows[k].securityId == s {
        assert all[k].securityId == s;
      }
      if s == r.securityId {
        assert all[|rows|].securityId == s;
      }
    }
  }

  ghost predicate Seen(rows: seq<Ranking>, ids: set<string>, ranks: set<int>)
  {
    && (forall s :: s in ids <==> HasId(rows, s))
    && (forall n :: n in ranks <==> HasRank(rows, n))
  }

  lemma FreshMeans(rows: seq<Ranking>, r: Ranking)
    requires RowGood(r) && forall k :: 0 <= k < |rows| ==> RowGood(rows[k])
    ensures Fresh(rows, r) <==> !HasId(rows, r.securityId) && (Eligible(r) ==> !HasRank(rows, r.rank.value))
  {
  }

  lemma SeenOneMore(rows: seq<Ranking>, ids: set<string>, ranks: set<int>, r: Ranking)
    requires Seen(rows, ids, ranks) && RowGood(r) && forall k :: 0 <= k < |rows| ==> RowGood(rows[k])
    ensures Seen(rows + [r], ids + {r.securityId}, if Eligible(r) then ranks + {r.rank.value} else ranks)
    ensures Fresh(rows, r) <==> r.securityId !in ids && (Eligible(r) ==> r.rank.value !in ranks)
  {
    HasOneMore(rows, r);
    FreshMeans(rows, r);
    hide HasId, HasRank, Fresh;
  }

  method CheckRow(row: Ranking, ids: set<string>, ranks: set<int>) returns (ok: bool, after: set<int>)
    ensures ok <==> RowGood(row) && row.securityId !in ids && (Eligible(row) ==> row.rank.value !in ranks)
    ensures ok ==> after == if Eligible(row) then ranks + {row.rank.value} else ranks
  {
    if !RowFormat(row) || row.securityId in ids {
      return false, ranks;
    }
    if row.eligibilityStatus == "eligible" {
      if row.rank.None? || row.score.None? || row.rank.value <= 0 || row.rank.value in ranks {
        return false, ranks;
      }
      return true, ranks + {row.rank.value};
    }
    return row.eligibilityStatus == "rejected" && row.rank.None? && row.score.None? && !row.candidate, ranks;
  }

  method ScanRows(rows: seq<Ranking>) returns (ok: Option<nat>, candidates: nat, eligible: nat, ranks: set<int>)
    ensures ok.None? <==> RowsGood(rows)
    ensures ok.None? ==> candidates == CountCandidates(rows) && eligible == CountEligible(rows) && forall n :: n in ranks <==> HasRank(rows, n)
  {
    var ids: set<string> := {};
    candidates, eligible, ranks := 0, 0, {};
    assert RowsGood(rows[..0]) && CountEligible(rows[..0]) == 0 && CountCandidates(rows[..0]) == 0 && Seen(rows[..0], ids, ranks);
    for i := 0 to |rows|
      invariant RowsGood(rows[..i]) && Seen(rows[..i], ids, ranks)
      invariant candidates == CountCandidates(rows[..i]) && eligible == CountEligible(rows[..i])
    {
      var row, good, after := rows[i], false, ranks;
      good, after := CheckRow(row, ids, ranks);
      OneMoreRow(rows, i);
      if RowGood(row) {
        SeenOneMore(rows[..i], ids, ranks, row);
      }
      hide RowGood, Seen, Fresh, RowsGood, HasRank, CountCandidates, CountEligible;
      assert rows[..i] + [row] == rows[..i + 1];
      if !good {
        return Some(i), candidates, eligible, ranks;
      }
      ids, ranks := ids + {row.securityId}, after;
      eligible := if Eligible(row) then eligible + 1 else eligible;
      candidates := if row.candidate then candidates + 1 else candidates;
    }
    assert rows[..|rows|] == rows;
    return None, candidates, eligible, ranks;
  }

  method CheckContiguous(rows: seq<Ranking>, ranks: set<int>, eligible: nat) returns (ok: bool)
    requires forall n :: n in ranks <==> HasRank(rows, n)
    ensures ok <==> Contiguous(rows, eligible)
  {
    hide HasRank;
    var rank := 1;
    while rank <= eligible
      invariant 1 <= rank <= eligible + 1 && forall k :: 1 <= k < rank ==> HasRank(rows, k)
    {
      if rank !in ranks {
        return false;
      }
      rank := rank + 1;
    }
    return true;
  }

  method Normalized(r: Registration) returns (n: Result<Registration, RegistrationError>)
    ensures n.Ok? <==> Accepted(r)
    ensures n.Ok? ==> n.value == r.(header := TrimHeader(r.header), rankings := Rows(r))
  {
    hide RowsGood, CountCandidates, CountEligible, HasRank, Rows, Contiguous, HeaderGood, TrimHeader;
    if !HeaderGood(TrimHeader(r.header)) {
      return Err(BadHeader);
    }
    if r.candidateCount < 0 || r.eligibleCount < 0 || r.rejectedCount < 0 || r.candidateCount > r.eligibleCount {
      return Err(BadCounts);
    }
    if |r.rankings| != r.eligibleCount + r.rejectedCount {
      return Err(BadCounts);
    }
    var rows := Rows(r);
    var bad, candidates, eligible, ranks := ScanRows(rows);
    if bad.Some? {
      return Err(BadRow(bad.value));
    }
    var contiguous := CheckContiguous(rows, ranks, eligible);
    if !contiguous {
      return Err(RanksNotContiguous);
    }
    if candidates != r.candidateCount || eligible != r.eligibleCount || |rows| - eligible != r.rejectedCount {
      return Err(SummaryDiffers);
    }
    return Ok(r.(header := TrimHeader(r.header), rankings := rows));
  }

  // ---------- ranks are a permutation ----------

  function RankSet(rows: seq<Ranking>): (r: set<int>)
  {
    if rows == [] then {}
    else
      var last := rows[|rows| - 1];
      RankSet(rows[..|rows| - 1]) + if Eligible(last) && last.rank.Some? then {last.rank.value} else {}
  }

  lemma {:induction false} RankSetIs(rows: seq<Ranking>)
    ensures forall n :: n in RankSet(rows) <==> HasRank(rows, n)
    decreases |rows|
  {
    if rows != [] {
      var front, last := rows[..|rows| - 1], rows[|rows| - 1];
      RankSetIs(front);
      HasOneMore(front, last);
      assert front + [last] == rows;
      hide HasRank;
    }
  }

  lemma {:induction false} RankSetSize(rows: seq<Ranking>)
    requires RowsGood(rows)
    ensures |RankSet(rows)| == CountEligible(rows)
    decreases |rows|
  {
    if rows != [] {
      var front, last := rows[..|rows| - 1], rows[|rows| - 1];
      assert rows[..|front| + 1] == rows;
      OneMoreRow(rows, |front|);
      RankSetSize(front);
      RankSetIs(front);
      if Eligible(last) {
        assert RowGood(last) && Fresh(front, last);
        FreshMeans(front, last);
      }
      hide RowGood, HasRank, Fresh, RowsGood;
    }
  }

  function UpTo(n: nat): (r: set<int>)
    ensures forall k :: k in r <==> 1 <= k <= n
  {
    if n == 0 then {} else UpTo(n - 1) + {n}
  }

  lemma {:induction false} UpToSize(n: nat)
    ensures |UpTo(n)| == n
  {
    if n > 0 {
      UpToSize(n - 1);
    }
  }

  lemma EqualBySize(a: set<int>, b: set<int>)
    requires a <= b && |a| == |b|
    ensures a == b
  {
    assert b == a + (b - a);
  }

  /** The ranks of the eligible rows are exactly 1 to their number, each held by one row. */
  lemma RanksArePermutation(r: Registration)
    requires Accepted(r)
    ensures forall rank :: HasRank(Rows(r), rank) <==> 1 <= rank <= r.eligibleCount
    ensures forall i, j :: 0 <= i < j < |Rows(r)| && Eligible(Rows(r)[i]) && Eligible(Rows(r)[j]) ==> Rows(r)[i].rank != Rows(r)[j].rank
  {
    var rows := Rows(r);
    hide Rows;
    RankSetSize(rows);
    UpToSize(CountEligible(rows));
    RankSetIs(rows);
    hide HasRank, RankSet, CountEligible;
    EqualBySize(UpTo(CountEligible(rows)), RankSet(rows));
  }

  // ---------- trimming after sorting ----------

  /** The stored order is the order of the stored identifiers. */
  ghost predicate InOrder(rows: seq<Ranking>)
  {
    forall i, j :: 0 <= i < j < |rows| ==> !Less(rows[j].securityId, rows[i].securityId)
  }

  lemma TrimmedOnce(r: Ranking)
    ensures Trimmed(Trimmed(r)) == Trimmed(r)
  {
    TrimSpaceTrims(r.securityId);
    TrimSpaceTrims(r.ticker);
    TrimSpaceTrims(r.sector);
    TrimSpaceTrims(r.eligibilityStatus);
    hide TrimSpace;
  }

  lemma WordLess(a: string, b: string)
    ensures PartsLess([Word(a)], [Word(b)]) == Less(a, b)
  {
    LessTrichotomy(a, b);
    assert [Word(a)][1..] == [] && [Word(b)][1..] == [];
  }

  /** Trimming leaves the identifiers in the order they were given in. */
  ghost predicate TrimKeepsOrder(rankings: seq<Ranking>)
  {
    forall i, j :: 0 <= i < |rankings| && 0 <= j < |rankings| && Less(rankings[i].securityId, rankings[j].securityId) ==>
      Less(TrimSpace(rankings[i].securityId), TrimSpace(rankings[j].securityId))
  }

  /**
   Rows are sorted before they are trimmed, so accepting the accepted rows again gives
   the same rows exactly when trimming keeps the order of the given identifiers.
   */
  lemma CanonicalIffTrimKeepsOrder(r: Registration)
    requires Accepted(r)
    ensures var again := r.(rankings := Rows(r)); Rows(again) == Rows(r) <==> TrimKeepsOrder(r.rankings)
  {
    CanonicalIffInOrder(r);
    hide Accepted, InOrder, TrimKeepsOrder, Rows;
    if InOrder(Rows(r)) {
      OrderedRowsKeep(r);
    }
    if TrimKeepsOrder(r.rankings) {
      KeptOrderRows(r);
    }
  }

  /** The raw rows behind the stored ones, in their sorted order. */
  lemma SortedRaw(r: Registration) returns (raw: seq<Ranking>)
    requires Accepted(r)
    ensures |raw| == |Rows(r)| && forall x :: x in raw <==> x in r.rankings
    ensures forall i :: 0 <= i < |raw| ==> Rows(r)[i].securityId == TrimSpace(raw[i].securityId)
    ensures forall i, j :: 0 <= i < j < |raw| ==> !Less(raw[j].securityId, raw[i].securityId) && Rows(r)[i].securityId != Rows(r)[j].securityId
  {
    hide TrimSpace, RowGood, CountEligible, CountCandidates, Contiguous;
    raw := SortOn(IdFields(), r.rankings);
    assert SameWidth(IdFields(), r.rankings);
    SortOnSorted(IdFields(), r.rankings);
    SameMembers(raw, r.rankings);
    forall i, j | 0 <= i < j < |raw| ensures !Less(raw[j].securityId, raw[i].securityId) {
      WordLess(raw[j].securityId, raw[i].securityId);
      assert !ByFields(IdFields())(raw[j], raw[i]);
    }
  }

  lemma OrderedRowsKeep(r: Registration)
    requires Accepted(r) && InOrder(Rows(r))
    ensures TrimKeepsOrder(r.rankings)
  {
    hide Accepted, Rows, TrimSpace;
    var raw := SortedRaw(r);
    var rows := Rows(r);
    forall i, j | 0 <= i < |r.rankings| && 0 <= j < |r.rankings| && Less(r.rankings[i].securityId, r.rankings[j].securityId)
      ensures Less(TrimSpace(r.rankings[i].securityId), TrimSpace(r.rankings[j].securityId))
    {
      assert r.rankings[i] in raw && r.rankings[j] in raw;
      var a :| 0 <= a < |raw| && raw[a] == r.rankings[i];
      var b :| 0 <= b < |raw| && raw[b] == r.rankings[j];
      LessTrichotomy(raw[a].securityId, raw[b].securityId);
      LessTrichotomy(rows[a].securityId, rows[b].securityId);
    }
  }

  lemma KeptOrderRows(r: Registration)
    requires Accepted(r) && TrimKeepsOrder(r.rankings)
    ensures InOrder(Rows(r))
  {
    hide Accepted, Rows, TrimSpace;
    var raw := SortedRaw(r);
    var rows := Rows(r);
    forall i, j | 0 <= i < j < |rows| ensures !Less(rows[j].securityId, rows[i].securityId) {
      assert raw[i] in r.rankings && raw[j] in r.rankings;
      var a :| 0 <= a < |r.rankings| && r.rankings[a] == raw[i];
      var b :| 0 <= b < |r.rankings| && r.rankings[b] == raw[j];
      LessTrichotomy(raw[i].securityId, raw[j].securityId);
      LessTrichotomy(rows[i].securityId, rows[j].securityId);
    }
  }

  function PlainHeader(): Header
  {
    Header(NilUuid(), "momentum", "1.0.0", "unknown", NilUuid(), "index", ZeroHash(), 0, 0, NilUuid(), ZeroHash(), "manifest", ZeroHash())
  }

  /** Two rejected rows, the second identifier led by a space. */
  function Pair(a: string, b: string): Registration
  {
    Registration(PlainHeader(), 0, 0, 2, [Ranking(a, "AAA", "energy", "rejected", None, None, false), Ranking(" " + b, "BBB", "energy", "rejected", None, None, false)])
  }

  /** A leading space takes a later identifier to the front, where trimming leaves it. */
  lemma LeadingSpaceDisturbs(a: string, b: string)
    requires a != "" && b != "" && a[0] > ' ' && Less(a, b)
    requires TrimSpace(a) == a && TrimSpace(b) == b && ParsesAsUuid(a) && ParsesAsUuid(b)
    ensures Accepted(Pair(a, b))
    ensures var r := Pair(a, b); Rows(r.(rankings := Rows(r))) != Rows(r)
  {
    hide SortOn, TrimSpace, Less, Rows, Accepted, Pair;
    var r := Pair(a, b);
    PairRows(a, b);
    PairAccepted(a, b);
    LessTrichotomy(a, b);
    CanonicalIffInOrder(r);
    assert Less(Rows(r)[1].securityId, Rows(r)[0].securityId);
  }

  lemma PairAccepted(a: string, b: string)
    requires a != "" && b != "" && a[0] > ' ' && Less(a, b)
    requires TrimSpace(a) == a && TrimSpace(b) == b && ParsesAsUuid(a) && ParsesAsUuid(b)
    ensures Accepted(Pair(a, b))
  {
    hide SortOn, TrimSpace, Less, Rows, RowsGood, CountEligible, CountCandidates, Contiguous, HeaderGood, TrimHeader, ParsesAsUuid;
    PairRows(a, b);
    LessTrichotomy(a, b);
    TrimLedBySpace(b);
    PlainHeaderGood();
    PairIsGood(Rows(Pair(a, b)), Pair(a, b).rankings);
    CountRejected(Rows(Pair(a, b)));
    NoneEligible(Rows(Pair(a, b)));
  }

  lemma PairIsGood(rows: seq<Ranking>, raw: seq<Ranking>)
    requires |raw| == 2 && rows == [Trimmed(raw[1]), Trimmed(raw[0])] && rows[0].securityId != rows[1].securityId
    requires forall i :: 0 <= i < 2 ==> raw[i].eligibilityStatus == "rejected" && raw[i].rank.None? && raw[i].score.None? && !raw[i].candidate
    requires forall i :: 0 <= i < 2 ==> ParsesAsUuid(TrimSpace(raw[i].securityId)) && raw[i].ticker in ["AAA", "BBB"] && raw[i].sector == "energy"
    ensures RowsGood(rows)
    ensures forall i :: 0 <= i < 2 ==> !Eligible(rows[i]) && !rows[i].candidate
  {
    RowWords();
    hide TrimSpace, ParsesAsUuid, IsTicker, IsName;
  }

  lemma RowWords()
    ensures TrimSpace("rejected") == "rejected" && TrimSpace("energy") == "energy" && TrimSpace("AAA") == "AAA" && TrimSpace("BBB") == "BBB"
    ensures IsTicker("AAA") && IsTicker("BBB") && IsName("energy")
  {
    TrimmedAlready("rejected");
    TrimmedAlready("AAA");
    TrimmedAlready("BBB");
    TrimmedAlready("energy");
    hide TrimSpace;
  }

  lemma PlainHeaderGood()
    ensures HeaderGood(TrimHeader(PlainHeader()))
  {
    hide TrimSpace, IsSafePath, IsVersion, IsName, IsLowerHex, ParsesAsUuid, ZeroHash, NilUuid;
    UuidTrimmed(NilUuid());
    UuidParses(NilUuid());
    HashTrimmed(ZeroHash());
    HeaderWords();
  }

  lemma HeaderWords()
    ensures TrimSpace("momentum") == "momentum" && TrimSpace("1.0.0") == "1.0.0" && TrimSpace("unknown") == "unknown"
    ensures TrimSpace("index") == "index" && TrimSpace("manifest") == "manifest"
    ensures IsName("momentum") && IsName("index") && IsVersion("1.0.0") && IsSafePath("manifest")
  {
    TrimmedAlready("momentum");
    TrimmedAlready("1.0.0");
    TrimmedAlready("unknown");
    TrimmedAlready("index");
    TrimmedAlready("manifest");
    HeaderFormats();
    hide TrimSpace, IsName, IsVersion, IsSafePath;
  }

  lemma HeaderFormats()
    ensures IsName("momentum") && IsName("index") && IsVersion("1.0.0") && IsSafePath("manifest")
  {
    VersionOne();
    PlainNameSafe("manifest");
    hide IsVersion, IsSafePath;
  }

  lemma NoneEligible(rows: seq<Ranking>)
    ensures Contiguous(rows, 0)
  {
  }

  lemma {:induction false} CountRejected(rows: seq<Ranking>)
    requires forall i :: 0 <= i < |rows| ==> !Eligible(rows[i]) && !rows[i].candidate
    ensures CountEligible(rows) == 0 && CountCandidates(rows) == 0
    decreases |rows|
  {
    if rows != [] {
      CountRejected(rows[..|rows| - 1]);
    }
  }

  lemma PairRows(a: string, b: string)
    requires a != "" && b != "" && a[0] > ' ' && TrimSpace(a) == a && TrimSpace(b) == b
    ensures var r := Pair(a, b); Rows(r) == [Trimmed(r.rankings[1]), Trimmed(r.rankings[0])] && Rows(r)[0].securityId == b && Rows(r)[1].securityId == a
  {
    assert (" " + b)[1..] == b && Less(" " + b, a);
    var r := Pair(a, b);
    hide Less, Trimmed, SortOn;
    assert r.rankings == [r.rankings[0], r.rankings[1]];
    SortPair(r.rankings[0], r.rankings[1]);
    TrimLedBySpace(b);
    TrimmedId(r.rankings[0]);
    TrimmedId(r.rankings[1]);
  }

  lemma TrimLedBySpace(s: string)
    ensures TrimSpace(" " + s) == TrimSpace(s)
  {
    assert (" " + s)[1..] == s;
  }

  lemma TrimmedId(r: Ranking)
    ensures Trimmed(r).securityId == TrimSpace(r.securityId)
  {
  }

  lemma SortPair(x: Ranking, y: Ranking)
    requires Less(y.securityId, x.securityId)
    ensures SortOn(IdFields(), [x, y]) == [y, x]
  {
    WordLess(y.securityId, x.securityId);
    hide Less;
    var less := ByFields(IdFields());
    assert [x, y][1..] == [y] && [y][1..] == [];
    assert SortBy(less, [y]) == [y];
    assert IdFields()(x) == [Word(x.securityId)] && IdFields()(y) == [Word(y.securityId)];
    assert less(y, x);
    assert Insert(less, x, [y]) == [y] + Insert(less, x, [y][1..]);
  }

  /** Accepted rows need not be in order: these two identifiers trade places. */
  lemma AcceptedRowsOutOfOrder()
    ensures var r := Pair("aaaaaaaa-aaaa-4aaa-8aaa-aaaaaaaaaaaa", "bbbbbbbb-bbbb-4bbb-8bbb-bbbbbbbbbbbb");
            Accepted(r) && Rows(r.(rankings := Rows(r))) != Rows(r)
  {
    var a, b := "aaaaaaaa-aaaa-4aaa-8aaa-aaaaaaaaaaaa", "bbbbbbbb-bbbb-4bbb-8bbb-bbbbbbbbbbbb";
    PairOfIds(a, b);
    hide Pair, Accepted, Rows, TrimSpace, ParsesAsUuid, Less;
    LeadingSpaceDisturbs(a, b);
  }

  lemma PairOfIds(a: string, b: string)
    requires a == "aaaaaaaa-aaaa-4aaa-8aaa-aaaaaaaaaaaa" && b == "bbbbbbbb-bbbb-4bbb-8bbb-bbbbbbbbbbbb"
    ensures TrimSpace(a) == a && TrimSpace(b) == b && Less(a, b)
    ensures ParsesAsUuid(a) && ParsesAsUuid(b)
  {
    hide TrimSpace, IsHyphenated, ParsesAsUuid, Less, IsSpace;
    Spelled(a, 'a');
    Spelled(b, 'b');
    FirstLess(a, b);
  }

  lemma FirstLess(a: string, b: string)
    requires a != "" && b != "" && a[0] < b[0]
    ensures Less(a, b)
  {
  }

  lemma Spelled(s: string, c: char)
    requires 'a' <= c <= 'f' && |s| == 36
    requires forall i :: 0 <= i < 36 ==> s[i] == if i in {8, 13, 18, 23} then '-' else if i == 14 then '4' else if i == 19 then '8' else c
    ensures ParsesAsUuid(s) && TrimSpace(s) == s
  {
    assert IsHyphenated(s);
    TrimmedAlready(s);
    hide TrimSpace;
  }

  lemma CanonicalIffInOrder(r: Registration)
    requires Accepted(r)
    ensures var again := r.(rankings := Rows(r)); Rows(again) == Rows(r) <==> InOrder(Rows(r))
  {
    var rows := Rows(r);
    var sorted := SortOn(IdFields(), rows);
    RowsAgain(r);
    assert RowsGood(rows) && forall i, j :: 0 <= i < j < |rows| ==> rows[i].securityId != rows[j].securityId;
    hide Rows, Accepted, RowsGood, SortOn, Less;
    SortOnSorted(IdFields(), rows);
    if sorted == rows {
      forall i, j | 0 <= i < j < |rows| ensures !Less(rows[j].securityId, rows[i].securityId) {
        WordLess(rows[j].securityId, rows[i].securityId);
        assert !ByFields(IdFields())(sorted[j], sorted[i]);
      }
    }
    if InOrder(rows) {
      InOrderIsSorted(rows, sorted);
    }
  }

  /** The accepted rows are trimmed already, so accepting them again only sorts them. */
  lemma RowsAgain(r: Registration)
    ensures Rows(r.(rankings := Rows(r))) == SortOn(IdFields(), Rows(r))
    ensures SameWidth(IdFields(), Rows(r))
  {
    hide TrimSpace, SortOn, Trimmed;
    var rows := Rows(r);
    var sorted := SortOn(IdFields(), rows);
    assert SameWidth(IdFields(), rows);
    SortOnSorted(IdFields(), rows);
    forall i | 0 <= i < |rows| ensures Trimmed(rows[i]) == rows[i] {
      TrimmedOnce(SortOn(IdFields(), r.rankings)[i]);
    }
    SameMembers(sorted, rows);
    forall i | 0 <= i < |sorted| ensures Trimmed(sorted[i]) == sorted[i] {
      assert sorted[i] in rows;
    }
  }

  lemma InOrderIsSorted(rows: seq<Ranking>, sorted: seq<Ranking>)
    requires InOrder(rows) && forall i, j :: 0 <= i < j < |rows| ==> rows[i].securityId != rows[j].securityId
    requires sorted == SortOn(IdFields(), rows) && Sorted(ByFields(IdFields()), sorted) && multiset(sorted) == multiset(rows)
    ensures sorted == rows
  {
    hide SortOn;
    var less := ByFields(IdFields());
    var dom := set x | x in rows;
    forall x, y, z | x in dom && y in dom && z in dom && Compared(x, y, z)
      ensures !(less(x, y) && less(y, x))
      ensures less(x, y) && less(y, z) ==> less(x, z)
      ensures !less(x, y) && !less(y, x) ==> x == y
    {
      PartsOrder(IdFields()(x), IdFields()(y), IdFields()(z));
      var i :| 0 <= i < |rows| && rows[i] == x;
      var j :| 0 <= j < |rows| && rows[j] == y;
      assert IdFields()(x)[0] == Word(x.securityId) && IdFields()(y)[0] == Word(y.securityId);
    }
    forall i, j | 0 <= i < j < |rows| ensures !less(rows[j], rows[i]) {
      WordLess(rows[j].securityId, rows[i].securityId);
    }
    SortedUnique(less, rows, sorted, dom);
  }
}
