/**
 Choosing among versions of one fact by rank: available time, then revision, then
 recording time, then identifier. Equal-ranked versions must agree.
 */
module Versions {
  import opened Wrappers
  import opened Sorting
  import Text

  datatype Version<P> = Version(id: string, availableAt: int, revision: int, recordedAt: int, payload: P)

  predicate SameRank<P>(a: Version<P>, b: Version<P>)
  {
    a.availableAt == b.availableAt && a.revision == b.revision && a.recordedAt == b.recordedAt
  }

  predicate LaterRank<P>(a: Version<P>, b: Version<P>)
  {
    if a.availableAt != b.availableAt then a.availableAt > b.availableAt
    else if a.revision != b.revision then a.revision > b.revision
    else a.recordedAt > b.recordedAt
  }

  /** Rank first, then the larger identifier. */
  predicate Beats<P>(a: Version<P>, b: Version<P>)
  {
    LaterRank(a, b) || (SameRank(a, b) && Text.Less(b.id, a.id))
  }

  /** Identifiers are primary keys. */
  ghost predicate DistinctIds<P>(records: seq<Version<P>>)
  {
    forall i, j :: 0 <= i < j < |records| ==> records[i].id != records[j].id
  }

  lemma BeatsOrder<P>(a: Version<P>, b: Version<P>, c: Version<P>)
    ensures !(Beats(a, b) && Beats(b, a)) && !Beats(a, a)
    ensures Beats(a, b) && Beats(b, c) ==> Beats(a, c)
    ensures a.id != b.id ==> Beats(a, b) || Beats(b, a)
  {
    Text.LessTrichotomy(a.id, b.id);
    Text.LessTrichotomy(a.id, a.id);
    if Text.Less(b.id, a.id) && Text.Less(c.id, b.id) {
      Text.LessTransitive(c.id, b.id, a.id);
    }
  }

  // ---------- the walk both resolution stages perform ----------

  /** Groups compete separately; equal-ranked members of a group must give one verdict. */
  datatype Contest<!P, !G, !V> = Contest(group: Version<P> -> G, verdict: Version<P> -> V)

  /** One record against the current holder of its group; None when they disagree at equal rank. */
  function Visit<P, G(==), V(==)>(c: Contest<P, G, V>, latest: map<G, Version<P>>, r: Version<P>): Option<map<G, Version<P>>>
  {
    var g := c.group(r);
    if g !in latest || LaterRank(r, latest[g]) then Some(latest[g := r])
    else if !SameRank(r, latest[g]) then Some(latest)
    else if c.verdict(r) != c.verdict(latest[g]) then None
    else if Text.Less(latest[g].id, r.id) then Some(latest[g := r])
    else Some(latest)
  }

  function Walk<P, G(==), V(==)>(c: Contest<P, G, V>, records: seq<Version<P>>): Option<map<G, Version<P>>>
  {
    if records == [] then Some(map[])
    else
      var before := Walk(c, records[..|records| - 1]);
      if before.None? then None else Visit(c, before.value, records[|records| - 1])
  }

  /** `w` holds its group: it beats every other record there. */
  ghost predicate Holder<P, G, V>(c: Contest<P, G, V>, records: seq<Version<P>>, w: Version<P>)
  {
    w in records && forall r :: r in records && c.group(r) == c.group(w) && r != w ==> Beats(w, r)
  }

  /** Two records of a group disagree although neither outranks the other. */
  ghost predicate Disagree<P, G, V>(c: Contest<P, G, V>, a: Version<P>, b: Version<P>)
  {
    c.group(a) == c.group(b) && SameRank(a, b) && c.verdict(a) != c.verdict(b)
  }

  ghost predicate NoTies<P, G, V>(c: Contest<P, G, V>, records: seq<Version<P>>)
  {
    forall a, b :: a in records && b in records ==> !Disagree(c, a, b)
  }

  /** A record outranks this one inside its group. */
  ghost predicate Outranked<P, G, V>(c: Contest<P, G, V>, records: seq<Version<P>>, r: Version<P>)
  {
    exists t :: t in records && c.group(t) == c.group(r) && LaterRank(t, r)
  }

  /** Records disagree at most below the top rank of their group. */
  ghost predicate TopAgrees<P, G, V>(c: Contest<P, G, V>, records: seq<Version<P>>)
  {
    forall a, b :: a in records && b in records && Disagree(c, a, b) ==> Outranked(c, records, a)
  }

  /** What a map of holders looks like after a walk without failure. */
  ghost predicate HoldersOf<P, G, V>(c: Contest<P, G, V>, records: seq<Version<P>>, latest: map<G, Version<P>>)
  {
    && (forall r :: r in records ==> c.group(r) in latest)
    && (forall g :: g in latest ==> Holder(c, records, latest[g]) && c.group(latest[g]) == g)
  }

  ghost predicate AgreesWithHolders<P, G, V>(c: Contest<P, G, V>, records: seq<Version<P>>, latest: map<G, Version<P>>)
  {
    forall r :: r in records && c.group(r) in latest && SameRank(r, latest[c.group(r)]) ==> c.verdict(r) == c.verdict(latest[c.group(r)])
  }

  lemma VisitHolds<P, G, V>(c: Contest<P, G, V>, records: seq<Version<P>>, latest: map<G, Version<P>>, r: Version<P>)
    requires HoldersOf(c, records, latest) && AgreesWithHolders(c, records, latest)
    requires forall x :: x in records ==> x.id != r.id
    requires Visit(c, latest, r).Some?
    ensures HoldersOf(c, records + [r], Visit(c, latest, r).value)
    ensures AgreesWithHolders(c, records + [r], Visit(c, latest, r).value)
  {
    var after, g, all := Visit(c, latest, r).value, c.group(r), records + [r];
    var w := after[g];
    if g in latest {
      BeatsOrder(r, latest[g], latest[g]);
      assert latest[g] in records;
    }
    forall x | x in all && c.group(x) == g
      ensures x != w ==> Beats(w, x)
      ensures SameRank(x, w) ==> c.verdict(x) == c.verdict(w)
    {
      if x != r && w == r {
        assert x in records && g in latest;
        BeatsOrder(r, latest[g], x);
      }
    }
    forall h | h in after && h != g ensures Holder(c, all, after[h]) && c.group(after[h]) == h {
      assert after[h] == latest[h];
    }
  }

  /** A walk that does not fail ends with the holder of every group, and nobody disagrees with a holder. */
  lemma {:induction false} WalkHolds<P, G, V>(c: Contest<P, G, V>, records: seq<Version<P>>)
    requires DistinctIds(records) && Walk(c, records).Some?
    ensures HoldersOf(c, records, Walk(c, records).value)
    ensures AgreesWithHolders(c, records, Walk(c, records).value)
    decreases |records|
  {
    if records != [] {
      var front, r := records[..|records| - 1], records[|records| - 1];
      assert records == front + [r];
      WalkHolds(c, front);
      VisitHolds(c, front, Walk(c, front).value, r);
    }
  }

  /** A walk fails only on two equal-ranked records that disagree. */
  lemma {:induction false} WalkFailsOnTie<P, G, V>(c: Contest<P, G, V>, records: seq<Version<P>>)
    requires DistinctIds(records) && Walk(c, records).None?
    ensures !NoTies(c, records)
    decreases |records|
  {
    var front, r := records[..|records| - 1], records[|records| - 1];
    assert records == front + [r];
    if Walk(c, front).None? {
      WalkFailsOnTie(c, front);
      var a, b :| a in front && b in front && Disagree(c, a, b);
      assert a in records && b in records;
    } else {
      WalkHolds(c, front);
      var w := Walk(c, front).value[c.group(r)];
      assert w in records && r in records && Disagree(c, r, w);
    }
  }

  lemma {:induction false} WalkFailsOn<P, G, V>(c: Contest<P, G, V>, records: seq<Version<P>>, n: nat)
    requires n <= |records| && Walk(c, records[..n]).None?
    ensures Walk(c, records).None?
    decreases |records|
  {
    if n == |records| {
      assert records[..n] == records;
    } else {
      assert records[..|records| - 1][..n] == records[..n];
      WalkFailsOn(c, records[..|records| - 1], n);
    }
  }

  lemma HolderUnique<P, G, V>(c: Contest<P, G, V>, records: seq<Version<P>>, v: Version<P>, w: Version<P>)
    requires Holder(c, records, v) && Holder(c, records, w) && c.group(v) == c.group(w)
    ensures v == w
  {
    BeatsOrder(v, w, v);
  }

  // ---------- results for every order ----------

  /** Any two orders in which the walk succeeds leave the same holders. */
  lemma OrderIrrelevant<P, G, V>(c: Contest<P, G, V>, a: seq<Version<P>>, b: seq<Version<P>>)
    requires DistinctIds(a) && DistinctIds(b) && multiset(a) == multiset(b)
    requires Walk(c, a).Some? && Walk(c, b).Some?
    ensures Walk(c, a) == Walk(c, b)
  {
    WalkHolds(c, a);
    WalkHolds(c, b);
    SameMembers(a, b);
    hide Walk, AgreesWithHolders;
    SameHolders(c, a, b, Walk(c, a).value, Walk(c, b).value);
  }

  lemma SameHolders<P, G, V>(c: Contest<P, G, V>, a: seq<Version<P>>, b: seq<Version<P>>, x: map<G, Version<P>>, y: map<G, Version<P>>)
    requires forall r :: r in a <==> r in b
    requires HoldersOf(c, a, x) && HoldersOf(c, b, y)
    ensures x == y
  {
    hide Beats;
    forall g | g in x ensures g in y && x[g] == y[g] {
      assert x[g] in b;
      HolderUnique(c, a, x[g], y[g]);
    }
    forall g | g in y ensures g in x {
      assert y[g] in a;
    }
  }

  /** Success in any order means that nobody disagrees at the top rank of a group. */
  lemma SuccessMeansTopAgrees<P, G, V>(c: Contest<P, G, V>, records: seq<Version<P>>)
    requires DistinctIds(records) && Walk(c, records).Some?
    ensures TopAgrees(c, records)
  {
    WalkHolds(c, records);
    var latest := Walk(c, records).value;
    forall a, b | a in records && b in records && Disagree(c, a, b) ensures Outranked(c, records, a) {
      var w := latest[c.group(a)];
      assert w in records && (a == w || Beats(w, a)) && (b == w || Beats(w, b));
      if SameRank(a, w) {
        assert SameRank(b, w);
      }
      assert LaterRank(w, a);
    }
  }

  /** Without equal-ranked disagreement every order succeeds. */
  lemma NoTiesAlwaysSucceeds<P, G, V>(c: Contest<P, G, V>, records: seq<Version<P>>)
    requires DistinctIds(records) && NoTies(c, records)
    ensures Walk(c, records).Some?
  {
    if Walk(c, records).None? {
      WalkFailsOnTie(c, records);
    }
  }

  /** Within every group the better record comes first, as the queries order by group key or not at all, and then by rank. */
  ghost predicate ByRankDescending<P, G, V>(c: Contest<P, G, V>, records: seq<Version<P>>)
  {
    forall i, j :: 0 <= i < j < |records| && c.group(records[i]) == c.group(records[j]) ==> Beats(records[i], records[j])
  }

  /** In the order the queries return, the walk succeeds exactly when the top ranks agree. */
  lemma DescendingSucceedsIffTopAgrees<P, G, V>(c: Contest<P, G, V>, records: seq<Version<P>>)
    requires DistinctIds(records) && ByRankDescending(c, records)
    ensures Walk(c, records).Some? <==> TopAgrees(c, records)
  {
    if Walk(c, records).Some? {
      SuccessMeansTopAgrees(c, records);
    }
    if TopAgrees(c, records) {
      DescendingPrefix(c, records, |records|);
      assert records[..|records|] == records;
    }
  }

  lemma HolderPresent<P, G, V>(c: Contest<P, G, V>, records: seq<Version<P>>, w: Version<P>)
    requires Holder(c, records, w)
    ensures w in records
  {
  }

  lemma VisitFails<P, G, V>(c: Contest<P, G, V>, latest: map<G, Version<P>>, r: Version<P>)
    requires Visit(c, latest, r).None? && forall g :: g in latest ==> c.group(latest[g]) == g
    ensures c.group(r) in latest && Disagree(c, r, latest[c.group(r)])
  {
  }

  lemma DistinctPrefix<P>(records: seq<Version<P>>, n: nat)
    requires DistinctIds(records) && n <= |records|
    ensures DistinctIds(records[..n])
  {
  }

  lemma {:induction false} DescendingPrefix<P, G, V>(c: Contest<P, G, V>, records: seq<Version<P>>, n: nat)
    requires DistinctIds(records) && ByRankDescending(c, records) && TopAgrees(c, records) && n <= |records|
    ensures Walk(c, records[..n]).Some?
    decreases n
  {
    if n > 0 {
      DescendingPrefix(c, records, n - 1);
      DescendingStep(c, records, n);
      hide Visit, DistinctIds, ByRankDescending, TopAgrees;
      assert records[..n][..n - 1] == records[..n - 1] && records[..n][n - 1] == records[n - 1];
    }
  }

  lemma DescendingStep<P, G, V>(c: Contest<P, G, V>, records: seq<Version<P>>, n: nat)
    requires DistinctIds(records) && ByRankDescending(c, records) && TopAgrees(c, records) && 0 < n <= |records|
    requires Walk(c, records[..n - 1]).Some?
    ensures Visit(c, Walk(c, records[..n - 1]).value, records[n - 1]).Some?
  {
    var front, r := records[..n - 1], records[n - 1];
    DistinctPrefix(records, n - 1);
    WalkHolds(c, front);
    hide Walk, Visit, Holder, Outranked, ByRankDescending, DistinctIds, AgreesWithHolders, LaterRank;
    var latest := Walk(c, front).value;
    if Visit(c, latest, r).None? {
      VisitFails(c, latest, r);
      HolderPresent(c, front, latest[c.group(r)]);
      TopOfPrefix(c, records, n, latest[c.group(r)]);
    }
  }

  /** In descending order nothing outranks the holder of a prefix. */
  lemma TopOfPrefix<P, G, V>(c: Contest<P, G, V>, records: seq<Version<P>>, n: nat, w: Version<P>)
    requires ByRankDescending(c, records) && 0 < n <= |records|
    requires Holder(c, records[..n - 1], w) && c.group(w) == c.group(records[n - 1]) && SameRank(w, records[n - 1])
    ensures !Outranked(c, records, records[n - 1])
  {
    var r := records[n - 1];
    forall t | t in records && c.group(t) == c.group(r) ensures !LaterRank(t, r) {
      var k :| 0 <= k < |records| && records[k] == t;
      assert c.group(records[k]) == c.group(records[n - 1]);
      if k < n - 1 {
        assert t in records[..n - 1];
        BeatsOrder(w, t, w);
      } else if k >= n {
        BeatsOrder(r, t, r);
      }
    }
  }

  /** An equal-ranked disagreement anywhere, visited first, fails the walk: only its absence protects every order. */
  lemma TieFailsSomeOrder<P, G, V>(c: Contest<P, G, V>, a: Version<P>, b: Version<P>, rest: seq<Version<P>>)
    requires Disagree(c, a, b)
    ensures Walk(c, [a, b] + rest).None?
  {
    var order := [a, b] + rest;
    assert order[..2] == [a, b] && [a, b][..1] == [a] && [a][..0] == [];
    assert Walk(c, [a]) == Some(map[c.group(a) := a]);
    WalkFailsOn(c, order, 2);
  }

  lemma DistinctIdsPermute<P>(a: seq<Version<P>>, b: seq<Version<P>>)
    requires DistinctIds(a) && multiset(a) == multiset(b)
    ensures DistinctIds(b)
  {
    forall i, j | 0 <= i < j < |b| ensures b[i].id != b[j].id {
      var k, l := TwoPlaces(a, b, i, j);
    }
  }

  /** The order that visits two given records first. */
  lemma TwoFirst<P>(records: seq<Version<P>>, a: Version<P>, b: Version<P>) returns (rest: seq<Version<P>>)
    requires a in records && b in records && a != b
    ensures multiset([a, b] + rest) == multiset(records)
  {
    var i :| 0 <= i < |records| && records[i] == a;
    WithoutOne(records, i);
    var others := records[..i] + records[i + 1..];
    assert b in multiset(others);
    var j :| 0 <= j < |others| && others[j] == b;
    WithoutOne(others, j);
    rest := others[..j] + others[j + 1..];
    assert multiset([a, b] + rest) == multiset{a, b} + multiset(rest);
  }

  /** The walk succeeds in every order exactly when no two records of a group disagree at equal rank. */
  lemma EveryOrderSucceedsIffNoTies<P(!new), G, V>(c: Contest<P, G, V>, records: seq<Version<P>>)
    requires DistinctIds(records)
    ensures NoTies(c, records) <==> forall order :: multiset(order) == multiset(records) ==> Walk(c, order).Some?
  {
    hide Walk, DistinctIds;
    if NoTies(c, records) {
      forall order | multiset(order) == multiset(records) ensures Walk(c, order).Some? {
        DistinctIdsPermute(records, order);
        SameMembers(order, records);
        NoTiesAlwaysSucceeds(c, order);
      }
    } else {
      var a, b :| a in records && b in records && Disagree(c, a, b);
      var rest := TwoFirst(records, a, b);
      TieFailsSomeOrder(c, a, b, rest);
    }
  }

  function ByRank<P>(): (Version<P>, Version<P>) -> bool { (a, b) => Beats(a, b) }

  lemma RankSorts<P(!new), G, V>(c: Contest<P, G, V>, records: seq<Version<P>>) returns (order: seq<Version<P>>)
    requires DistinctIds(records)
    ensures multiset(order) == multiset(records) && DistinctIds(order) && ByRankDescending(c, order)
  {
    var dom := set r | r in records;
    forall x, y, z | x in dom && y in dom && z in dom && Compared(x, y, z)
      ensures !(Beats(x, y) && Beats(y, x)) && (Beats(x, y) && Beats(y, z) ==> Beats(x, z)) && (!Beats(x, y) && !Beats(y, x) ==> x == y)
    {
      BeatsOrder(x, y, z);
    }
    hide Beats;
    SortBySorted(ByRank(), records, dom);
    order := SortBy(ByRank(), records);
    DistinctIdsPermute(records, order);
    forall i, j | 0 <= i < j < |order| ensures Beats(order[i], order[j]) {
      assert !ByRank()(order[j], order[i]);
      BeatsOrder(order[i], order[j], order[i]);
    }
  }

  /** The walk succeeds in some order exactly when nobody disagrees at the top rank of a group. */
  lemma SomeOrderSucceedsIffTopAgrees<P(!new), G, V>(c: Contest<P, G, V>, records: seq<Version<P>>)
    requires DistinctIds(records)
    ensures TopAgrees(c, records) <==> exists order :: multiset(order) == multiset(records) && Walk(c, order).Some?
  {
    hide Walk, DistinctIds, ByRankDescending, Outranked, Disagree;
    if TopAgrees(c, records) {
      var order := RankSorts(c, records);
      SameMembers(order, records);
      TopAgreesMoves(c, records, order);
      DescendingSucceedsIffTopAgrees(c, order);
    } else if order :| multiset(order) == multiset(records) && Walk(c, order).Some? {
      DistinctIdsPermute(records, order);
      SameMembers(order, records);
      SuccessMeansTopAgrees(c, order);
      TopAgreesMoves(c, order, records);
    }
  }

  lemma TopAgreesMoves<P, G, V>(c: Contest<P, G, V>, a: seq<Version<P>>, b: seq<Version<P>>)
    requires forall r :: r in a <==> r in b
    requires TopAgrees(c, a)
    ensures TopAgrees(c, b)
  {
    hide Disagree, LaterRank;
    forall x, y | x in b && y in b && Disagree(c, x, y) ensures Outranked(c, b, x) {
      assert Outranked(c, a, x);
    }
  }

  // ---------- the walking loops ----------

  /** Stage one: the records in the order the query returned them. */
  method Collect<P, G(==), V(==)>(c: Contest<P, G, V>, records: seq<Version<P>>) returns (r: Option<map<G, Version<P>>>)
    ensures r == Walk(c, records)
  {
    var latest: map<G, Version<P>> := map[];
    for i := 0 to |records|
      invariant Walk(c, records[..i]) == Some(latest)
    {
      assert records[..i + 1][..i] == records[..i];
      var next := Visit(c, latest, records[i]);
      if next.None? {
        WalkFailsOn(c, records, i + 1);
        return None;
      }
      latest := next.value;
    }
    assert records[..|records|] == records;
    return Some(latest);
  }

  /**
   Stage two: the values of a map, kept when `eligible`, in an order the program
   cannot choose; `order` is the one this run happened to take.
   */
  method CollectValues<P(==), F(==), G(==), V(==)>(c: Contest<P, G, V>, families: map<F, Version<P>>, eligible: Version<P> -> bool)
    returns (r: Option<map<G, Version<P>>>, ghost order: seq<Version<P>>)
    requires forall f, h :: f in families && h in families && f != h ==> families[f].id != families[h].id
    ensures DistinctIds(order)
    ensures forall v :: v in order ==> v in families.Values && eligible(v)
    ensures r.Some? ==> r == Walk(c, order) && forall f :: f in families && eligible(families[f]) ==> families[f] in order
    ensures r.None? ==> Walk(c, order).None?
  {
    var latest: map<G, Version<P>> := map[];
    var todo := families.Keys;
    order := [];
    while todo != {}
      invariant todo <= families.Keys
      invariant Walk(c, order) == Some(latest) && DistinctIds(order)
      invariant forall v :: v in order ==> eligible(v) && exists f :: f in families && f !in todo && families[f] == v
      invariant forall f :: f in families && f !in todo && eligible(families[f]) ==> families[f] in order
      decreases todo
    {
      var f :| f in todo;
      var record := families[f];
      todo := todo - {f};
      if eligible(record) {
        assert (order + [record])[..|order|] == order;
        forall i | 0 <= i < |order| ensures order[i].id != record.id {
          assert order[i] in order;
        }
        var next := Visit(c, latest, record);
        order := order + [record];
        if next.None? {
          return None, order;
        }
        latest := next.value;
      }
    }
    return Some(latest), order;
  }
}
