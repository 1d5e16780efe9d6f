/**
 Merging incoming rows into committed ones by natural key: each row is admitted,
 redundant, or in conflict with the row that already holds its key.
 */
module Admission {
  import opened Wrappers
  import opened Manifests
  import opened Publication
  import opened PartitionStore
  import opened Sorting
  import Text

  /** Rows by key; for distinct keys the order of `rows` does not matter. */
  function Index<T>(d: Dataset<T>, rows: seq<T>): map<string, T>
  {
    if rows == [] then map[]
    else Index(d, rows[..|rows| - 1])[d.key(rows[|rows| - 1]) := rows[|rows| - 1]]
  }

  datatype Admitted<T> = Admitted(known: map<string, T>, accepted: seq<T>, conflicts: seq<string>, redundant: nat)

  /** The admission of one row; `same` decides whether a repeated key repeats its value. */
  function AdmitRow<T>(d: Dataset<T>, same: (T, T) -> bool, a: Admitted<T>, row: T): Admitted<T>
  {
    var key := d.key(row);
    if key !in a.known then a.(known := a.known[key := row], accepted := a.accepted + [row])
    else if same(a.known[key], row) then a.(redundant := a.redundant + 1)
    else a.(conflicts := a.conflicts + [key])
  }

  function Admit<T>(d: Dataset<T>, same: (T, T) -> bool, known: map<string, T>, incoming: seq<T>): Admitted<T>
  {
    if incoming == [] then Admitted(known, [], [], 0)
    else AdmitRow(d, same, Admit(d, same, known, incoming[..|incoming| - 1]), incoming[|incoming| - 1])
  }

  /** Every incoming row is exactly one of the three. */
  lemma {:induction false} AdmitPartitions<T>(d: Dataset<T>, same: (T, T) -> bool, known: map<string, T>, incoming: seq<T>)
    ensures var a := Admit(d, same, known, incoming);
            |a.accepted| + |a.conflicts| + a.redundant == |incoming|
    decreases |incoming|
  {
    if incoming != [] {
      AdmitPartitions(d, same, known, incoming[..|incoming| - 1]);
    }
  }

  /** Two admissions, one after the other, reported as one. */
  function Both<T>(first: Admitted<T>, second: Admitted<T>): Admitted<T>
  {
    Admitted(second.known, first.accepted + second.accepted, first.conflicts + second.conflicts, first.redundant + second.redundant)
  }

  lemma AdmitRowBoth<T>(d: Dataset<T>, same: (T, T) -> bool, first: Admitted<T>, second: Admitted<T>, row: T)
    ensures AdmitRow(d, same, Both(first, second), row) == Both(first, AdmitRow(d, same, second, row))
  {
    assert first.accepted + second.accepted + [row] == first.accepted + (second.accepted + [row]);
    assert first.conflicts + second.conflicts + [d.key(row)] == first.conflicts + (second.conflicts + [d.key(row)]);
  }

  /** Admitting A and then B is admitting A followed by B. */
  lemma {:induction false} AdmitAppend<T>(d: Dataset<T>, same: (T, T) -> bool, known: map<string, T>, a: seq<T>, b: seq<T>)
    ensures var first := Admit(d, same, known, a);
            Admit(d, same, known, a + b) == Both(first, Admit(d, same, first.known, b))
    decreases |b|
  {
    var first := Admit(d, same, known, a);
    if b == [] {
      assert a + b == a;
    } else {
      var front, row := b[..|b| - 1], b[|b| - 1];
      AdmitAppend(d, same, known, a, front);
      assert (a + b)[..|a + b| - 1] == a + front;
      AdmitRowBoth(d, same, first, Admit(d, same, first.known, front), row);
    }
  }

  // ---------- what is known after an admission ----------

  ghost predicate IndexOf<T>(d: Dataset<T>, known: map<string, T>, rows: seq<T>)
  {
    && known.Keys == KeysOf(d, rows)
    && forall i :: 0 <= i < |rows| ==> known[d.key(rows[i])] == rows[i]
  }

  lemma {:induction false} IndexIsIndex<T>(d: Dataset<T>, rows: seq<T>)
    requires DistinctKeys(d, rows)
    ensures IndexOf(d, Index(d, rows), rows)
    decreases |rows|
  {
    if rows != [] {
      IndexIsIndex(d, rows[..|rows| - 1]);
    }
  }

  lemma IndexUnique<T>(d: Dataset<T>, a: map<string, T>, b: map<string, T>, rows: seq<T>, other: seq<T>)
    requires IndexOf(d, a, rows) && IndexOf(d, b, other)
    requires multiset(rows) == multiset(other)
    ensures a == b
  {
    SameMembers(rows, other);
    SameKeys(d, rows, other);
    forall k | k in a ensures a[k] == b[k] {
      var i :| 0 <= i < |rows| && d.key(rows[i]) == k;
      assert rows[i] in other;
    }
  }

  /** The accepted rows come from the input, and every incoming key ends up known. */
  lemma {:induction false} AcceptedFromInput<T>(d: Dataset<T>, same: (T, T) -> bool, known: map<string, T>, incoming: seq<T>)
    ensures var a := Admit(d, same, known, incoming);
            && |a.accepted| <= |incoming|
            && (forall x :: x in a.accepted ==> x in incoming)
            && known.Keys <= a.known.Keys && KeysOf(d, incoming) <= a.known.Keys
    decreases |incoming|
  {
    if incoming != [] {
      var front, row := incoming[..|incoming| - 1], incoming[|incoming| - 1];
      assert incoming == front + [row];
      AcceptedFromInput(d, same, known, front);
      KeysOfPush(d, front, row);
    }
  }

  /** The accepted rows stand under new, distinct keys, and nothing else becomes known. */
  lemma {:induction false} AcceptedRows<T>(d: Dataset<T>, same: (T, T) -> bool, existing: seq<T>, incoming: seq<T>)
    requires DistinctKeys(d, existing)
    ensures var a := Admit(d, same, Index(d, existing), incoming);
            IndexOf(d, a.known, existing + a.accepted) && DistinctKeys(d, existing + a.accepted)
    decreases |incoming|
  {
    if incoming == [] {
      IndexIsIndex(d, existing);
      assert existing + [] == existing;
    } else {
      AcceptedRows(d, same, existing, incoming[..|incoming| - 1]);
      var before := Admit(d, same, Index(d, existing), incoming[..|incoming| - 1]);
      var a, row := Admit(d, same, Index(d, existing), incoming), incoming[|incoming| - 1];
      if d.key(row) !in before.known {
        assert existing + a.accepted == (existing + before.accepted) + [row];
        IndexPush(d, before.known, existing + before.accepted, row);
      }
    }
  }

  lemma IndexPush<T>(d: Dataset<T>, known: map<string, T>, rows: seq<T>, row: T)
    requires IndexOf(d, known, rows) && DistinctKeys(d, rows) && d.key(row) !in known
    ensures IndexOf(d, known[d.key(row) := row], rows + [row]) && DistinctKeys(d, rows + [row])
  {
    KeysOfPush(d, rows, row);
    NewKeyDistinct(d, rows, row);
    forall i | 0 <= i < |rows| ensures d.key(rows[i]) in known {
      assert d.key(rows[i]) in KeysOf(d, rows);
    }
  }

  /** When every key is already known nothing is admitted, and matching values raise no conflict. */
  lemma {:induction false} NothingNew<T>(d: Dataset<T>, same: (T, T) -> bool, known: map<string, T>, incoming: seq<T>)
    requires KeysOf(d, incoming) <= known.Keys
    ensures var a := Admit(d, same, known, incoming); a.known == known && a.accepted == []
    ensures (forall i :: 0 <= i < |incoming| ==> same(known[d.key(incoming[i])], incoming[i])) ==>
              Admit(d, same, known, incoming).conflicts == []
    decreases |incoming|
  {
    if incoming != [] {
      var front := incoming[..|incoming| - 1];
      forall k | k in KeysOf(d, front) ensures k in known {
        var i :| 0 <= i < |front| && d.key(front[i]) == k;
        assert d.key(incoming[i]) in KeysOf(d, incoming);
      }
      NothingNew(d, same, known, front);
      assert d.key(incoming[|incoming| - 1]) in KeysOf(d, incoming);
    }
  }

  /** An admission without conflicts checked every repeated key against the row that holds it. */
  lemma {:induction false} NoConflictMeansSame<T>(d: Dataset<T>, same: (T, T) -> bool, known: map<string, T>, incoming: seq<T>)
    requires forall x :: x in incoming ==> same(x, x)
    requires Admit(d, same, known, incoming).conflicts == []
    ensures var a := Admit(d, same, known, incoming);
            && known.Keys <= a.known.Keys && (forall k :: k in known ==> a.known[k] == known[k])
            && forall i :: 0 <= i < |incoming| ==> d.key(incoming[i]) in a.known && same(a.known[d.key(incoming[i])], incoming[i])
    decreases |incoming|
  {
    if incoming != [] {
      var front, row := incoming[..|incoming| - 1], incoming[|incoming| - 1];
      NoConflictMeansSame(d, same, known, front);
      var before, after := Admit(d, same, known, front), Admit(d, same, known, incoming);
      forall i | 0 <= i < |incoming|
        ensures d.key(incoming[i]) in after.known && same(after.known[d.key(incoming[i])], incoming[i])
      {
        if i < |front| {
          assert front[i] == incoming[i];
        }
      }
    }
  }

  // ---------- key order ----------

  function ByKey<T>(d: Dataset<T>): (T, T) -> bool
  {
    (a, b) => Text.Less(d.key(a), d.key(b))
  }

  function SortByKey<T>(d: Dataset<T>, rows: seq<T>): seq<T>
  {
    SortBy(ByKey(d), rows)
  }

  lemma KeyOrderTotal<T(!new)>(d: Dataset<T>, rows: seq<T>)
    requires DistinctKeys(d, rows)
    ensures StrictTotal(ByKey(d), set x | x in rows)
  {
    var dom := set x | x in rows;
    forall x, y, z {:trigger Compared(x, y, z)} | x in dom && y in dom && z in dom
      ensures !(ByKey(d)(x, y) && ByKey(d)(y, x))
      ensures ByKey(d)(x, y) && ByKey(d)(y, z) ==> ByKey(d)(x, z)
      ensures !ByKey(d)(x, y) && !ByKey(d)(y, x) ==> x == y
    {
      Text.LessTrichotomy(d.key(x), d.key(y));
      var i :| 0 <= i < |rows| && rows[i] == x;
      var j :| 0 <= j < |rows| && rows[j] == y;
      if Text.Less(d.key(x), d.key(y)) && Text.Less(d.key(y), d.key(z)) {
        Text.LessTransitive(d.key(x), d.key(y), d.key(z));
      }
    }
  }

  /** However the rows of a Go map come out, sorting them by key gives one sequence. */
  lemma SortForgetsMapOrder<T(!new)>(d: Dataset<T>, a: seq<T>, b: seq<T>)
    requires DistinctKeys(d, a) && multiset(a) == multiset(b)
    ensures SortByKey(d, a) == SortByKey(d, b)
  {
    KeyOrderTotal(d, a);
    SameMembers(a, b);
    var dom := set x | x in a;
    SortBySorted(ByKey(d), a, dom);
    SortBySorted(ByKey(d), b, dom);
    SameMembers(a, SortByKey(d, a));
    SortedUnique(ByKey(d), SortByKey(d, a), SortByKey(d, b), dom);
  }

  lemma NewKeyDistinct<T>(d: Dataset<T>, rows: seq<T>, row: T)
    ensures DistinctKeys(d, rows + [row]) <==> DistinctKeys(d, rows) && d.key(row) !in KeysOf(d, rows)
  {
    var all := rows + [row];
    assert forall i :: 0 <= i < |rows| ==> all[i] == rows[i];
    assert all[|rows|] == row;
    if d.key(row) in KeysOf(d, rows) {
      var i :| 0 <= i < |rows| && d.key(rows[i]) == d.key(row);
      assert d.key(all[i]) == d.key(all[|rows|]);
    }
    if DistinctKeys(d, all) {
      forall i, j | 0 <= i < j < |rows| ensures d.key(rows[i]) != d.key(rows[j]) {
        assert d.key(all[i]) != d.key(all[j]);
      }
    }
  }

  lemma {:induction false} DistinctIffCount<T>(d: Dataset<T>, rows: seq<T>)
    ensures |KeysOf(d, rows)| <= |rows|
    ensures DistinctKeys(d, rows) <==> |KeysOf(d, rows)| == |rows|
    decreases |rows|
  {
    if rows != [] {
      var front, last := rows[..|rows| - 1], rows[|rows| - 1];
      assert rows == front + [last];
      DistinctIffCount(d, front);
      KeysOfPush(d, front, last);
      NewKeyDistinct(d, front, last);
    }
  }

  lemma DistinctKeysPermute<T>(d: Dataset<T>, a: seq<T>, b: seq<T>)
    requires DistinctKeys(d, a) && multiset(a) == multiset(b)
    ensures DistinctKeys(d, b)
  {
    SameMembers(a, b);
    SameKeys(d, a, b);
    DistinctIffCount(d, a);
    DistinctIffCount(d, b);
  }

  lemma SameKeys<T>(d: Dataset<T>, a: seq<T>, b: seq<T>)
    requires forall x :: x in a <==> x in b
    ensures KeysOf(d, a) == KeysOf(d, b)
  {
    forall k ensures k in KeysOf(d, a) <==> k in KeysOf(d, b) {
      if k in KeysOf(d, a) {
        var i :| 0 <= i < |a| && d.key(a[i]) == k;
        assert a[i] in b;
      }
      if k in KeysOf(d, b) {
        var i :| 0 <= i < |b| && d.key(b[i]) == k;
        assert b[i] in a;
      }
    }
  }

  lemma {:induction false} DistinctOnce<T>(d: Dataset<T>, a: seq<T>, x: T)
    requires DistinctKeys(d, a)
    ensures multiset(a)[x] == if x in a then 1 else 0
    decreases |a|
  {
    if a != [] {
      var front, last := a[..|a| - 1], a[|a| - 1];
      assert a == front + [last];
      DistinctOnce(d, front, x);
      if x == last {
        forall i | 0 <= i < |front| ensures front[i] != x {
          assert d.key(a[i]) != d.key(a[|a| - 1]);
        }
      }
    }
  }

  lemma SameIndexSameRows<T>(d: Dataset<T>, known: map<string, T>, a: seq<T>, b: seq<T>)
    requires IndexOf(d, known, a) && IndexOf(d, known, b)
    requires DistinctKeys(d, a) && DistinctKeys(d, b)
    ensures multiset(a) == multiset(b)
  {
    forall x ensures multiset(a)[x] == multiset(b)[x] {
      DistinctOnce(d, a, x);
      DistinctOnce(d, b, x);
      HeldBy(d, known, a, x);
      HeldBy(d, known, b, x);
    }
  }

  lemma HeldBy<T>(d: Dataset<T>, known: map<string, T>, a: seq<T>, x: T)
    requires IndexOf(d, known, a)
    ensures x in a <==> d.key(x) in known && known[d.key(x)] == x
  {
    if d.key(x) in known {
      assert d.key(x) in KeysOf(d, a);
      var i :| 0 <= i < |a| && d.key(a[i]) == d.key(x);
    }
  }

  // ---------- the rows a publication will append ----------

  /** Filtering the sorted union by committed keys leaves exactly the accepted rows. */
  lemma {:induction false} DeltaElements<T>(d: Dataset<T>, existing: seq<T>, rows: seq<T>, x: T)
    ensures multiset(Delta(d, existing, rows))[x] == if d.key(x) in KeysOf(d, existing) then 0 else multiset(rows)[x]
    decreases |rows|
  {
    if rows != [] {
      DeltaElements(d, existing, rows[..|rows| - 1], x);
      assert rows == rows[..|rows| - 1] + [rows[|rows| - 1]];
    }
  }

  lemma DeltaIsAccepted<T(!new)>(d: Dataset<T>, existing: seq<T>, accepted: seq<T>)
    requires DistinctKeys(d, existing + accepted)
    ensures var rows := SortByKey(d, existing + accepted);
            && multiset(Delta(d, existing, rows)) == multiset(accepted)
            && |rows| == |existing + accepted|
  {
    var all := existing + accepted;
    var rows := SortByKey(d, all);
    SortByElements(ByKey(d), all);
    SameMembers(rows, all);
    forall x ensures multiset(Delta(d, existing, rows))[x] == multiset(accepted)[x] {
      DeltaElements(d, existing, rows, x);
      assert multiset(all)[x] == multiset(existing)[x] + multiset(accepted)[x];
      if x in existing {
        var i :| 0 <= i < |existing| && existing[i] == x;
        assert d.key(existing[i]) in KeysOf(d, existing);
        forall j | 0 <= j < |accepted| ensures accepted[j] != x {
          assert all[i] == x && all[|existing| + j] == accepted[j];
        }
      } else if x in accepted {
        var j :| 0 <= j < |accepted| && accepted[j] == x;
        forall i | 0 <= i < |existing| ensures d.key(existing[i]) != d.key(x) {
          assert all[i] == existing[i] && all[|existing| + j] == x;
        }
      }
    }
  }

  ghost predicate KeysAscend<T>(d: Dataset<T>, rows: seq<T>)
  {
    forall i, j :: 0 <= i < j < |rows| ==> Text.Less(d.key(rows[i]), d.key(rows[j]))
  }

  lemma {:induction false} DeltaAscends<T>(d: Dataset<T>, existing: seq<T>, rows: seq<T>)
    requires KeysAscend(d, rows)
    ensures KeysAscend(d, Delta(d, existing, rows))
    ensures forall x :: x in Delta(d, existing, rows) ==> x in rows
    decreases |rows|
  {
    if rows != [] {
      var front, last := rows[..|rows| - 1], rows[|rows| - 1];
      DeltaAscends(d, existing, front);
      var before := Delta(d, existing, front);
      forall i | 0 <= i < |before| ensures Text.Less(d.key(before[i]), d.key(last)) {
        assert before[i] in front;
        var k :| 0 <= k < |front| && front[k] == before[i];
        assert rows[k] == front[k];
      }
    }
  }

  /** What is appended lands in key order. */
  lemma AppendedAscends<T(!new)>(d: Dataset<T>, existing: seq<T>, accepted: seq<T>)
    requires DistinctKeys(d, existing + accepted)
    ensures KeysAscend(d, Delta(d, existing, SortByKey(d, existing + accepted)))
  {
    var all := existing + accepted;
    var rows := SortByKey(d, all);
    KeyOrderTotal(d, all);
    SortBySorted(ByKey(d), all, set x | x in all);
    DistinctKeysPermute(d, all, rows);
    hide SortByKey, DistinctKeys;
    forall i, j | 0 <= i < j < |rows| ensures Text.Less(d.key(rows[i]), d.key(rows[j])) {
      KeysDiffer(d, rows, i, j);
      Text.LessTrichotomy(d.key(rows[i]), d.key(rows[j]));
      assert !ByKey(d)(rows[j], rows[i]);
    }
    DeltaAscends(d, existing, rows);
  }

  lemma KeysDiffer<T>(d: Dataset<T>, rows: seq<T>, i: nat, j: nat)
    requires DistinctKeys(d, rows) && i < j < |rows|
    ensures d.key(rows[i]) != d.key(rows[j])
  {
  }

  /** The writer's loops: rows into a map, decisions per row, then the map's values in any order, sorted by key. */
  method AdmitRows<T(==, !new)>(d: Dataset<T>, same: (T, T) -> bool, existing: seq<T>, incoming: seq<T>)
    returns (rows: seq<T>, accepted: seq<T>, conflicts: seq<string>)
    requires DistinctKeys(d, existing)
    ensures var a := Admit(d, same, Index(d, existing), incoming);
            && accepted == a.accepted && conflicts == a.conflicts
            && rows == SortByKey(d, existing + a.accepted)
  {
    var byKey: map<string, T> := map[];
    for i := 0 to |existing|
      invariant byKey == Index(d, existing[..i])
    {
      assert existing[..i + 1][..i] == existing[..i];
      byKey := byKey[d.key(existing[i]) := existing[i]];
    }
    assert existing[..|existing|] == existing;
    accepted, conflicts := [], [];
    ghost var redundant: nat := 0;
    for i := 0 to |incoming|
      invariant Admit(d, same, Index(d, existing), incoming[..i]) == Admitted(byKey, accepted, conflicts, redundant)
    {
      assert incoming[..i + 1][..i] == incoming[..i];
      var key := d.key(incoming[i]);
      if key in byKey {
        if !same(byKey[key], incoming[i]) {
          conflicts := conflicts + [key];
        } else {
          redundant := redundant + 1;
        }
      } else {
        byKey := byKey[key := incoming[i]];
        accepted := accepted + [incoming[i]];
      }
    }
    assert incoming[..|incoming|] == incoming;
    AcceptedRows(d, same, existing, incoming);
    forall k | k in byKey ensures d.key(byKey[k]) == k {
      var all := existing + accepted;
      assert k in KeysOf(d, all);
      var i :| 0 <= i < |all| && d.key(all[i]) == k;
    }
    rows := MapValues(d, byKey);
    SameIndexSameRows(d, byKey, existing + accepted, rows);
    SortForgetsMapOrder(d, existing + accepted, rows);
    rows := SortByKey(d, rows);
  }

  /** Walking a Go map visits each entry once, in an order the program cannot choose. */
  method MapValues<T(==)>(d: Dataset<T>, byKey: map<string, T>) returns (rows: seq<T>)
    requires forall k :: k in byKey ==> d.key(byKey[k]) == k
    ensures IndexOf(d, byKey, rows) && DistinctKeys(d, rows)
  {
    rows := [];
    var todo := byKey.Keys;
    while todo != {}
      invariant todo <= byKey.Keys && KeysOf(d, rows) == byKey.Keys - todo
      invariant DistinctKeys(d, rows)
      invariant forall i :: 0 <= i < |rows| ==> d.key(rows[i]) in byKey && byKey[d.key(rows[i])] == rows[i]
      decreases todo
    {
      var key :| key in todo;
      forall i | 0 <= i < |rows| ensures d.key(rows[i]) != key {
        assert d.key(rows[i]) in KeysOf(d, rows);
      }
      assert KeysOf(d, rows + [byKey[key]]) == KeysOf(d, rows) + {key} by {
        KeysOfPush(d, rows, byKey[key]);
      }
      rows := rows + [byKey[key]];
      todo := todo - {key};
    }
  }

  lemma KeysOfPush<T>(d: Dataset<T>, rows: seq<T>, row: T)
    ensures KeysOf(d, rows + [row]) == KeysOf(d, rows) + {d.key(row)}
  {
    var all := rows + [row];
    assert all[|rows|] == row;
    forall k | k in KeysOf(d, rows) ensures k in KeysOf(d, all) {
      var i :| 0 <= i < |rows| && d.key(rows[i]) == k;
      assert all[i] == rows[i];
    }
  }
}
