/**
 sort.Slice as a specification: an arrangement of the same elements that is in
 order. SortBy is one such arrangement; SortedUnique says when there is no other.
 */
module Sorting {
  /** Marks the elements whose order laws a proof asks for. */
  ghost predicate Compared<T>(x: T, y: T, z: T) { true }

  /** A strict total order on the elements of `dom`: unrelated elements are equal. */
  ghost predicate StrictTotal<T(!new)>(less: (T, T) -> bool, dom: set<T>)
  {
    forall x, y, z {:trigger Compared(x, y, z)} :: x in dom && y in dom && z in dom && Compared(x, y, z) ==>
      && !(less(x, y) && less(y, x))
      && (less(x, y) && less(y, z) ==> less(x, z))
      && (!less(x, y) && !less(y, x) ==> x == y)
  }

  /** A strict order in which unrelated elements are interchangeable: what sort.Slice asks of its comparison. */
  ghost predicate StrictWeak<T(!new)>(less: (T, T) -> bool, dom: set<T>)
  {
    forall x, y, z {:trigger Compared(x, y, z)} :: x in dom && y in dom && z in dom && Compared(x, y, z) ==>
      && !(less(x, y) && less(y, x))
      && (less(x, z) ==> less(x, y) || less(y, z))
  }

  lemma TotalIsWeak<T(!new)>(less: (T, T) -> bool, dom: set<T>)
    requires StrictTotal(less, dom)
    ensures StrictWeak(less, dom)
  {
    forall x, y, z | x in dom && y in dom && z in dom && Compared(x, y, z)
      ensures !(less(x, y) && less(y, x)) && (less(x, z) ==> less(x, y) || less(y, z))
    {
      assert Compared(y, x, z) && Compared(z, y, x) && Compared(x, z, y);
    }
  }

  ghost predicate Within<T>(s: seq<T>, dom: set<T>)
  {
    forall i :: 0 <= i < |s| ==> s[i] in dom
  }

  ghost predicate Sorted<T>(less: (T, T) -> bool, s: seq<T>)
  {
    forall i, j :: 0 <= i < j < |s| ==> !less(s[j], s[i])
  }

  function Insert<T>(less: (T, T) -> bool, x: T, s: seq<T>): seq<T>
  {
    if s == [] then [x]
    else if less(s[0], x) then [s[0]] + Insert(less, x, s[1..])
    else [x] + s
  }

  function SortBy<T>(less: (T, T) -> bool, s: seq<T>): seq<T>
  {
    if s == [] then [] else Insert(less, s[0], SortBy(less, s[1..]))
  }

  lemma {:induction false} InsertElements<T>(less: (T, T) -> bool, x: T, s: seq<T>)
    ensures multiset(Insert(less, x, s)) == multiset([x] + s)
  {
    if s != [] && less(s[0], x) {
      InsertElements(less, x, s[1..]);
      assert s == [s[0]] + s[1..];
    }
  }

  lemma {:induction false} SortByElements<T>(less: (T, T) -> bool, s: seq<T>)
    ensures multiset(SortBy(less, s)) == multiset(s)
  {
    if s != [] {
      SortByElements(less, s[1..]);
      InsertElements(less, s[0], SortBy(less, s[1..]));
      assert s == [s[0]] + s[1..];
    }
  }

  lemma SameMembers<T>(a: seq<T>, b: seq<T>)
    requires multiset(a) == multiset(b)
    ensures forall x :: x in a <==> x in b
    ensures |a| == |b|
  {
    forall x ensures x in a <==> x in b {
      assert x in a <==> x in multiset(a);
      assert x in b <==> x in multiset(b);
    }
    assert |a| == |multiset(a)| && |b| == |multiset(b)|;
  }

  lemma SortedCons<T>(less: (T, T) -> bool, x: T, t: seq<T>)
    requires Sorted(less, t) && forall j :: 0 <= j < |t| ==> !less(t[j], x)
    ensures Sorted(less, [x] + t)
  {
  }

  lemma NoneBelow<T(!new)>(less: (T, T) -> bool, x: T, s: seq<T>, dom: set<T>)
    requires StrictWeak(less, dom) && x in dom && Within(s, dom) && Sorted(less, s)
    requires s != [] && !less(s[0], x)
    ensures forall j :: 0 <= j < |s| ==> !less(s[j], x)
  {
    forall j | 0 <= j < |s| ensures !less(s[j], x) {
      assert Compared(s[j], s[0], x);
    }
  }

  lemma {:induction false} InsertSorted<T(!new)>(less: (T, T) -> bool, x: T, s: seq<T>, dom: set<T>)
    requires StrictWeak(less, dom) && x in dom && Within(s, dom) && Sorted(less, s)
    ensures Sorted(less, Insert(less, x, s))
    decreases |s|
  {
    if s != [] {
      if less(s[0], x) {
        InsertSorted(less, x, s[1..], dom);
        var t := Insert(less, x, s[1..]);
        InsertElements(less, x, s[1..]);
        SameMembers(t, [x] + s[1..]);
        assert Compared(s[0], x, x);
        forall j | 0 <= j < |t| ensures !less(t[j], s[0]) {
          assert t[j] in [x] + s[1..];
          if t[j] != x {
            var i :| 0 <= i < |s[1..]| && s[1..][i] == t[j];
            assert t[j] == s[i + 1];
          }
        }
        SortedCons(less, s[0], t);
      } else {
        NoneBelow(less, x, s, dom);
        SortedCons(less, x, s);
      }
    }
  }

  lemma {:induction false} WeakSortSorted<T(!new)>(less: (T, T) -> bool, s: seq<T>, dom: set<T>)
    requires StrictWeak(less, dom) && Within(s, dom)
    ensures Sorted(less, SortBy(less, s))
    ensures multiset(SortBy(less, s)) == multiset(s)
    decreases |s|
  {
    SortByElements(less, s);
    if s != [] {
      WeakSortSorted(less, s[1..], dom);
      var t := SortBy(less, s[1..]);
      SameMembers(s[1..], t);
      forall i | 0 <= i < |t| ensures t[i] in dom {
        assert t[i] in s[1..];
      }
      InsertSorted(less, s[0], t, dom);
    }
  }

  lemma SortBySorted<T(!new)>(less: (T, T) -> bool, s: seq<T>, dom: set<T>)
    requires StrictTotal(less, dom) && Within(s, dom)
    ensures Sorted(less, SortBy(less, s))
    ensures multiset(SortBy(less, s)) == multiset(s)
  {
    TotalIsWeak(less, dom);
    WeakSortSorted(less, s, dom);
  }

  lemma SameTails<T>(a: seq<T>, b: seq<T>)
    requires multiset(a) == multiset(b) && a != [] && b != [] && a[0] == b[0]
    ensures multiset(a[1..]) == multiset(b[1..])
  {
    assert a == [a[0]] + a[1..] && b == [b[0]] + b[1..];
    assert multiset(a[1..]) == multiset(a) - multiset{a[0]};
    assert multiset(b[1..]) == multiset(b) - multiset{b[0]};
  }

  lemma SameFirst<T(!new)>(less: (T, T) -> bool, a: seq<T>, b: seq<T>, dom: set<T>)
    requires StrictTotal(less, dom) && Within(a, dom) && a != [] && b != []
    requires b[0] in a && a[0] in b
    requires Sorted(less, a) && Sorted(less, b)
    ensures a[0] == b[0]
  {
    assert Compared(a[0], b[0], a[0]);
  }

  /** Two sorted arrangements of the same elements are the same sequence. */
  lemma {:induction false} SortedUnique<T(!new)>(less: (T, T) -> bool, a: seq<T>, b: seq<T>, dom: set<T>)
    requires StrictTotal(less, dom) && Within(a, dom)
    requires multiset(a) == multiset(b)
    requires Sorted(less, a) && Sorted(less, b)
    ensures a == b
    decreases |a|
  {
    SameMembers(a, b);
    if a != [] {
      assert a[0] in a && b[0] in b;
      SameFirst(less, a, b, dom);
      SameTails(a, b);
      SortedUnique(less, a[1..], b[1..], dom);
      assert a == [a[0]] + a[1..] && b == [b[0]] + b[1..];
    }
  }

  // ---------- mapping permutations ----------

  function Map<T, U>(f: T -> U, s: seq<T>): seq<U>
  {
    seq(|s|, i requires 0 <= i < |s| => f(s[i]))
  }

  lemma MapAround<T, U>(f: T -> U, s: seq<T>, k: nat)
    requires k < |s|
    ensures multiset(Map(f, s)) == multiset{f(s[k])} + multiset(Map(f, s[..k] + s[k + 1..]))
  {
    var front, back := Map(f, s[..k]), Map(f, s[k + 1..]);
    assert Map(f, s) == front + [f(s[k])] + back;
    assert Map(f, s[..k] + s[k + 1..]) == front + back;
  }

  lemma WithoutOne<T>(s: seq<T>, k: nat)
    requires k < |s|
    ensures multiset(s[..k] + s[k + 1..]) == multiset(s) - multiset{s[k]}
  {
    assert s == s[..k] + [s[k]] + s[k + 1..];
  }

  /** Takes the first element of `a` out of a permutation of it. */
  lemma MatchFirst<T>(a: seq<T>, b: seq<T>) returns (k: nat)
    requires multiset(a) == multiset(b) && a != []
    ensures k < |b| && b[k] == a[0] && multiset(a[1..]) == multiset(b[..k] + b[k + 1..])
  {
    assert a == [a[0]] + a[1..];
    assert a[0] in multiset(b);
    k :| 0 <= k < |b| && b[k] == a[0];
    WithoutOne(b, k);
    assert multiset(a[1..]) == multiset(a) - multiset{a[0]};
  }

  /** Mapping the same elements in another order gives the same values in another order. */
  lemma {:induction false} MapPermutes<T, U>(f: T -> U, a: seq<T>, b: seq<T>)
    requires multiset(a) == multiset(b)
    ensures multiset(Map(f, a)) == multiset(Map(f, b))
    decreases |a|
  {
    if a != [] {
      var k := MatchFirst(a, b);
      MapPermutes(f, a[1..], b[..k] + b[k + 1..]);
      MapAround(f, a, 0);
      assert a[..0] + a[1..] == a[1..];
      MapAround(f, b, k);
    } else {
      SameMembers(a, b);
    }
  }

  lemma Elsewhere<T>(s: seq<T>, k: nat, v: T) returns (l: nat)
    requires k < |s| && v in s[..k] + s[k + 1..]
    ensures l < |s| && l != k && s[l] == v
  {
    var rest := s[..k] + s[k + 1..];
    var m :| 0 <= m < |rest| && rest[m] == v;
    l := if m < k then m else m + 1;
  }

  /** Two places of a permutation correspond to two different places. */
  lemma TwoPlaces<T>(a: seq<T>, b: seq<T>, i: nat, j: nat) returns (k: nat, l: nat)
    requires multiset(a) == multiset(b) && i < j < |b|
    ensures k < |a| && l < |a| && k != l && a[k] == b[i] && a[l] == b[j]
  {
    SameMembers(a, b);
    assert b[i] in a;
    k :| 0 <= k < |a| && a[k] == b[i];
    WithoutOne(a, k);
    WithoutOne(b, i);
    SameMembers(a[..k] + a[k + 1..], b[..i] + b[i + 1..]);
    assert (b[..i] + b[i + 1..])[j - 1] == b[j];
    l := Elsewhere(a, k, b[j]);
  }

  // ---------- totals ----------

  function Total(s: seq<int>): int
  {
    if s == [] then 0 else Total(s[..|s| - 1]) + s[|s| - 1]
  }

  lemma {:induction false} TotalAppend(a: seq<int>, b: seq<int>)
    ensures Total(a + b) == Total(a) + Total(b)
    decreases |b|
  {
    if b == [] {
      assert a + b == a;
    } else {
      TotalAppend(a, b[..|b| - 1]);
      assert (a + b)[..|a + b| - 1] == a + b[..|b| - 1];
    }
  }

  lemma TotalWithout(s: seq<int>, k: nat)
    requires k < |s|
    ensures Total(s) == Total(s[..k] + s[k + 1..]) + s[k]
  {
    TotalAppend(s[..k], s[k + 1..]);
    TotalAppend(s[..k + 1], s[k + 1..]);
    assert s[..k + 1][..k] == s[..k];
    assert s[..k + 1] + s[k + 1..] == s;
  }

  lemma {:induction false} TotalPermutes(a: seq<int>, b: seq<int>)
    requires multiset(a) == multiset(b)
    ensures Total(a) == Total(b)
    decreases |a|
  {
    if a == [] {
      SameMembers(a, b);
    } else {
      var k := MatchFirst(a, b);
      TotalPermutes(a[1..], b[..k] + b[k + 1..]);
      TotalWithout(a, 0);
      assert a[..0] + a[1..] == a[1..];
      TotalWithout(b, k);
    }
  }
}
