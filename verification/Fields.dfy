/**
 Comparisons field by field, as the comparators of sort.Slice write them, and
 sorting by the fields of an element.
 */
module Fields {
  import opened Sorting
  import Text

  datatype Part = Word(word: string) | Number(number: int)

  predicate PartLess(a: Part, b: Part)
  {
    match (a, b)
    case (Word(x), Word(y)) => Text.Less(x, y)
    case (Number(x), Number(y)) => x < y
    case (Word(_), Number(_)) => true
    case (Number(_), Word(_)) => false
  }

  /** The first differing field decides. */
  predicate PartsLess(a: seq<Part>, b: seq<Part>)
    decreases |a|
  {
    if b == [] then false
    else if a == [] then true
    else if a[0] != b[0] then PartLess(a[0], b[0])
    else PartsLess(a[1..], b[1..])
  }

  lemma PartOrder(a: Part, b: Part, c: Part)
    ensures !(PartLess(a, b) && PartLess(b, a))
    ensures PartLess(a, b) || PartLess(b, a) || a == b
    ensures PartLess(a, b) && PartLess(b, c) ==> PartLess(a, c)
  {
    if a.Word? && b.Word? {
      Text.LessTrichotomy(a.word, b.word);
      if c.Word? && Text.Less(a.word, b.word) && Text.Less(b.word, c.word) {
        Text.LessTransitive(a.word, b.word, c.word);
      }
    }
  }

  lemma {:induction false} PartsOrder(a: seq<Part>, b: seq<Part>, c: seq<Part>)
    requires |a| == |b| == |c|
    ensures !(PartsLess(a, b) && PartsLess(b, a))
    ensures PartsLess(a, b) || PartsLess(b, a) || a == b
    ensures PartsLess(a, b) && PartsLess(b, c) ==> PartsLess(a, c)
    decreases |a|
  {
    if a != [] {
      PartOrder(a[0], b[0], c[0]);
      PartOrder(a[0], b[0], a[0]);
      PartsOrder(a[1..], b[1..], c[1..]);
      assert a == [a[0]] + a[1..] && b == [b[0]] + b[1..];
    }
  }

  // ---------- sorting by fields ----------

  predicate FieldsLess<T>(fields: T -> seq<Part>, a: T, b: T) { PartsLess(fields(a), fields(b)) }

  function ByFields<T>(fields: T -> seq<Part>): (T, T) -> bool
  {
    (a: T, b: T) => FieldsLess(fields, a, b)
  }

  function SortOn<T>(fields: T -> seq<Part>, s: seq<T>): seq<T>
  {
    SortBy(ByFields(fields), s)
  }

  ghost predicate SameWidth<T>(fields: T -> seq<Part>, s: seq<T>)
  {
    forall i, j :: 0 <= i < |s| && 0 <= j < |s| ==> |fields(s[i])| == |fields(s[j])|
  }

  ghost predicate DistinctOn<T>(fields: T -> seq<Part>, s: seq<T>)
  {
    forall i, j :: 0 <= i < j < |s| ==> fields(s[i]) != fields(s[j])
  }

  lemma SortOnSorted<T(!new)>(fields: T -> seq<Part>, s: seq<T>)
    requires SameWidth(fields, s)
    ensures Sorted(ByFields(fields), SortOn(fields, s)) && multiset(SortOn(fields, s)) == multiset(s)
  {
    var dom := set e | e in s;
    var less := ByFields(fields);
    forall x, y, z | x in dom && y in dom && z in dom && Compared(x, y, z)
      ensures !(less(x, y) && less(y, x)) && (less(x, z) ==> less(x, y) || less(y, z))
    {
      PartsOrder(fields(x), fields(y), fields(z));
      PartsOrder(fields(y), fields(x), fields(z));
      PartsOrder(fields(x), fields(z), fields(y));
    }
    WeakSortSorted(less, s, dom);
  }

  /** When no two elements agree in all fields, sorting forgets the order they came in. */
  lemma SortOnForgetsOrder<T(!new)>(fields: T -> seq<Part>, a: seq<T>, b: seq<T>)
    requires multiset(a) == multiset(b) && SameWidth(fields, a) && SameWidth(fields, b)
    requires forall x, y :: x in a && y in a && fields(x) == fields(y) ==> x == y
    ensures SortOn(fields, a) == SortOn(fields, b)
  {
    SameMembers(a, b);
    SortOnSorted(fields, a);
    SortOnSorted(fields, b);
    SameMembers(SortOn(fields, a), a);
    var less := ByFields(fields);
    var dom := set e | e in a;
    forall x, y, z | x in dom && y in dom && z in dom && Compared(x, y, z)
      ensures !(less(x, y) && less(y, x))
      ensures less(x, y) && less(y, z) ==> less(x, z)
      ensures !less(x, y) && !less(y, x) ==> x == y
    {
      PartsOrder(fields(x), fields(y), fields(z));
    }
    forall i | 0 <= i < |SortOn(fields, a)| ensures SortOn(fields, a)[i] in dom {
      assert SortOn(fields, a)[i] in a;
    }
    SortedUnique(less, SortOn(fields, a), SortOn(fields, b), dom);
  }

  /** In a list sorted by fields, comparing neighbours finds every repetition. */
  lemma {:induction false} NeighboursSuffice<T>(fields: T -> seq<Part>, s: seq<T>)
    requires SameWidth(fields, s) && forall i, j :: 0 <= i < j < |s| ==> !PartsLess(fields(s[j]), fields(s[i]))
    ensures DistinctOn(fields, s) <==> forall i :: 0 < i < |s| ==> fields(s[i - 1]) != fields(s[i])
  {
    if forall i :: 0 < i < |s| ==> fields(s[i - 1]) != fields(s[i]) {
      forall i, j | 0 <= i < j < |s| ensures fields(s[i]) != fields(s[j]) {
        Climbs(fields, s, i, j);
        PartsOrder(fields(s[i]), fields(s[j]), fields(s[i]));
      }
    }
  }

  lemma {:induction false} Climbs<T>(fields: T -> seq<Part>, s: seq<T>, i: nat, j: nat)
    requires SameWidth(fields, s) && forall i, j :: 0 <= i < j < |s| ==> !PartsLess(fields(s[j]), fields(s[i]))
    requires (forall i :: 0 < i < |s| ==> fields(s[i - 1]) != fields(s[i])) && i < j < |s|
    ensures PartsLess(fields(s[i]), fields(s[j]))
    decreases j
  {
    PartsOrder(fields(s[j - 1]), fields(s[j]), fields(s[j]));
    if i < j - 1 {
      Climbs(fields, s, i, j - 1);
      PartsOrder(fields(s[i]), fields(s[j - 1]), fields(s[j]));
    }
  }
}
