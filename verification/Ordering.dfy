/** The order that Go's `<` and `sort.Strings` use on strings, and the two facts the
    controllers rely on: sorting forgets the order in which a list was built, and a
    set of strings has exactly one sorted, duplicate-free listing. */
module Ordering {

  predicate Le(a: string, b: string) {
    a == [] || (b != [] && (a[0] < b[0] || (a[0] == b[0] && Le(a[1..], b[1..]))))
  }

  predicate Less(a: string, b: string) {
    a != b && Le(a, b)
  }

  lemma {:induction false} LeTotal(a: string, b: string)
    ensures Le(a, b) || Le(b, a)
  {
    if a != [] && b != [] && a[0] == b[0] {
      LeTotal(a[1..], b[1..]);
    }
  }

  lemma {:induction false} LeAntisymmetric(a: string, b: string)
    requires Le(a, b) && Le(b, a)
    ensures a == b
  {
    if a != [] && b != [] {
      LeAntisymmetric(a[1..], b[1..]);
      assert a == [a[0]] + a[1..] && b == [b[0]] + b[1..];
    }
  }

  lemma {:induction false} LeTransitive(a: string, b: string, c: string)
    requires Le(a, b) && Le(b, c)
    ensures Le(a, c)
  {
    if a != [] && a[0] == b[0] && b[0] == c[0] {
      LeTransitive(a[1..], b[1..], c[1..]);
    }
  }

  lemma LeReflexive(a: string)
    ensures Le(a, a)
  {
    LeTotal(a, a);
  }

  lemma LessTransitive(a: string, b: string, c: string)
    requires Less(a, b) && Less(b, c)
    ensures Less(a, c)
  {
    LeTransitive(a, b, c);
    if a == c {
      LeAntisymmetric(a, b);
    }
  }

  ghost predicate Sorted(s: seq<string>) {
    forall i, j :: 0 <= i < j < |s| ==> Le(s[i], s[j])
  }

  ghost predicate Distinct<T(!new)>(s: seq<T>) {
    forall i, j :: 0 <= i < j < |s| ==> s[i] != s[j]
  }

  ghost function Elements<T(!new)>(s: seq<T>): (r: set<T>)
    ensures forall x :: x in r <==> x in s
  {
    set x | x in s
  }

  /** Inserts into a sorted list, before the first larger entry. */
  function Insert(x: string, s: seq<string>): (r: seq<string>)
    ensures multiset(r) == multiset(s) + multiset{x}
    ensures |r| == |s| + 1
  {
    if s == [] then [x]
    else if Le(x, s[0]) then [x] + s
    else
      assert s == [s[0]] + s[1..];
      [s[0]] + Insert(x, s[1..])
  }

  lemma {:induction false} InsertSorted(x: string, s: seq<string>)
    requires Sorted(s)
    ensures Sorted(Insert(x, s))
  {
    if s == [] {
    } else if Le(x, s[0]) {
      forall j | 0 <= j < |s| ensures Le(x, s[j]) {
        if j > 0 { LeTransitive(x, s[0], s[j]); }
      }
    } else {
      LeTotal(x, s[0]);
      InsertSorted(x, s[1..]);
      var rest := Insert(x, s[1..]);
      forall j | 0 <= j < |rest| ensures Le(s[0], rest[j]) {
        assert rest[j] in multiset(rest);
        assert rest[j] == x || rest[j] in s[1..];
      }
    }
  }

  /** What `sort.Strings` leaves behind. */
  function Sort(s: seq<string>): (r: seq<string>)
    ensures multiset(r) == multiset(s)
    ensures |r| == |s|
  {
    if s == [] then []
    else
      assert s == [s[0]] + s[1..];
      Insert(s[0], Sort(s[1..]))
  }

  lemma {:induction false} SortSorts(s: seq<string>)
    ensures Sorted(Sort(s))
  {
    if s != [] {
      SortSorts(s[1..]);
      InsertSorted(s[0], Sort(s[1..]));
    }
  }

  /** Two sorted lists with the same entries are the same list. */
  lemma {:induction false} SortedUnique(a: seq<string>, b: seq<string>)
    requires Sorted(a) && Sorted(b) && multiset(a) == multiset(b)
    ensures a == b
  {
    assert |multiset(a)| == |a| && |multiset(b)| == |b|;
    if a != [] {
      assert a[0] in multiset(b);
      assert b[0] in multiset(a) by { assert b[0] in multiset(b); }
      HeadLeast(a, b[0]);
      HeadLeast(b, a[0]);
      LeAntisymmetric(a[0], b[0]);
      TailMultiset(a);
      TailMultiset(b);
      SortedUnique(a[1..], b[1..]);
      assert a == [a[0]] + a[1..] && b == [b[0]] + b[1..];
    }
  }

  lemma HeadLeast(a: seq<string>, x: string)
    requires Sorted(a) && x in a
    ensures Le(a[0], x)
  {
    LeReflexive(x);
  }

  lemma TailMultiset(a: seq<string>)
    requires a != []
    ensures multiset(a[1..]) == multiset(a) - multiset{a[0]}
  {
    assert a == [a[0]] + a[1..];
  }

  lemma RemoveAt<T>(b: seq<T>, k: int)
    requires 0 <= k < |b|
    ensures multiset(b[..k] + b[k + 1..]) == multiset(b) - multiset{b[k]}
  {
    assert b == b[..k] + ([b[k]] + b[k + 1..]);
  }

  /** Sorting a permuted list gives the same result. */
  lemma SortForgetsOrder(a: seq<string>, b: seq<string>)
    requires multiset(a) == multiset(b)
    ensures Sort(a) == Sort(b)
  {
    SortSorts(a);
    SortSorts(b);
    SortedUnique(Sort(a), Sort(b));
  }

  lemma {:induction false} DistinctMultiset<T(!new)>(s: seq<T>)
    requires Distinct(s)
    ensures multiset(s) == multiset(Elements(s))
  {
    if s != [] {
      assert s == [s[0]] + s[1..];
      DistinctMultiset(s[1..]);
      assert Elements(s) == {s[0]} + Elements(s[1..]);
      assert s[0] !in s[1..];
    }
  }

  lemma MultisetDistinct<T(!new)>(a: seq<T>, b: seq<T>)
    requires multiset(a) == multiset(b) && Distinct(a)
    ensures Distinct(b)
  {
    forall i, j | 0 <= i < j < |b| ensures b[i] != b[j] {
      if b[i] == b[j] {
        DistinctMultiset(a);
        CountedTwice(b, i, j);
        assert false;
      }
    }
  }

  lemma PermutedElements<T(!new)>(a: seq<T>, b: seq<T>)
    requires multiset(a) == multiset(b)
    ensures Elements(a) == Elements(b)
  {
    forall x ensures x in a <==> x in b {
      assert x in a <==> x in multiset(a);
      assert x in b <==> x in multiset(b);
    }
  }

  lemma CountedTwice<T(!new)>(b: seq<T>, i: int, j: int)
    requires 0 <= i < j < |b| && b[i] == b[j]
    ensures multiset(b)[b[i]] >= 2
  {
    assert b == b[..j] + [b[j]] + b[j + 1..];
    assert b[i] in multiset(b[..j]);
  }

  /** The sorted, duplicate-free listing of a set: collect in any order, then sort. */
  ghost function Listing(s: set<string>): (r: seq<string>)
    ensures Elements(r) == s
    ensures Sorted(r) && Distinct(r)
  {
    if s == {} then []
    else
      var x :| x in s;
      var rest := Listing(s - {x});
      assert x !in rest by { assert x !in Elements(rest); }
      InsertSorted(x, rest);
      DistinctInsert(x, rest);
      var r := Insert(x, rest);
      assert forall y :: y in r <==> y in multiset(r);
      assert Elements(r) == s;
      r
  }

  lemma DistinctInsert(x: string, s: seq<string>)
    requires Distinct(s) && x !in s
    ensures Distinct(Insert(x, s))
    ensures Elements(Insert(x, s)) == Elements(s) + {x}
  {
    var t := [x] + s;
    assert multiset(t) == multiset(s) + multiset{x} == multiset(Insert(x, s));
    MultisetDistinct(t, Insert(x, s));
    assert forall y :: y in Insert(x, s) <==> y in multiset(Insert(x, s));
  }

  /** Any sorted duplicate-free list of the members of s is Listing(s). */
  lemma ListingUnique(r: seq<string>, s: set<string>)
    requires Sorted(r) && Distinct(r) && Elements(r) == s
    ensures r == Listing(s)
  {
    DistinctMultiset(r);
    DistinctMultiset(Listing(s));
    SortedUnique(r, Listing(s));
  }

  /** Sorting any duplicate-free enumeration of s gives Listing(s). */
  lemma SortedEnumeration(r: seq<string>, s: set<string>)
    requires Distinct(r) && Elements(r) == s
    ensures Sort(r) == Listing(s)
  {
    SortSorts(r);
    MultisetDistinct(r, Sort(r));
    SortElements(r);
    ListingUnique(Sort(r), s);
  }

  /** Appending a new entry and sorting keeps a list duplicate-free and adds that entry. */
  lemma SortAppended(v: seq<string>, x: string)
    requires Distinct(v) && x !in v
    ensures Sorted(Sort(v + [x])) && Distinct(Sort(v + [x]))
    ensures Elements(Sort(v + [x])) == Elements(v) + {x}
  {
    SortSorts(v + [x]);
    MultisetDistinct(v + [x], Sort(v + [x]));
    SortElements(v + [x]);
  }

  lemma SortElements(s: seq<string>)
    ensures Elements(Sort(s)) == Elements(s)
  {
    PermutedElements(Sort(s), s);
  }
}
