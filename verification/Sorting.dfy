// Array.prototype.sort: a stable sort by a comparator, and what a total order fixes.
module Sorting {
  import Text

  ghost predicate TotalPreorder<T(!new)>(le: (T, T) -> bool) {
    && (forall x, y :: le(x, y) || le(y, x))
    && (forall x, y, z :: le(x, y) && le(y, z) ==> le(x, z))
  }

  predicate Sorted<T>(s: seq<T>, le: (T, T) -> bool) {
    forall i, j :: 0 <= i < j < |s| ==> le(s[i], s[j])
  }

  // Antisymmetric on the elements that occur in s.
  ghost predicate Separates<T>(s: seq<T>, le: (T, T) -> bool) {
    forall x, y :: x in s && y in s && le(x, y) && le(y, x) ==> x == y
  }

  // x goes in front of every element it is not after, so equal elements keep their order.
  function Insert<T>(x: T, s: seq<T>, le: (T, T) -> bool): (r: seq<T>)
    ensures multiset(r) == multiset(s) + multiset{x}
  {
    if s == [] || le(x, s[0]) then
      [x] + s
    else
      assert s == [s[0]] + s[1..];
      [s[0]] + Insert(x, s[1..], le)
  }

  function SortBy<T>(s: seq<T>, le: (T, T) -> bool): (r: seq<T>)
    ensures multiset(r) == multiset(s)
    ensures |r| == |s|
  {
    if s == [] then
      []
    else
      assert s == [s[0]] + s[1..];
      var r := Insert(s[0], SortBy(s[1..], le), le);
      assert |multiset(r)| == |multiset(s)|;
      r
  }

  lemma MultisetMembers<T>(a: seq<T>, b: seq<T>)
    requires multiset(a) == multiset(b)
    ensures |a| == |b|
    ensures forall x :: x in a <==> x in b
  {
    assert |multiset(a)| == |multiset(b)|;
    forall x
      ensures x in a <==> x in b
    {
      assert x in a <==> x in multiset(a);
      assert x in b <==> x in multiset(b);
    }
  }

  lemma {:induction false} InsertSorted<T(!new)>(x: T, s: seq<T>, le: (T, T) -> bool)
    requires TotalPreorder(le) && Sorted(s, le)
    ensures Sorted(Insert(x, s, le), le)
  {
    var r := Insert(x, s, le);
    if s == [] {
    } else if le(x, s[0]) {
      forall j | 0 < j < |r|
        ensures le(r[0], r[j])
      {
        assert r[j] == s[j - 1];
        if j > 1 { assert le(s[0], s[j - 1]); }
      }
    } else {
      var rest := Insert(x, s[1..], le);
      InsertSorted(x, s[1..], le);
      assert s == [s[0]] + s[1..];
      forall j | 0 <= j < |rest|
        ensures le(s[0], rest[j])
      {
        assert rest[j] in multiset(rest);
        if rest[j] != x {
          assert rest[j] in multiset(s[1..]);
          assert rest[j] in s[1..];
        }
      }
    }
  }

  lemma {:induction false} SortBySorted<T(!new)>(s: seq<T>, le: (T, T) -> bool)
    requires TotalPreorder(le)
    ensures Sorted(SortBy(s, le), le)
  {
    if s != [] {
      SortBySorted(s[1..], le);
      InsertSorted(s[0], SortBy(s[1..], le), le);
    }
  }

  lemma SortedHead<T>(a: seq<T>, b: seq<T>, le: (T, T) -> bool)
    requires Sorted(a, le) && Sorted(b, le)
    requires a != [] && multiset(a) == multiset(b)
    requires Separates(a, le)
    ensures b != [] && a[0] == b[0]
  {
    MultisetMembers(a, b);
    assert b[0] in a && a[0] in b;
    var i :| 0 <= i < |a| && a[i] == b[0];
    var j :| 0 <= j < |b| && b[j] == a[0];
    assert i == 0 || le(a[0], b[0]);
    assert j == 0 || le(b[0], a[0]);
  }

  lemma TailsMatch<T>(a: seq<T>, b: seq<T>)
    requires a != [] && b != [] && a[0] == b[0] && multiset(a) == multiset(b)
    ensures multiset(a[1..]) == multiset(b[1..])
  {
    assert a == [a[0]] + a[1..] && b == [b[0]] + b[1..];
    assert multiset(a) == multiset{a[0]} + multiset(a[1..]);
    assert multiset(b) == multiset{b[0]} + multiset(b[1..]);
    assert multiset(a[1..]) == multiset(a) - multiset{a[0]};
    assert multiset(b[1..]) == multiset(b) - multiset{b[0]};
  }

  // A sorted arrangement of elements that the order separates is unique, so the
  // result of sorting does not depend on the order of the input.
  lemma {:induction false} SortedUnique<T>(a: seq<T>, b: seq<T>, le: (T, T) -> bool)
    requires Sorted(a, le) && Sorted(b, le)
    requires multiset(a) == multiset(b)
    requires Separates(a, le)
    ensures a == b
  {
    MultisetMembers(a, b);
    if a != [] {
      SortedHead(a, b, le);
      var c, d := a[1..], b[1..];
      TailsMatch(a, b);
      assert a == [a[0]] + c && b == [b[0]] + d;
      assert forall x :: x in c ==> x in a;
      assert Separates(c, le);
      SortedUnique(c, d, le);
    }
  }

  lemma SortByOrderFree<T(!new)>(a: seq<T>, b: seq<T>, le: (T, T) -> bool)
    requires TotalPreorder(le) && Separates(a, le)
    requires multiset(a) == multiset(b)
    ensures SortBy(a, le) == SortBy(b, le)
  {
    SortBySorted(a, le);
    SortBySorted(b, le);
    MultisetMembers(a, SortBy(a, le));
    SortedUnique(SortBy(a, le), SortBy(b, le), le);
  }

  // The code-unit order of strings is total.
  lemma AtMostOrders()
    ensures TotalPreorder(Text.AtMost)
    ensures forall s: seq<string> :: Separates(s, Text.AtMost)
  {
    forall x, y
      ensures Text.AtMost(x, y) || Text.AtMost(y, x)
      ensures Text.AtMost(x, y) && Text.AtMost(y, x) ==> x == y
    {
      Text.AtMostTotal(x, y);
      if Text.AtMost(x, y) && Text.AtMost(y, x) { Text.AtMostAntisymmetric(x, y); }
    }
    forall x, y, z | Text.AtMost(x, y) && Text.AtMost(y, z)
      ensures Text.AtMost(x, z)
    {
      Text.AtMostTransitive(x, y, z);
    }
  }

  lemma {:induction false} SortByFixed<T>(s: seq<T>, le: (T, T) -> bool)
    requires Sorted(s, le)
    ensures SortBy(s, le) == s
  {
    if s != [] {
      SortByFixed(s[1..], le);
      assert s == [s[0]] + s[1..];
    }
  }

  // ----- sequences without repetition -----

  predicate Unique<T(==)>(s: seq<T>) {
    forall i, j :: 0 <= i < j < |s| ==> s[i] != s[j]
  }

  lemma {:induction false} UniqueCounts<T>(s: seq<T>)
    ensures Unique(s) <==> forall x :: multiset(s)[x] <= 1
  {
    if s != [] {
      var rest := s[1..];
      UniqueCounts(rest);
      assert s == [s[0]] + rest;
      assert forall x :: multiset(s)[x] == multiset(rest)[x] + if x == s[0] then 1 else 0;
      assert s[0] in rest <==> multiset(rest)[s[0]] >= 1;
      if Unique(s) {
        forall i | 0 <= i < |rest|
          ensures rest[i] != s[0]
        {
          assert rest[i] == s[i + 1];
        }
        assert forall i, j :: 0 <= i < j < |rest| ==> rest[i] == s[i + 1] && rest[j] == s[j + 1];
      }
      if forall x :: multiset(s)[x] <= 1 {
        assert multiset(s)[s[0]] <= 1;
        assert s[0] !in rest;
        forall x
          ensures multiset(rest)[x] <= 1
        {
          assert multiset(s)[x] <= 1;
        }
      }
    }
  }

  lemma UniqueSameElements<T>(a: seq<T>, b: seq<T>)
    requires Unique(a) && Unique(b) && forall x :: x in a <==> x in b
    ensures multiset(a) == multiset(b)
  {
    UniqueCounts(a);
    UniqueCounts(b);
    forall x
      ensures multiset(a)[x] == multiset(b)[x]
    {
      assert x in a <==> multiset(a)[x] >= 1;
      assert x in b <==> multiset(b)[x] >= 1;
    }
  }

  lemma UniquePermuted<T>(a: seq<T>, b: seq<T>)
    requires multiset(a) == multiset(b) && Unique(a)
    ensures Unique(b)
  {
    UniqueCounts(a);
    UniqueCounts(b);
  }
}
