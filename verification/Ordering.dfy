/** Orders and sorting. Sort stands for the library calls sort.Slice and
    sort.SliceStable: an in-order rearrangement of the same elements. */
module Ordering {

  ghost predicate StrictWeakOrder<T(!new)>(less: (T, T) -> bool)
  {
    && (forall x, y :: less(x, y) ==> !less(y, x))
    && (forall x, y, z :: less(x, y) ==> less(x, z) || less(z, y))
  }

  ghost predicate Sorted<T>(s: seq<T>, less: (T, T) -> bool)
  {
    forall i, j :: 0 <= i < j < |s| ==> !less(s[j], s[i])
  }

  // Puts x behind every element it does not precede.
  function Insert<T>(s: seq<T>, x: T, less: (T, T) -> bool): (r: seq<T>)
    ensures multiset(r) == multiset(s) + multiset{x}
  {
    if s == [] then [x]
    else
      var init, last := s[..|s| - 1], s[|s| - 1];
      assert s == init + [last];
      if less(x, last) then Insert(init, x, less) + [last] else s + [x]
  }

  function Sort<T>(s: seq<T>, less: (T, T) -> bool): (r: seq<T>)
    ensures multiset(r) == multiset(s)
  {
    if s == [] then []
    else
      assert s == s[..|s| - 1] + [s[|s| - 1]];
      Insert(Sort(s[..|s| - 1], less), s[|s| - 1], less)
  }

  lemma SamePopulation<T>(s: seq<T>, r: seq<T>)
    requires multiset(s) == multiset(r)
    ensures |s| == |r|
    ensures forall x :: x in s <==> x in r
  {
    assert |multiset(s)| == |multiset(r)|;
    forall x
      ensures x in s <==> x in r
    {
      assert x in s <==> x in multiset(s);
      assert x in r <==> x in multiset(r);
    }
  }

  lemma {:induction false} InsertSorts<T(!new)>(s: seq<T>, x: T, less: (T, T) -> bool)
    requires StrictWeakOrder(less) && Sorted(s, less)
    ensures Sorted(Insert(s, x, less), less)
  {
    if s != [] {
      var init, last := s[..|s| - 1], s[|s| - 1];
      if less(x, last) {
        InsertSorts(init, x, less);
        var r := Insert(init, x, less);
        forall i | 0 <= i < |r|
          ensures !less(last, r[i])
        {
          assert r[i] in multiset(r);
          assert r[i] in init || r[i] == x;
        }
      } else {
        forall i | 0 <= i < |s|
          ensures !less(x, s[i])
        {
          assert i < |s| - 1 ==> !less(last, s[i]);
        }
      }
    }
  }

  lemma {:induction false} SortSorts<T(!new)>(s: seq<T>, less: (T, T) -> bool)
    requires StrictWeakOrder(less)
    ensures Sorted(Sort(s, less), less)
  {
    if s != [] {
      SortSorts(s[..|s| - 1], less);
      InsertSorts(Sort(s[..|s| - 1], less), s[|s| - 1], less);
    }
  }

  ghost predicate Distinct<T>(s: seq<T>)
  {
    forall i, j :: 0 <= i < j < |s| ==> s[i] != s[j]
  }

  // Duplicate-free sequences over the same elements are rearrangements of each other.
  lemma {:induction false} DistinctSameElements<T>(s: seq<T>, r: seq<T>)
    requires Distinct(s) && Distinct(r)
    requires forall x :: x in s <==> x in r
    ensures multiset(s) == multiset(r)
  {
    forall x
      ensures multiset(s)[x] == multiset(r)[x]
    {
      CountDistinct(s, x);
      CountDistinct(r, x);
    }
  }

  lemma {:induction false} CountDistinct<T>(s: seq<T>, x: T)
    requires Distinct(s)
    ensures multiset(s)[x] == if x in s then 1 else 0
  {
    if s != [] {
      var init := s[..|s| - 1];
      assert s == init + [s[|s| - 1]];
      CountDistinct(init, x);
    }
  }

  lemma CountTwice<T>(s: seq<T>, i: nat, j: nat)
    requires i < j < |s|
    ensures s[i] == s[j] ==> multiset(s)[s[i]] >= 2
  {
    assert s == s[..i] + [s[i]] + s[i + 1..j] + [s[j]] + s[j + 1..];
  }

  lemma RearrangedStaysDistinct<T>(s: seq<T>, r: seq<T>)
    requires Distinct(s) && multiset(s) == multiset(r)
    ensures Distinct(r)
  {
    forall i, j | 0 <= i < j < |r|
      ensures r[i] != r[j]
    {
      CountDistinct(s, r[i]);
      CountTwice(r, i, j);
    }
  }

  predicate IntLess(x: int, y: int)
  {
    x < y
  }

  lemma LastIsLargest<T>(s: seq<T>, x: T, less: (T, T) -> bool)
    requires Sorted(s, less) && x in s
    ensures x == s[|s| - 1] || !less(s[|s| - 1], x)
  {
  }

  lemma WithoutLast<T>(s: seq<T>)
    requires s != []
    ensures multiset(s[..|s| - 1]) == multiset(s) - multiset{s[|s| - 1]}
  {
    assert s == s[..|s| - 1] + [s[|s| - 1]];
  }

  lemma SameWithoutLast<T>(s: seq<T>, r: seq<T>)
    requires s != [] && r != [] && multiset(s) == multiset(r)
    requires s[|s| - 1] == r[|r| - 1]
    ensures multiset(s[..|s| - 1]) == multiset(r[..|r| - 1])
  {
    WithoutLast(s);
    WithoutLast(r);
  }

  ghost predicate Comparable<T>(s: seq<T>, less: (T, T) -> bool)
  {
    forall x, y :: x in s && y in s && x != y ==> less(x, y) || less(y, x)
  }

  // When all elements are comparable, being sorted leaves one arrangement.
  lemma {:induction false} SortedUnique<T>(s: seq<T>, r: seq<T>, less: (T, T) -> bool)
    requires Sorted(s, less) && Sorted(r, less) && Comparable(s, less)
    requires multiset(s) == multiset(r)
    ensures s == r
  {
    SamePopulation(s, r);
    if s != [] {
      var n := |s| - 1;
      assert s[n] in r && r[n] in s;
      LastIsLargest(s, r[n], less);
      LastIsLargest(r, s[n], less);
      SameWithoutLast(s, r);
      SortedUnique(s[..n], r[..n], less);
      assert s == s[..n] + [s[n]] && r == r[..n] + [r[n]];
    }
  }

  // The byte-wise order of Go strings.
  predicate StringLess(a: string, b: string)
  {
    b != [] && (a == [] || a[0] < b[0] || (a[0] == b[0] && StringLess(a[1..], b[1..])))
  }

  lemma StringLessAsymmetric(a: string, b: string)
    ensures !(StringLess(a, b) && StringLess(b, a))
  {
  }

  lemma {:induction false} StringLessTotal(a: string, b: string)
    ensures a == b || StringLess(a, b) || StringLess(b, a)
  {
    if a != [] && b != [] && a[0] == b[0] {
      StringLessTotal(a[1..], b[1..]);
      assert a == [a[0]] + a[1..];
      assert b == [b[0]] + b[1..];
    }
  }

  lemma {:induction false} StringLessTransitive(a: string, b: string, c: string)
    requires StringLess(a, b) && StringLess(b, c)
    ensures StringLess(a, c)
  {
    if a != [] && a[0] == b[0] && b[0] == c[0] {
      StringLessTransitive(a[1..], b[1..], c[1..]);
    }
  }
}
