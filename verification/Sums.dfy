/** Sums of a real quantity over a sequence. */
module Sums {

  function Sum<T>(s: seq<T>, f: T -> real): real
  {
    if s == [] then 0.0 else Sum(s[..|s| - 1], f) + f(s[|s| - 1])
  }

  lemma SumSnoc<T>(s: seq<T>, x: T, f: T -> real)
    ensures Sum(s + [x], f) == Sum(s, f) + f(x)
  {
  }

  lemma {:induction false} SumRemove<T>(s: seq<T>, i: nat, f: T -> real)
    requires i < |s|
    ensures Sum(s, f) == Sum(s[..i] + s[i + 1..], f) + f(s[i])
  {
    var n := |s| - 1;
    if i < n {
      SumRemove(s[..n], i, f);
      assert s[..n][..i] == s[..i] && s[..n][i + 1..] == s[i + 1..n];
      assert s[..i] + s[i + 1..] == (s[..i] + s[i + 1..n]) + [s[n]];
      SumSnoc(s[..i] + s[i + 1..n], s[n], f);
    } else {
      assert s[..i] + s[i + 1..] == s[..n];
    }
  }

  lemma RemovedPopulation<T>(s: seq<T>, i: nat)
    requires i < |s|
    ensures multiset(s[..i] + s[i + 1..]) == multiset(s) - multiset{s[i]}
  {
    assert s == s[..i] + [s[i]] + s[i + 1..];
  }

  // Taking one occurrence of x out of a sequence.
  lemma SumWithout<T>(r: seq<T>, x: T, f: T -> real) returns (rest: seq<T>)
    requires x in r
    ensures Sum(r, f) == Sum(rest, f) + f(x) && multiset(rest) == multiset(r) - multiset{x}
  {
    var i :| 0 <= i < |r| && r[i] == x;
    SumRemove(r, i, f);
    RemovedPopulation(r, i);
    rest := r[..i] + r[i + 1..];
  }

  // The order of the terms does not matter.
  lemma {:induction false} SumPermutes<T>(s: seq<T>, r: seq<T>, f: T -> real)
    requires multiset(s) == multiset(r)
    ensures Sum(s, f) == Sum(r, f)
    decreases |s|
  {
    if s == [] {
      assert |multiset(r)| == 0;
    } else {
      var init, x := s[..|s| - 1], s[|s| - 1];
      assert s == init + [x];
      assert x in multiset(r);
      var rest := SumWithout(r, x, f);
      SumPermutes(init, rest, f);
    }
  }

  lemma {:induction false} SumNonNegative<T>(s: seq<T>, f: T -> real)
    requires forall x :: x in s ==> f(x) >= 0.0
    ensures Sum(s, f) >= 0.0
  {
    if s != [] {
      SumNonNegative(s[..|s| - 1], f);
    }
  }

  // Dropping non-negative terms from the end never raises a sum.
  lemma {:induction false} SumPrefix<T>(s: seq<T>, n: nat, f: T -> real)
    requires n <= |s| && forall x :: x in s ==> f(x) >= 0.0
    ensures Sum(s[..n], f) <= Sum(s, f)
  {
    if n < |s| {
      var init := s[..|s| - 1];
      SumPrefix(init, n, f);
      assert init[..n] == s[..n];
    } else {
      assert s[..n] == s;
    }
  }
}
