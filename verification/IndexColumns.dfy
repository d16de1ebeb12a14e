/** The index columns proposed from a filter's terms (internal/plans/plans.go). How one
    term is read, a column compared for equality or over a range, is a parameter. */
module IndexColumns {
  import opened Common
  import opened Ordering
  import FilterSplit

  datatype Comparison = Equality(column: string) | Range(column: string)

  type Reader = string -> Option<Comparison>

  const MAX_EQUALITY_COLUMNS := 3

  // term i compares column c by equality, and the columns compared so before are all in
  // before: c is the next equality column a reader of the filter meets after those.
  ghost predicate NextEquality(read: Reader, terms: seq<string>, i: int, c: string, before: seq<string>)
  {
    && 0 <= i < |terms|
    && read(terms[i]) == Some(Equality(c))
    && c !in before
    && forall j, d :: 0 <= j < i && read(terms[j]) == Some(Equality(d)) ==> d in before
  }

  ghost predicate NextRange(read: Reader, terms: seq<string>, i: int, c: string, before: seq<string>)
  {
    && 0 <= i < |terms|
    && read(terms[i]) == Some(Range(c))
    && c !in before
    && forall j, d :: 0 <= j < i && read(terms[j]) == Some(Range(d)) ==> d in before
  }

  ghost predicate EqualityListed(read: Reader, terms: seq<string>, cols: seq<string>, k: nat)
    requires k < |cols|
  {
    exists i :: NextEquality(read, terms, i, cols[k], cols[..k])
  }

  // The first equality columns in reading order, at most three, then the first range
  // column that is not one of them. Nothing usable is passed over.
  ghost predicate Proposal(read: Reader, terms: seq<string>, cols: seq<string>, equalities: nat)
    requires equalities <= |cols|
  {
    && equalities <= 3 && |cols| <= equalities + 1
    && (forall k :: 0 <= k < equalities ==> EqualityListed(read, terms, cols, k))
    && (equalities < 3 ==>
          forall i, c :: !NextEquality(read, terms, i, c, cols[..equalities]))
    && (|cols| > equalities ==> exists i :: NextRange(read, terms, i, cols[equalities], cols[..equalities]))
    && (|cols| == equalities ==> forall i, c :: !NextRange(read, terms, i, c, cols))
  }

  // A proposal never repeats a column.
  lemma ProposalIsDistinct(read: Reader, terms: seq<string>, cols: seq<string>, equalities: nat)
    requires equalities <= |cols| && Proposal(read, terms, cols, equalities)
    ensures Distinct(cols)
  {
    forall a, b | 0 <= a < b < |cols|
      ensures cols[a] != cols[b]
    {
      assert cols[a] == cols[..b][a];
      if b < equalities {
        assert EqualityListed(read, terms, cols, b);
        var i :| NextEquality(read, terms, i, cols[b], cols[..b]);
      } else {
        var i :| NextRange(read, terms, i, cols[b], cols[..b]);
      }
    }
  }

  // The two lists a reader has collected from the first n terms.
  ghost predicate Collected(read: Reader, terms: seq<string>, n: nat, equality: seq<string>, ranges: seq<string>)
    requires n <= |terms|
  {
    && |equality| <= MAX_EQUALITY_COLUMNS
    && (forall k :: 0 <= k < |equality| ==> EqualityListed(read, terms, equality, k))
    && (|equality| < MAX_EQUALITY_COLUMNS ==>
          forall j, c :: 0 <= j < n && read(terms[j]) == Some(Equality(c)) ==> c in equality)
    && (forall j, c :: 0 <= j < n && read(terms[j]) == Some(Range(c)) ==> c in equality || c in ranges)
    && (forall k :: 0 <= k < |ranges| ==> RangeListed(read, terms, ranges, k, equality))
  }

  ghost predicate RangeListed(read: Reader, terms: seq<string>, ranges: seq<string>, k: nat, equality: seq<string>)
    requires k < |ranges|
  {
    exists i :: 0 <= i < |terms| && read(terms[i]) == Some(Range(ranges[k])) &&
      forall j, d :: 0 <= j < i && read(terms[j]) == Some(Range(d)) ==> d in equality || d in ranges[..k]
  }

  lemma CollectEquality(read: Reader, terms: seq<string>, n: nat, equality: seq<string>, ranges: seq<string>, c: string)
    requires n < |terms| && Collected(read, terms, n, equality, ranges)
    requires read(terms[n]) == Some(Equality(c)) && c !in equality && |equality| < MAX_EQUALITY_COLUMNS
    ensures Collected(read, terms, n + 1, equality + [c], ranges)
  {
    var equality' := equality + [c];
    assert NextEquality(read, terms, n, c, equality);
    forall k | 0 <= k < |equality'|
      ensures EqualityListed(read, terms, equality', k)
    {
      if k < |equality| {
        assert EqualityListed(read, terms, equality, k);
        var i :| NextEquality(read, terms, i, equality[k], equality[..k]);
        assert equality'[..k] == equality[..k] && equality'[k] == equality[k];
        assert NextEquality(read, terms, i, equality'[k], equality'[..k]);
      } else {
        assert equality'[..k] == equality;
        assert NextEquality(read, terms, n, equality'[k], equality'[..k]);
      }
    }
    forall k | 0 <= k < |ranges|
      ensures RangeListed(read, terms, ranges, k, equality')
    {
      assert RangeListed(read, terms, ranges, k, equality);
    }
  }

  lemma CollectRange(read: Reader, terms: seq<string>, n: nat, equality: seq<string>, ranges: seq<string>, c: string)
    requires n < |terms| && Collected(read, terms, n, equality, ranges)
    requires read(terms[n]) == Some(Range(c))
    ensures Collected(read, terms, n + 1, equality, ranges + [c])
  {
    var ranges' := ranges + [c];
    forall k | 0 <= k < |ranges'|
      ensures RangeListed(read, terms, ranges', k, equality)
    {
      if k < |ranges| {
        assert RangeListed(read, terms, ranges, k, equality);
        assert ranges'[..k] == ranges[..k];
      } else {
        assert ranges'[..k] == ranges;
      }
    }
  }

  // One pass over the terms: equality columns, and range columns not already among them.
  method CollectColumns(read: Reader, terms: seq<string>) returns (equality: seq<string>, ranges: seq<string>, seen: set<string>)
    ensures Collected(read, terms, |terms|, equality, ranges)
    ensures forall c :: c in seen <==> c in equality
  {
    equality, ranges, seen := [], [], {};
    for i := 0 to |terms|
      invariant Collected(read, terms, i, equality, ranges)
      invariant forall c :: c in seen <==> c in equality
    {
      var term := read(terms[i]);
      if term.None? || term.value.column in seen {
        continue;
      }
      match term.value
      case Equality(col) =>
        if |equality| < MAX_EQUALITY_COLUMNS {
          CollectEquality(read, terms, i, equality, ranges, col);
          equality := equality + [col];
          seen := seen + {col};
        }
      case Range(col) =>
        CollectRange(read, terms, i, equality, ranges, col);
        ranges := ranges + [col];
    }
  }

  lemma RangeAdded(read: Reader, terms: seq<string>, equality: seq<string>, ranges: seq<string>, i: nat)
    requires Collected(read, terms, |terms|, equality, ranges) && i < |ranges|
    requires ranges[i] !in equality && forall j :: 0 <= j < i ==> ranges[j] in equality
    ensures Proposal(read, terms, equality + [ranges[i]], |equality|)
  {
    var cols, n := equality + [ranges[i]], |equality|;
    assert cols[..n] == equality && cols[n] == ranges[i];
    assert RangeListed(read, terms, ranges, i, equality);
    var k :| 0 <= k < |terms| && read(terms[k]) == Some(Range(ranges[i])) &&
      forall j, d :: 0 <= j < k && read(terms[j]) == Some(Range(d)) ==> d in equality || d in ranges[..i];
    assert NextRange(read, terms, k, ranges[i], equality);
    forall e | 0 <= e < n
      ensures EqualityListed(read, terms, cols, e)
    {
      assert EqualityListed(read, terms, equality, e);
      assert cols[..e] == equality[..e];
    }
  }

  lemma NoRangeAdded(read: Reader, terms: seq<string>, equality: seq<string>, ranges: seq<string>)
    requires Collected(read, terms, |terms|, equality, ranges)
    requires forall j :: 0 <= j < |ranges| ==> ranges[j] in equality
    ensures Proposal(read, terms, equality, |equality|)
  {
  }

  method IndexColumns(read: Reader, filter: string) returns (cols: seq<string>, ghost equalities: nat)
    ensures equalities <= |cols|
    ensures FilterSplit.SplitAnd(filter).None? ==> cols == []
    ensures FilterSplit.SplitAnd(filter).Some? ==>
              Proposal(read, FilterSplit.SplitAnd(filter).value, cols, equalities)
  {
    var terms, ok := FilterSplit.Split(filter);
    if !ok {
      return [], 0;
    }
    var equality, ranges, seen := CollectColumns(read, terms);
    cols, equalities := equality, |equality|;
    for i := 0 to |ranges|
      invariant cols == equality
      invariant forall j :: 0 <= j < i ==> ranges[j] in equality
    {
      if ranges[i] !in seen {
        RangeAdded(read, terms, equality, ranges, i);
        cols := cols + [ranges[i]];
        return;
      }
    }
    NoRangeAdded(read, terms, equality, ranges);
  }
}
