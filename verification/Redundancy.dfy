/** When one index makes another redundant (internal/analyzer/indexes.go).

    A key column is its attribute number with the opclass, collation and sort option
    that decide whether two indexes order alike; INCLUDE columns are attribute numbers. */
module Redundancy {
  import opened Ordering

  datatype KeyColumn = KeyColumn(attnum: int, opclass: int, collation: int, option: int)

  datatype Index = Index(
    schema: string,
    table: string,
    name: string,
    scans: int,
    isUnique: bool,
    isPrimary: bool,
    accessMethod: string,
    keys: seq<KeyColumn>,
    includes: seq<int>,
    expressions: string,
    predicate_: string)

  // What each index must serve on its own: the order of its keys, under one method,
  // predicate and list of expressions, and every column it carries.
  ghost predicate Serves(kept: Index, dropped: Index)
  {
    && kept.accessMethod == dropped.accessMethod
    && kept.expressions == dropped.expressions
    && kept.predicate_ == dropped.predicate_
    && dropped.keys <= kept.keys
    && Columns(dropped) <= Columns(kept)
    && (dropped.keys == kept.keys || (dropped.accessMethod == "btree" && dropped.expressions == ""))
  }

  function KeyColumns(index: Index): set<int>
  {
    set i | 0 <= i < |index.keys| :: index.keys[i].attnum
  }

  function Columns(index: Index): set<int>
  {
    KeyColumns(index) + set c | c in index.includes
  }

  // An index that enforces nothing.
  predicate Plain(index: Index)
  {
    !index.isUnique && !index.isPrimary
  }

  // sort.Slice's order on a table's indexes: most scans first, then by name.
  predicate Preferred(a: Index, b: Index)
  {
    a.scans > b.scans || (a.scans == b.scans && StringLess(a.name, b.name))
  }

  predicate SameIncludes(a: Index, b: Index)
  {
    multiset(a.includes) == multiset(b.includes)
  }

  predicate Exact(candidate: Index, retained: Index)
  {
    candidate.keys == retained.keys && SameIncludes(candidate, retained)
  }

  // redundantWith, as one relation on definitions.
  predicate RedundantWith(candidate: Index, retained: Index)
  {
    && Plain(candidate)
    && candidate.accessMethod == retained.accessMethod
    && candidate.expressions == retained.expressions
    && candidate.predicate_ == retained.predicate_
    && candidate.keys <= retained.keys
    && (forall c :: c in candidate.includes ==> c in Columns(retained))
    && (|candidate.keys| == |retained.keys| || (candidate.accessMethod == "btree" && candidate.expressions == ""))
    && !(Exact(candidate, retained) && Plain(retained) && Preferred(candidate, retained))
  }

  // The relation the two passes use: an index is never compared with itself.
  predicate Drops(candidate: Index, retained: Index)
  {
    candidate.name != retained.name && RedundantWith(candidate, retained)
  }

  // A redundant index loses nothing that its retained index does not offer.
  lemma RedundantIsServed(candidate: Index, retained: Index)
    requires RedundantWith(candidate, retained)
    ensures Plain(candidate) && Serves(retained, candidate)
  {
    forall c | c in KeyColumns(candidate)
      ensures c in KeyColumns(retained)
    {
      var i :| 0 <= i < |candidate.keys| && candidate.keys[i].attnum == c;
      assert retained.keys[i] == candidate.keys[i];
    }
    forall c | c in Columns(candidate)
      ensures c in Columns(retained)
    {
      if c !in KeyColumns(candidate) {
        assert c in candidate.includes;
      }
    }
  }

  // Conversely, whatever enforces nothing and is served by another index is redundant with
  // it, except that of two exact duplicates that could both go the preferred one stays.
  lemma RedundantExactly(candidate: Index, retained: Index)
    ensures RedundantWith(candidate, retained) <==>
      && !candidate.isUnique && !candidate.isPrimary
      && Serves(retained, candidate)
      && !(Duplicates(candidate, retained) && !retained.isUnique && !retained.isPrimary && Preferred(candidate, retained))
  {
    if RedundantWith(candidate, retained) {
      RedundantIsServed(candidate, retained);
    }
    if Serves(retained, candidate) {
      assert forall c :: c in candidate.includes ==> c in Columns(candidate);
      assert |candidate.keys| == |retained.keys| ==> candidate.keys == retained.keys;
    }
  }

  // The same keys, and INCLUDE lists that rearrange each other.
  ghost predicate Duplicates(a: Index, b: Index)
  {
    a.keys == b.keys && multiset(a.includes) == multiset(b.includes)
  }

  // Of two duplicates that enforce nothing the one with more scans stays, and among equals
  // the one whose name comes first.
  lemma BusierDuplicateStays(a: Index, b: Index)
    requires a.name != b.name && Serves(a, b) && Serves(b, a) && Duplicates(a, b)
    requires !a.isUnique && !a.isPrimary && !b.isUnique && !b.isPrimary
    requires a.scans > b.scans || (a.scans == b.scans && StringLess(a.name, b.name))
    ensures Drops(b, a) && !Drops(a, b)
  {
    RedundantExactly(a, b);
    RedundantExactly(b, a);
    PreferredAsymmetric(a, b);
  }

  lemma ExactSharesColumns(a: Index, b: Index)
    requires Exact(a, b)
    ensures Columns(a) == Columns(b)
  {
    SamePopulation(a.includes, b.includes);
  }

  // ----- Preference is a strict total order on distinct names -----

  lemma PreferredAsymmetric(a: Index, b: Index)
    ensures !(Preferred(a, b) && Preferred(b, a))
  {
    StringLessAsymmetric(a.name, b.name);
  }

  lemma PreferredTotal(a: Index, b: Index)
    requires a.name != b.name
    ensures Preferred(a, b) || Preferred(b, a)
  {
    StringLessTotal(a.name, b.name);
  }

  lemma PreferredTransitive(a: Index, b: Index, c: Index)
    requires Preferred(a, b) && Preferred(b, c)
    ensures Preferred(a, c)
  {
    if StringLess(a.name, b.name) && StringLess(b.name, c.name) {
      StringLessTransitive(a.name, b.name, c.name);
    }
  }

  lemma PreferredIsOrder()
    ensures StrictWeakOrder(Preferred)
  {
    forall x, y
      ensures Preferred(x, y) ==> !Preferred(y, x)
    {
      PreferredAsymmetric(x, y);
    }
    forall x, y, z | Preferred(x, y)
      ensures Preferred(x, z) || Preferred(z, y)
    {
      if x.name != z.name {
        PreferredTotal(x, z);
        if Preferred(z, x) {
          PreferredTransitive(z, x, y);
        }
      }
    }
  }

  // ----- Redundancy is a strict partial order -----

  // INCLUDE lists as CREATE INDEX should leave them: no repeats, nothing already a key.
  ghost predicate WellFormed(index: Index)
  {
    && Distinct(index.includes)
    && forall c :: c in index.includes ==> c !in KeyColumns(index)
  }

  // Both indexes plain, of one shape and the same keys, each carrying the other's
  // INCLUDE columns, and yet their INCLUDE lists differ.
  ghost predicate TwistedPair(a: Index, b: Index)
  {
    && Plain(a) && Plain(b)
    && a.accessMethod == b.accessMethod && a.expressions == b.expressions && a.predicate_ == b.predicate_
    && a.keys == b.keys
    && Columns(a) == Columns(b)
    && !SameIncludes(a, b)
  }

  // The only indexes that are redundant with each other are such twisted pairs.
  lemma MutualExactly(a: Index, b: Index)
    requires a.name != b.name
    ensures Drops(a, b) && Drops(b, a) <==> TwistedPair(a, b)
  {
    if Drops(a, b) && Drops(b, a) {
      RedundantIsServed(a, b);
      RedundantIsServed(b, a);
      PreferredTotal(a, b);
      assert a.keys == b.keys;
    }
  }

  lemma WellFormedNeverTwisted(a: Index, b: Index)
    requires WellFormed(a) && WellFormed(b)
    ensures !TwistedPair(a, b)
  {
    if a.keys == b.keys && Columns(a) == Columns(b) {
      forall c
        ensures c in a.includes <==> c in b.includes
      {
        assert c in a.includes ==> c in Columns(a) && c !in KeyColumns(a);
        assert c in b.includes ==> c in Columns(b) && c !in KeyColumns(b);
      }
      DistinctSameElements(a.includes, b.includes);
    }
  }

  // An index on column 1, with these INCLUDE columns.
  function OnOneColumn(name: string, includes: seq<int>): Index
  {
    Index("public", "t", name, 0, false, false, "btree", [KeyColumn(1, 1978, 0, 0)], includes, "", "")
  }

  // Both carry columns 2 and 3, and each names one of them twice.
  function RepeatsTwo(): Index
  {
    OnOneColumn("a", [2, 2, 3])
  }

  function RepeatsThree(): Index
  {
    OnOneColumn("b", [2, 3, 3])
  }

  // A repeated INCLUDE column is enough to make two indexes each redundant with the other.
  lemma RepeatedIncludeIsTwisted()
    ensures TwistedPair(RepeatsTwo(), RepeatsThree())
    ensures Drops(RepeatsTwo(), RepeatsThree()) && Drops(RepeatsThree(), RepeatsTwo())
  {
    assert forall c :: c in RepeatsTwo().includes <==> c in RepeatsThree().includes;
    assert multiset(RepeatsTwo().includes)[2] == 2 && multiset(RepeatsThree().includes)[2] == 1;
    assert TwistedPair(RepeatsTwo(), RepeatsThree());
    MutualExactly(RepeatsTwo(), RepeatsThree());
  }

  lemma DropsAsymmetric(a: Index, b: Index)
    requires WellFormed(a) && WellFormed(b)
    ensures !(Drops(a, b) && Drops(b, a))
  {
    if a.name != b.name {
      MutualExactly(a, b);
      WellFormedNeverTwisted(a, b);
    }
  }

  // Redundancy composes as long as neither step is mutual: through key prefixes, INCLUDE
  // cover, exact duplicates, scan counts and name ties, whatever c enforces.
  lemma DropsTransitive(a: Index, b: Index, c: Index)
    requires Drops(a, b) && Drops(b, c) && a.name != c.name
    requires !Drops(b, a)
    ensures Drops(a, c)
  {
    RedundantIsServed(a, b);
    RedundantIsServed(b, c);
    assert a.keys <= c.keys;
    if Exact(a, c) && Plain(c) && Preferred(a, c) {
      assert a.keys == b.keys == c.keys;
      ExactSharesColumns(a, c);
      assert Columns(a) == Columns(b);
      assert Preferred(b, a) && Exact(b, a) by {
        assert RedundantWith(b, a) || (Exact(b, a) && Preferred(b, a));
      }
      assert Exact(b, c) && !Preferred(b, c);
      PreferredTotal(b, c);
      PreferredTransitive(c, b, a);
      PreferredAsymmetric(a, c);
    }
  }
}
