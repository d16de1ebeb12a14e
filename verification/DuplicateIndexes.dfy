/** The choice of which redundant indexes to report (internal/analyzer/indexes.go): per
    table, one pass marks every redundant index, a second points each at one that stays. */
module DuplicateIndexes {
  import opened Common
  import opened Ordering
  import opened Redundancy

  datatype Issue = Issue(index: Index, duplicateOf: Index, exact: bool)

  function TableKey(index: Index): string
  {
    JoinKey(index.schema, '.', index.table)
  }

  // The comparable indexes filed under one table key. Rows collected before definitions
  // were recorded have no key columns and are left out.
  function Group(stats: seq<Index>, key: string): (g: seq<Index>)
    ensures forall x :: x in g <==> x in stats && x.keys != [] && TableKey(x) == key
  {
    if stats == [] then []
    else
      var last := stats[|stats| - 1];
      var g := Group(stats[..|stats| - 1], key);
      assert stats == stats[..|stats| - 1] + [last];
      if last.keys != [] && TableKey(last) == key then g + [last] else g
  }

  ghost predicate NamesDistinct(g: seq<Index>)
  {
    forall i, j :: 0 <= i < j < |g| ==> g[i].name != g[j].name
  }

  // Index names are unique within a table.
  ghost predicate NamesDistinctPerTable(stats: seq<Index>)
  {
    forall i, j :: 0 <= i < j < |stats| && TableKey(stats[i]) == TableKey(stats[j]) ==> stats[i].name != stats[j].name
  }

  ghost predicate RedundantIn(g: seq<Index>, candidate: Index)
  {
    exists other :: other in g && Drops(candidate, other)
  }

  ghost predicate Kept(g: seq<Index>, index: Index)
  {
    index in g && !RedundantIn(g, index)
  }

  // The issue names a redundant index and the most preferred kept index that covers it.
  ghost predicate IssueFor(g: seq<Index>, issue: Issue)
  {
    && issue.index in g
    && Kept(g, issue.duplicateOf)
    && Drops(issue.index, issue.duplicateOf)
    && (issue.exact <==> Exact(issue.index, issue.duplicateOf))
    && forall r :: Kept(g, r) && Drops(issue.index, r) && r != issue.duplicateOf ==> Preferred(issue.duplicateOf, r)
  }

  ghost predicate Reports(issues: seq<Issue>, index: Index)
  {
    exists i :: 0 <= i < |issues| && issues[i].index == index
  }

  ghost predicate OneIssueEach(issues: seq<Issue>)
  {
    forall i, j :: 0 <= i < j < |issues| ==> issues[i].index != issues[j].index
  }

  ghost predicate CoveredByKept(g: seq<Index>, candidate: Index)
  {
    exists r :: Kept(g, r) && Drops(candidate, r)
  }

  // The whole report: sound, without repeats, and silent only about indexes that no
  // kept index covers.
  ghost predicate ReportOf(stats: seq<Index>, issues: seq<Issue>)
  {
    && (forall i :: 0 <= i < |issues| ==> IssueFor(Group(stats, TableKey(issues[i].index)), issues[i]))
    && OneIssueEach(issues)
    && (forall c :: c in stats && c.keys != [] && CoveredByKept(Group(stats, TableKey(c)), c) ==> Reports(issues, c))
  }

  // ----- What the report guarantees -----

  // Every reported index can be dropped, and all of them together: the index each one
  // points at is reported by no issue, is filed under the same table, and serves it.
  lemma AllDropsAreSafe(stats: seq<Index>, issues: seq<Issue>, i: nat)
    requires ReportOf(stats, issues) && i < |issues|
    ensures var Issue(dropped, kept, exact) := issues[i];
            && Plain(dropped)
            && kept in stats && !Reports(issues, kept)
            && TableKey(kept) == TableKey(dropped)
            && Serves(kept, dropped)
            && (exact ==> Columns(kept) == Columns(dropped) && kept.keys == dropped.keys)
  {
    var Issue(dropped, kept, exact) := issues[i];
    var g := Group(stats, TableKey(dropped));
    RedundantIsServed(dropped, kept);
    forall j | 0 <= j < |issues|
      ensures issues[j].index != kept
    {
      assert RedundantIn(Group(stats, TableKey(issues[j].index)), issues[j].index);
      assert Kept(g, kept) && TableKey(kept) == TableKey(dropped);
    }
    if exact {
      ExactSharesColumns(dropped, kept);
    }
  }

  // A table key stands for one table as long as schema names carry no dot.
  lemma TableKeyIsTable(a: Index, b: Index)
    requires '.' !in a.schema && '.' !in b.schema
    ensures TableKey(a) == TableKey(b) <==> a.schema == b.schema && a.table == b.table
  {
    JoinKeyInjective(a.schema, a.table, b.schema, b.table, '.');
  }

  // The same definition on two tables that share a key: "a.b"."c" and "a"."b.c".
  function OnDottedSchema(): Index
  {
    OnOneColumn("i", []).(schema := "a.b", table := "c")
  }

  function OnDottedTable(): Index
  {
    OnOneColumn("j", []).(schema := "a", table := "b.c")
  }

  lemma DottedNamesDrop()
    ensures var a, b := OnDottedSchema(), OnDottedTable();
            Drops(b, a) && !Drops(a, b) && Exact(b, a) && TableKey(a) == TableKey(b)
  {
    var a, b := OnDottedSchema(), OnDottedTable();
    assert TableKey(a) == "a.b.c" == TableKey(b);
    assert StringLess(a.name, b.name);
  }

  lemma SameIndexSameIssue(issues: seq<Issue>, i: nat, j: nat)
    requires OneIssueEach(issues) && i < |issues| && j < |issues| && issues[i].index == issues[j].index
    ensures i == j
  {
  }

  // One of two indexes under one key makes the other redundant: that is the report.
  lemma PairReported(a: Index, b: Index, issues: seq<Issue>)
    requires Drops(b, a) && !Drops(a, b) && TableKey(a) == TableKey(b) && a.keys != [] && b.keys != []
    requires ReportOf([a, b], issues)
    ensures issues == [Issue(b, a, Exact(b, a))]
  {
    var stats := [a, b];
    var g := Group(stats, TableKey(b));
    assert stats[0] == a && stats[1] == b;
    assert Kept(g, a);
    forall i | 0 <= i < |issues|
      ensures issues[i] == Issue(b, a, Exact(b, a))
    {
      assert IssueFor(Group(stats, TableKey(issues[i].index)), issues[i]);
    }
    assert Reports(issues, b);
    SameIndexSameIssue(issues, 0, |issues| - 1);
  }

  // An index on column 1, next to one on columns 1 and 2 that may well be unique.
  function OnTwoColumns(isUnique: bool): Index
  {
    OnOneColumn("b", []).(keys := [KeyColumn(1, 1978, 0, 0), KeyColumn(2, 1978, 0, 0)], isUnique := isUnique)
  }

  lemma PrefixIsReported(isUnique: bool, issues: seq<Issue>)
    requires ReportOf([OnTwoColumns(isUnique), OnOneColumn("a", [])], issues)
    ensures issues == [Issue(OnOneColumn("a", []), OnTwoColumns(isUnique), false)]
  {
    var a, b := OnTwoColumns(isUnique), OnOneColumn("a", []);
    assert b.keys == a.keys[..1];
    assert Drops(b, a) && !Drops(a, b);
    PairReported(a, b, issues);
  }

  // With a dot in a schema name an index is reported as covered by another table's index.
  lemma DottedNamesMixTables(issues: seq<Issue>)
    requires ReportOf([OnDottedSchema(), OnDottedTable()], issues)
    ensures issues == [Issue(OnDottedTable(), OnDottedSchema(), true)]
    ensures OnDottedTable().table != OnDottedSchema().table
  {
    DottedNamesDrop();
    PairReported(OnDottedSchema(), OnDottedTable(), issues);
  }

  ghost predicate Untwisted(g: seq<Index>)
  {
    forall a, b :: a in g && b in g && a.name != b.name ==> !TwistedPair(a, b)
  }

  predicate StrictlyDrops(a: Index, b: Index)
  {
    Drops(a, b) && !Drops(b, a)
  }

  // Every index that sits in a twisted pair is also redundant with one that is not
  // redundant with it.
  ghost predicate TwistsEscape(g: seq<Index>)
  {
    forall a, b :: a in g && b in g && a.name != b.name && TwistedPair(a, b) ==> Escapes(g, a)
  }

  ghost predicate Escapes(g: seq<Index>, a: Index)
  {
    exists r :: r in g && StrictlyDrops(a, r)
  }

  function Above(g: seq<Index>, a: Index): set<Index>
  {
    set b | b in g && StrictlyDrops(a, b)
  }

  lemma SameNameSameIndex(g: seq<Index>, a: Index, b: Index)
    requires NamesDistinct(g) && a in g && b in g && a.name == b.name
    ensures a == b
  {
  }

  lemma StrictlyDropsTransitive(g: seq<Index>, a: Index, b: Index, c: Index)
    requires NamesDistinct(g) && a in g && b in g && c in g
    requires StrictlyDrops(a, b) && StrictlyDrops(b, c)
    ensures StrictlyDrops(a, c)
  {
    if a.name == c.name {
      SameNameSameIndex(g, a, c);
    }
    DropsTransitive(a, b, c);
    if Drops(c, a) {
      DropsTransitive(b, c, a);
    }
  }

  lemma RedundantEscapes(g: seq<Index>, a: Index)
    requires TwistsEscape(g) && a in g && RedundantIn(g, a)
    ensures Escapes(g, a)
  {
    var b :| b in g && Drops(a, b);
    MutualExactly(a, b);
    if !Drops(b, a) {
      assert StrictlyDrops(a, b);
    }
  }

  // Following redundancy upwards always ends at an index that stays.
  lemma {:induction false} RedundantReachesKept(g: seq<Index>, a: Index)
    requires NamesDistinct(g) && TwistsEscape(g) && a in g && RedundantIn(g, a)
    ensures CoveredByKept(g, a)
    decreases Above(g, a)
  {
    RedundantEscapes(g, a);
    var b :| b in g && StrictlyDrops(a, b);
    if !RedundantIn(g, b) {
      assert Kept(g, b);
    } else {
      forall c | c in Above(g, b)
        ensures c in Above(g, a)
      {
        StrictlyDropsTransitive(g, a, b, c);
      }
      assert b in Above(g, a) && b !in Above(g, b);
      RedundantReachesKept(g, b);
      var r :| Kept(g, r) && Drops(b, r);
      if a.name == r.name {
        SameNameSameIndex(g, a, r);
      }
      DropsTransitive(a, b, r);
      assert Drops(a, r);
    }
  }

  // On one table: every redundant index is reported, so that no redundancy remains among
  // the others, if and only if every twisted index is also strictly redundant.
  lemma CompleteExactly(g: seq<Index>)
    requires NamesDistinct(g)
    ensures (forall c :: c in g && RedundantIn(g, c) ==> CoveredByKept(g, c)) <==> TwistsEscape(g)
  {
    if TwistsEscape(g) {
      forall c | c in g && RedundantIn(g, c)
        ensures CoveredByKept(g, c)
      {
        RedundantReachesKept(g, c);
      }
    }
    if forall c :: c in g && RedundantIn(g, c) ==> CoveredByKept(g, c) {
      forall a, b | a in g && b in g && a.name != b.name && TwistedPair(a, b)
        ensures Escapes(g, a)
      {
        MutualExactly(a, b);
        assert RedundantIn(g, a);
        var r :| Kept(g, r) && Drops(a, r);
        assert StrictlyDrops(a, r);
      }
    }
  }

  lemma NothingKept(g: seq<Index>, a: Index, b: Index)
    requires a in g && b in g && Drops(a, b) && Drops(b, a)
    requires forall x :: x in g ==> x == a || x == b
    ensures forall r :: !Kept(g, r)
  {
  }

  lemma PairIssueIsKept(a: Index, b: Index, issue: Issue)
    requires TableKey(a) == TableKey(b) && a.keys != [] && b.keys != []
    requires IssueFor(Group([a, b], TableKey(issue.index)), issue)
    ensures !(Drops(a, b) && Drops(b, a))
  {
    var stats := [a, b];
    var g := Group(stats, TableKey(issue.index));
    assert stats[0] == a && stats[1] == b;
    assert issue.index in stats;
    if Drops(a, b) && Drops(b, a) {
      NothingKept(g, a, b);
    }
  }

  lemma MutualPairRedundant(a: Index, b: Index)
    requires Drops(a, b) && Drops(b, a)
    ensures RedundantIn([a, b], a) && RedundantIn([a, b], b)
    ensures !CoveredByKept([a, b], a) && !CoveredByKept([a, b], b)
  {
    var stats := [a, b];
    assert stats[0] == a && stats[1] == b;
    NothingKept(stats, a, b);
  }

  // Two indexes of a table that are only redundant with each other: both are redundant,
  // no kept index covers either, and a correct report says nothing.
  lemma MutualPairUnreported(a: Index, b: Index, issues: seq<Issue>)
    requires Drops(a, b) && Drops(b, a) && TableKey(a) == TableKey(b) && a.keys != [] && b.keys != []
    requires ReportOf([a, b], issues)
    ensures RedundantIn([a, b], a) && RedundantIn([a, b], b)
    ensures issues == []
  {
    MutualPairRedundant(a, b);
    if issues != [] {
      PairIssueIsKept(a, b, issues[0]);
    }
  }

  // So it is with the two that repeat an INCLUDE column.
  lemma RepeatedIncludeGoesUnreported(issues: seq<Issue>)
    requires ReportOf([RepeatsTwo(), RepeatsThree()], issues)
    ensures RedundantIn([RepeatsTwo(), RepeatsThree()], RepeatsTwo()) && RedundantIn([RepeatsTwo(), RepeatsThree()], RepeatsThree())
    ensures issues == []
  {
    RepeatedIncludeIsTwisted();
    MutualPairUnreported(RepeatsTwo(), RepeatsThree(), issues);
  }

  // Some other index of the table serves what c serves, and is not the lesser duplicate.
  ghost predicate Replaces(stats: seq<Index>, c: Index, r: Index)
  {
    && r in stats && r.keys != [] && TableKey(r) == TableKey(c) && r.name != c.name
    && Serves(r, c)
    && (Duplicates(c, r) && !r.isUnique && !r.isPrimary ==> !Preferred(c, r))
  }

  lemma RedundantIsReplaced(stats: seq<Index>, c: Index)
    ensures RedundantIn(Group(stats, TableKey(c)), c) <==> !c.isUnique && !c.isPrimary && exists r :: Replaces(stats, c, r)
  {
    forall r
      ensures r in Group(stats, TableKey(c)) && Drops(c, r) <==> !c.isUnique && !c.isPrimary && Replaces(stats, c, r)
    {
      RedundantExactly(c, r);
    }
  }

  // A prefix of another index, and an index that a unique one serves, are always reported.
  lemma ServedIsReported(stats: seq<Index>, issues: seq<Issue>, c: Index, r: Index)
    requires NamesDistinctPerTable(stats) && ReportOf(stats, issues) && Untwisted(Group(stats, TableKey(c)))
    requires c in stats && r in stats && c.keys != [] && r.keys != [] && TableKey(r) == TableKey(c) && r.name != c.name
    requires !c.isUnique && !c.isPrimary && Serves(r, c)
    requires |c.keys| < |r.keys| || r.isUnique || r.isPrimary
    ensures Reports(issues, c)
  {
    ReportIsComplete(stats, issues, c);
    assert Replaces(stats, c, r);
  }

  // Without twisted pairs an index is reported exactly when it enforces nothing and some
  // other index of its table makes it redundant.
  lemma ReportIsComplete(stats: seq<Index>, issues: seq<Issue>, c: Index)
    requires NamesDistinctPerTable(stats) && ReportOf(stats, issues)
    requires c in stats && c.keys != [] && Untwisted(Group(stats, TableKey(c)))
    ensures Reports(issues, c) <==> RedundantIn(Group(stats, TableKey(c)), c)
    ensures Reports(issues, c) <==> !c.isUnique && !c.isPrimary && exists r :: Replaces(stats, c, r)
  {
    var g := Group(stats, TableKey(c));
    RedundantIsReplaced(stats, c);
    GroupNamesDistinct(stats, TableKey(c));
    if RedundantIn(g, c) {
      RedundantReachesKept(g, c);
    }
    if Reports(issues, c) {
      var i :| 0 <= i < |issues| && issues[i].index == c;
      assert IssueFor(g, issues[i]);
    }
  }

  // On well-formed indexes of one table redundancy is a strict partial order.
  lemma RedundancyIsStrictOrder(g: seq<Index>, a: Index, b: Index, c: Index)
    requires NamesDistinct(g) && a in g && b in g && c in g
    requires WellFormed(a) && WellFormed(b) && WellFormed(c)
    ensures !Drops(a, a)
    ensures !(Drops(a, b) && Drops(b, a))
    ensures Drops(a, b) && Drops(b, c) ==> Drops(a, c)
  {
    DropsAsymmetric(a, b);
    if Drops(a, b) && Drops(b, c) {
      if a.name == c.name {
        SameNameSameIndex(g, a, c);
      }
      DropsTransitive(a, b, c);
    }
  }

  // Well-formed INCLUDE lists rule twisted pairs out.
  lemma WellFormedIsUntwisted(g: seq<Index>)
    requires forall x :: x in g ==> WellFormed(x)
    ensures Untwisted(g)
  {
    forall a, b | a in g && b in g && a.name != b.name
      ensures !TwistedPair(a, b)
    {
      WellFormedNeverTwisted(a, b);
    }
  }

  lemma {:induction false} GroupNamesDistinct(stats: seq<Index>, key: string)
    requires NamesDistinctPerTable(stats)
    ensures NamesDistinct(Group(stats, key))
  {
    if stats != [] {
      var init, last := stats[..|stats| - 1], stats[|stats| - 1];
      GroupNamesDistinct(init, key);
      forall x | x in Group(init, key)
        ensures TableKey(last) == key ==> x.name != last.name
      {
        var i :| 0 <= i < |init| && init[i] == x;
        assert stats[i] == x;
      }
    }
  }

  // ----- The code -----

  lemma SortDecides(a: seq<int>, b: seq<int>)
    ensures Sort(a, IntLess) == Sort(b, IntLess) <==> multiset(a) == multiset(b)
    ensures |Sort(a, IntLess)| == |a| && |Sort(b, IntLess)| == |b|
  {
    var as_, bs := Sort(a, IntLess), Sort(b, IntLess);
    SamePopulation(a, as_);
    SamePopulation(b, bs);
    if multiset(a) == multiset(b) {
      SortSorts(a, IntLess);
      SortSorts(b, IntLess);
      SortedUnique(as_, bs, IntLess);
    }
  }

  method SameSequence(a: seq<int>, b: seq<int>) returns (same: bool)
    requires |a| == |b|
    ensures same <==> a == b
  {
    for i := 0 to |a|
      invariant a[..i] == b[..i]
    {
      if a[i] != b[i] {
        return false;
      }
    }
    assert a == a[..|a|] == b[..|b|] == b;
    return true;
  }

  method SameColumnSet(a: seq<int>, b: seq<int>) returns (same: bool)
    ensures same <==> multiset(a) == multiset(b)
  {
    SortDecides(a, b);
    if |a| != |b| {
      return false;
    }
    same := SameSequence(Sort(a, IntLess), Sort(b, IntLess));
  }

  lemma MissingInclude(candidate: Index, retained: Index, c: int)
    requires c in candidate.includes && c !in Columns(retained)
    ensures !RedundantWith(candidate, retained)
  {
  }

  method CheckRedundant(candidate: Index, retained: Index) returns (exact: bool, ok: bool)
    ensures ok <==> RedundantWith(candidate, retained)
    ensures exact <==> ok && Exact(candidate, retained)
  {
    if candidate.isPrimary || candidate.isUnique {
      return false, false;
    }
    if candidate.accessMethod != retained.accessMethod ||
       candidate.expressions != retained.expressions ||
       candidate.predicate_ != retained.predicate_ {
      return false, false;
    }
    if |candidate.keys| > |retained.keys| {
      return false, false;
    }
    for i := 0 to |candidate.keys|
      invariant candidate.keys[..i] == retained.keys[..i]
    {
      if retained.keys[i] != candidate.keys[i] {
        return false, false;
      }
    }
    var retCols: set<int> := {};
    for i := 0 to |retained.keys|
      invariant retCols == set j | 0 <= j < i :: retained.keys[j].attnum
    {
      retCols := retCols + {retained.keys[i].attnum};
    }
    for i := 0 to |retained.includes|
      invariant retCols == KeyColumns(retained) + set c | c in retained.includes[..i]
    {
      assert retained.includes[..i + 1] == retained.includes[..i] + [retained.includes[i]];
      retCols := retCols + {retained.includes[i]};
    }
    assert retained.includes[..|retained.includes|] == retained.includes;
    assert retCols == Columns(retained);
    for i := 0 to |candidate.includes|
      invariant forall j :: 0 <= j < i ==> candidate.includes[j] in Columns(retained)
    {
      if candidate.includes[i] !in retCols {
        MissingInclude(candidate, retained, candidate.includes[i]);
        return false, false;
      }
    }
    var sameKeys := |candidate.keys| == |retained.keys|;
    if !sameKeys && (candidate.accessMethod != "btree" || candidate.expressions != "") {
      return false, false;
    }
    var sameIncludes := SameColumnSet(candidate.includes, retained.includes);
    exact := sameKeys && sameIncludes;
    if exact && !retained.isUnique && !retained.isPrimary {
      if candidate.scans > retained.scans ||
         (candidate.scans == retained.scans && StringLess(candidate.name, retained.name)) {
        return false, false;
      }
    }
    return exact, true;
  }

  ghost predicate GroupReport(g: seq<Index>, issues: seq<Issue>)
  {
    && (forall i :: 0 <= i < |issues| ==> IssueFor(g, issues[i]))
    && OneIssueEach(issues)
    && (forall c :: c in g && CoveredByKept(g, c) ==> Reports(issues, c))
  }

  // What the second pass relies on: the table's indexes in order of preference, told apart
  // by name, and the names of the redundant ones.
  ghost predicate Marked(g: seq<Index>, indexes: seq<Index>, redundant: set<string>)
  {
    && multiset(g) == multiset(indexes) && NamesDistinct(indexes) && Sorted(indexes, Preferred)
    && forall i :: 0 <= i < |indexes| ==> (indexes[i].name in redundant <==> RedundantIn(g, indexes[i]))
  }

  // The second pass on one index.
  method ReportOne(ghost g: seq<Index>, indexes: seq<Index>, redundant: set<string>, candidate: Index,
                   issues0: seq<Issue>, ghost done: seq<Index>)
    returns (issues: seq<Issue>)
    requires candidate in indexes
    ensures Marked(g, indexes, redundant) && candidate !in done && ReportOn(g, issues0, done) ==>
      ReportOn(g, issues, done + [candidate])
  {
    ghost var ready := Marked(g, indexes, redundant) && candidate !in done && ReportOn(g, issues0, done);
    issues := issues0;
    if candidate.name !in redundant {
      if ready {
        NotCovered(g, candidate);
        SkipIndex(g, issues, candidate, done);
      }
      return;
    }
    var issue := FindRetained(g, indexes, redundant, candidate);
    if issue.Some? {
      if ready {
        AddIssue(g, issues, issue.value, done);
      }
      issues := issues + [issue.value];
    } else if ready {
      SkipIndex(g, issues, candidate, done);
    }
  }

  // The second pass.
  method ReportMarked(ghost g: seq<Index>, indexes: seq<Index>, redundant: set<string>) returns (issues: seq<Issue>)
    ensures Marked(g, indexes, redundant) ==> ReportOn(g, issues, indexes)
  {
    ghost var ready := Marked(g, indexes, redundant);
    issues := [];
    ghost var done: seq<Index> := [];
    for i := 0 to |indexes|
      invariant done == indexes[..i]
      invariant ready ==> ReportOn(g, issues, done)
    {
      assert ready ==> indexes[i] !in done;
      issues := ReportOne(g, indexes, redundant, indexes[i], issues, done);
      done := done + [indexes[i]];
    }
    assert done == indexes;
  }

  method ReportTable(g: seq<Index>) returns (issues: seq<Issue>)
    ensures NamesDistinct(g) ==> GroupReport(g, issues)
  {
    var indexes := Sort(g, Preferred);
    PreferredIsOrder();
    SortSorts(g, Preferred);
    SamePopulation(g, indexes);
    if NamesDistinct(g) {
      SortedNamesDistinct(g, indexes);
    }
    var redundant: set<string> := MarkRedundant(g, indexes);
    issues := ReportMarked(g, indexes, redundant);
  }

  lemma NotCovered(g: seq<Index>, candidate: Index)
    requires !RedundantIn(g, candidate)
    ensures !CoveredByKept(g, candidate)
  {
  }

  // The report on the first few indexes of a table.
  ghost predicate ReportOn(g: seq<Index>, issues: seq<Issue>, done: seq<Index>)
  {
    && (forall j :: 0 <= j < |issues| ==> IssueFor(g, issues[j]) && issues[j].index in done)
    && OneIssueEach(issues)
    && (forall c :: c in done && CoveredByKept(g, c) ==> Reports(issues, c))
  }

  lemma AddIssue(g: seq<Index>, issues: seq<Issue>, issue: Issue, done: seq<Index>)
    requires ReportOn(g, issues, done) && issue.index !in done
    requires IssueFor(g, issue)
    ensures ReportOn(g, issues + [issue], done + [issue.index])
  {
    forall j | 0 <= j < |issues| + 1
      ensures IssueFor(g, (issues + [issue])[j]) && (issues + [issue])[j].index in done + [issue.index]
    {
      assert (issues + [issue])[j] == if j < |issues| then issues[j] else issue;
    }
    forall c | c in done + [issue.index] && CoveredByKept(g, c)
      ensures Reports(issues + [issue], c)
    {
      AppendReports(issues, [issue], c);
      assert [issue][0].index == issue.index;
    }
  }

  lemma SkipIndex(g: seq<Index>, issues: seq<Issue>, index: Index, done: seq<Index>)
    requires ReportOn(g, issues, done) && !CoveredByKept(g, index)
    ensures ReportOn(g, issues, done + [index])
  {
  }

  ghost predicate CoveredBy(g: seq<Index>, candidate: Index, r: Index)
  {
    Kept(g, r) && Drops(candidate, r)
  }

  lemma NoneCovers(g: seq<Index>, indexes: seq<Index>, candidate: Index)
    requires multiset(g) == multiset(indexes)
    requires forall k :: 0 <= k < |indexes| ==> !CoveredBy(g, candidate, indexes[k])
    ensures !CoveredByKept(g, candidate)
  {
    SamePopulation(g, indexes);
    forall r | Kept(g, r)
      ensures !CoveredBy(g, candidate, r)
    {
      assert r in indexes;
    }
  }

  lemma FirstIsIssue(g: seq<Index>, indexes: seq<Index>, candidate: Index, j: nat, exact: bool)
    requires j < |indexes| && multiset(g) == multiset(indexes) && candidate in g
    requires NamesDistinct(indexes) && Sorted(indexes, Preferred)
    requires !RedundantIn(g, indexes[j]) && Drops(candidate, indexes[j]) && (exact <==> Exact(candidate, indexes[j]))
    requires forall k :: 0 <= k < j ==> !CoveredBy(g, candidate, indexes[k])
    ensures IssueFor(g, Issue(candidate, indexes[j], exact))
  {
    SamePopulation(g, indexes);
    assert indexes[j] in indexes;
    FirstKeptIsPreferred(g, indexes, candidate, j);
  }

  // The second pass for one redundant index: the first kept index that covers it.
  method FindRetained(ghost g: seq<Index>, indexes: seq<Index>, redundant: set<string>, candidate: Index)
    returns (issue: Option<Issue>)
    requires candidate in indexes
    ensures issue.Some? ==> issue.value.index == candidate
    ensures Marked(g, indexes, redundant) ==>
      if issue.Some? then IssueFor(g, issue.value) else !CoveredByKept(g, candidate)
  {
    ghost var ready := Marked(g, indexes, redundant);
    for j := 0 to |indexes|
      invariant ready ==> forall k :: 0 <= k < j ==> !CoveredBy(g, candidate, indexes[k])
    {
      var retained := indexes[j];
      if candidate.name == retained.name || retained.name in redundant {
        continue;
      }
      var exact, ok := CheckRedundant(candidate, retained);
      if !ok {
        continue;
      }
      if ready {
        SamePopulation(g, indexes);
        FirstIsIssue(g, indexes, candidate, j, exact);
      }
      return Some(Issue(candidate, retained, exact));
    }
    if ready {
      NoneCovers(g, indexes, candidate);
    }
    return None;
  }

  lemma FirstKeptIsPreferred(g: seq<Index>, indexes: seq<Index>, candidate: Index, j: nat)
    requires j < |indexes| && multiset(g) == multiset(indexes)
    requires NamesDistinct(indexes) && Sorted(indexes, Preferred)
    requires Kept(g, indexes[j]) && Drops(candidate, indexes[j])
    requires forall k :: 0 <= k < j ==> !CoveredBy(g, candidate, indexes[k])
    ensures forall r :: Kept(g, r) && Drops(candidate, r) && r != indexes[j] ==> Preferred(indexes[j], r)
  {
    SamePopulation(g, indexes);
    forall r | Kept(g, r) && Drops(candidate, r) && r != indexes[j]
      ensures Preferred(indexes[j], r)
    {
      var k :| 0 <= k < |indexes| && indexes[k] == r;
      assert j < k;
      PreferredTotal(indexes[j], r);
    }
  }

  lemma SortedNamesDistinct(g: seq<Index>, indexes: seq<Index>)
    requires NamesDistinct(g) && multiset(g) == multiset(indexes)
    ensures NamesDistinct(indexes)
  {
    SamePopulation(g, indexes);
    RearrangedStaysDistinct(g, indexes);
    forall i, j | 0 <= i < j < |indexes|
      ensures indexes[i].name != indexes[j].name
    {
      assert indexes[i] in g && indexes[j] in g;
      var a :| 0 <= a < |g| && g[a] == indexes[i];
      var b :| 0 <= b < |g| && g[b] == indexes[j];
      assert a != b;
    }
  }

  // The first pass on one index.
  method FindOther(g: seq<Index>, indexes: seq<Index>, candidate: Index) returns (found: bool)
    requires multiset(g) == multiset(indexes)
    ensures found <==> RedundantIn(g, candidate)
  {
    SamePopulation(g, indexes);
    for j := 0 to |indexes|
      invariant forall k :: 0 <= k < j ==> !Drops(candidate, indexes[k])
    {
      var other := indexes[j];
      if candidate.name == other.name {
        continue;
      }
      var _, ok := CheckRedundant(candidate, other);
      if ok {
        assert other in g && Drops(candidate, other);
        return true;
      }
    }
    forall other | other in g
      ensures !Drops(candidate, other)
    {
      assert other in indexes;
    }
    return false;
  }

  // The first pass: the names of the indexes some other index makes redundant.
  method MarkRedundant(g: seq<Index>, indexes: seq<Index>) returns (redundant: set<string>)
    requires multiset(g) == multiset(indexes)
    ensures forall name :: name in redundant <==> exists i :: 0 <= i < |indexes| && indexes[i].name == name && RedundantIn(g, indexes[i])
  {
    redundant := {};
    for i := 0 to |indexes|
      invariant forall name :: name in redundant <==> exists k :: 0 <= k < i && indexes[k].name == name && RedundantIn(g, indexes[k])
    {
      var found := FindOther(g, indexes, indexes[i]);
      if found {
        redundant := redundant + {indexes[i].name};
      }
    }
  }

  // The report on the tables that are not in left any more.
  ghost predicate PartialReport(stats: seq<Index>, issues: seq<Issue>, left: set<string>)
  {
    && (forall i :: 0 <= i < |issues| ==>
          TableKey(issues[i].index) !in left && IssueFor(Group(stats, TableKey(issues[i].index)), issues[i]))
    && OneIssueEach(issues)
    && (forall c :: c in stats && c.keys != [] && TableKey(c) !in left && CoveredByKept(Group(stats, TableKey(c)), c) ==>
          Reports(issues, c))
  }

  lemma AddTable(stats: seq<Index>, issues: seq<Issue>, left: set<string>, key: string, more: seq<Issue>)
    requires PartialReport(stats, issues, left) && key in left
    requires GroupReport(Group(stats, key), more)
    ensures PartialReport(stats, issues + more, left - {key})
  {
    forall i | 0 <= i < |more|
      ensures TableKey(more[i].index) == key
    {
      assert IssueFor(Group(stats, key), more[i]);
    }
    AppendKeepsOneEach(issues, more, key);
    forall c | c in stats && c.keys != [] && TableKey(c) !in left - {key} && CoveredByKept(Group(stats, TableKey(c)), c)
      ensures Reports(issues + more, c)
    {
      assert TableKey(c) == key ==> Reports(more, c);
      AppendReports(issues, more, c);
    }
  }

  lemma AppendKeepsOneEach(issues: seq<Issue>, more: seq<Issue>, key: string)
    requires OneIssueEach(issues) && OneIssueEach(more)
    requires forall i :: 0 <= i < |issues| ==> TableKey(issues[i].index) != key
    requires forall i :: 0 <= i < |more| ==> TableKey(more[i].index) == key
    ensures OneIssueEach(issues + more)
  {
  }

  lemma AppendReports(issues: seq<Issue>, more: seq<Issue>, c: Index)
    ensures Reports(issues + more, c) <==> Reports(issues, c) || Reports(more, c)
  {
    var all := issues + more;
    assert forall i :: 0 <= i < |issues| ==> all[i] == issues[i];
    assert forall i :: 0 <= i < |more| ==> all[|issues| + i] == more[i];
  }

  method DetectDuplicateIndexes(stats: seq<Index>) returns (issues: seq<Issue>)
    ensures NamesDistinctPerTable(stats) ==> ReportOf(stats, issues)
  {
    var tableIndexes: map<string, seq<Index>> := GroupByTable(stats);
    issues := [];
    var left := tableIndexes.Keys;
    while left != {}
      invariant left <= tableIndexes.Keys
      invariant NamesDistinctPerTable(stats) ==> PartialReport(stats, issues, left)
      decreases |left|
    {
      var key :| key in left;
      var more := ReportTable(tableIndexes[key]);
      if NamesDistinctPerTable(stats) {
        GroupNamesDistinct(stats, key);
        AddTable(stats, issues, left, key, more);
      }
      issues := issues + more;
      left := left - {key};
    }
  }

  method GroupByTable(stats: seq<Index>) returns (tables: map<string, seq<Index>>)
    ensures forall key :: key in tables ==> tables[key] == Group(stats, key)
    ensures forall x :: x in stats && x.keys != [] ==> TableKey(x) in tables
  {
    tables := map[];
    for i := 0 to |stats|
      invariant forall key :: key in tables ==> tables[key] == Group(stats[..i], key)
      invariant forall key :: key !in tables ==> Group(stats[..i], key) == []
    {
      assert stats[..i + 1][..i] == stats[..i];
      var stat := stats[i];
      if |stat.keys| == 0 {
        continue;
      }
      var key := TableKey(stat);
      tables := tables[key := (if key in tables then tables[key] else []) + [stat]];
    }
    assert stats[..|stats|] == stats;
    forall x | x in stats && x.keys != []
      ensures TableKey(x) in tables
    {
      assert x in Group(stats, TableKey(x));
    }
  }
}
