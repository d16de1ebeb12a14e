/** Index recommendations merged from the proposals of many queries
    (internal/analyzer/index_advice.go). */
module IndexAdvice {
  import opened Common
  import opened Ordering
  import opened Sums

  // Why no index is proposed for a scan; Kept when one is.
  datatype SkipReason = Kept | NoFilter | UnusableFilter | Unreadable | SmallTable | Unselective | AlreadyIndexed | NotPreferred

  // One sequential scan of a planned query, with the index columns proposed for it and
  // whether hypopg says the planner would use that index.
  datatype Scan = Scan(
    schema: string,
    table: string,
    filter: string,
    planRows: real,
    columns: seq<string>,
    skipReason: SkipReason,
    usesIndex: Option<bool>,
    estimatedRows: int,
    estimatedBytes: int)

  datatype Query = Query(id: int, text: string, timeShare: real, explainedAt: int, failed: bool, scans: seq<Scan>)

  datatype Proposal = Proposal(scan: Scan, query: Query)

  // RecommendedFor: one query an index would serve.
  datatype Served = Served(queryId: int, text: string, timeShare: real, filter: string, usesIndex: Option<bool>)

  datatype Recommendation = Recommendation(
    schema: string,
    table: string,
    columns: seq<string>,
    queries: seq<Served>,
    timeShare: real,
    estimatedRows: int,
    estimatedBytes: int,
    validated: bool)

  // HasPrefix: prefix is the leading part of the key columns.
  method HasPrefix(columns: seq<string>, prefix: seq<string>) returns (yes: bool)
    ensures yes <==> prefix <= columns
  {
    if |prefix| > |columns| {
      return false;
    }
    for i := 0 to |prefix|
      invariant columns[..i] == prefix[..i]
    {
      if columns[i] != prefix[i] {
        return false;
      }
    }
    assert prefix[..|prefix|] == prefix;
    return true;
  }

  predicate Survives(s: Scan)
  {
    s.columns != [] && s.skipReason.Kept?
  }

  function KeyOf(s: Scan): string
  {
    JoinKey(s.schema, '.', s.table)
  }

  function RecKey(r: Recommendation): string
  {
    JoinKey(r.schema, '.', r.table)
  }

  ghost function Proposals(report: seq<Query>): set<Proposal>
  {
    set q, s | q in report && s in q.scans && Survives(s) :: Proposal(s, q)
  }

  function Entry(p: Proposal): Served
  {
    Served(p.query.id, p.query.text, p.query.timeShare, p.scan.filter, p.scan.usesIndex)
  }

  function ShareOf(e: Served): real
  {
    e.timeShare
  }

  // ----- What a list of recommendations says about a set of proposals -----

  // p would be served by r: same table, and r's index starts with its columns.
  predicate ServedBy(p: Proposal, r: Recommendation)
  {
    KeyOf(p.scan) == RecKey(r) && p.scan.columns <= r.columns
  }

  predicate FoundedOn(r: Recommendation, p: Proposal)
  {
    && r.schema == p.scan.schema && r.table == p.scan.table && r.columns == p.scan.columns
    && r.estimatedRows == p.scan.estimatedRows && r.estimatedBytes == p.scan.estimatedBytes
  }

  ghost predicate OncePerQuery(entries: seq<Served>)
  {
    && Distinct(entries)
    && forall e, e' :: e in entries && e' in entries && e.queryId == e'.queryId ==> e == e'
  }

  ghost predicate ComesFrom(props: set<Proposal>, r: Recommendation, e: Served)
  {
    exists p :: p in props && ServedBy(p, r) && e == Entry(p)
  }

  // The index is one some scan asked for; it lists each query once, for a scan it would
  // serve; its share is theirs together, and it counts as validated on their evidence.
  ghost predicate WellFounded(props: set<Proposal>, r: Recommendation)
  {
    && (exists p :: p in props && FoundedOn(r, p))
    && (forall e :: e in r.queries ==> ComesFrom(props, r, e))
    && OncePerQuery(r.queries)
    && r.timeShare == Sum(r.queries, ShareOf)
    && (r.validated <==> exists e :: e in r.queries && e.usesIndex == Some(true))
  }

  predicate Lists(r: Recommendation, queryId: int)
  {
    exists i :: 0 <= i < |r.queries| && r.queries[i].queryId == queryId
  }

  // No recommended index starts with the columns of another on its table.
  ghost predicate Apart(recs: seq<Recommendation>)
  {
    && Distinct(recs)
    && forall r, r' :: r in recs && r' in recs && r != r' && RecKey(r) == RecKey(r') ==> !(r.columns <= r'.columns)
  }

  ghost predicate Covered(recs: seq<Recommendation>, p: Proposal)
  {
    exists r :: r in recs && ServedBy(p, r) && Lists(r, p.query.id)
  }

  ghost predicate Advice(props: set<Proposal>, recs: seq<Recommendation>)
  {
    AllFounded(props, recs) && Apart(recs) && AllCovered(props, recs)
  }

  ghost predicate AllFounded(props: set<Proposal>, recs: seq<Recommendation>)
  {
    forall r {:trigger WellFounded(props, r)} :: r in recs ==> WellFounded(props, r)
  }

  ghost predicate AllCovered(props: set<Proposal>, recs: seq<Recommendation>)
  {
    forall p {:trigger Covered(recs, p)} :: p in props ==> Covered(recs, p)
  }

  // ----- What that means -----

  ghost predicate Recommended(recs: seq<Recommendation>, key: string, columns: seq<string>)
  {
    exists r :: r in recs && RecKey(r) == key && r.columns == columns
  }

  // Some scan of this table asked for these columns, and none for more columns after them.
  ghost predicate PrefixMaximal(props: set<Proposal>, key: string, columns: seq<string>)
  {
    && (exists p :: p in props && KeyOf(p.scan) == key && p.scan.columns == columns)
    && (forall p :: p in props && KeyOf(p.scan) == key && columns <= p.scan.columns ==> p.scan.columns == columns)
  }

  lemma NoneExtends(props: set<Proposal>, recs: seq<Recommendation>, r: Recommendation, p: Proposal)
    requires Advice(props, recs) && r in recs
    requires p in props && KeyOf(p.scan) == RecKey(r) && r.columns <= p.scan.columns
    ensures p.scan.columns == r.columns
  {
    assert Covered(recs, p);
    var r' :| r' in recs && ServedBy(p, r') && Lists(r', p.query.id);
    assert r.columns <= r'.columns;
    assert r == r';
  }

  lemma MaximalIsRecommended(props: set<Proposal>, recs: seq<Recommendation>, key: string, columns: seq<string>)
    requires Advice(props, recs) && PrefixMaximal(props, key, columns)
    ensures Recommended(recs, key, columns)
  {
    var p :| p in props && KeyOf(p.scan) == key && p.scan.columns == columns;
    assert Covered(recs, p);
    var r :| r in recs && ServedBy(p, r) && Lists(r, p.query.id);
    assert WellFounded(props, r);
    var founder :| founder in props && FoundedOn(r, founder);
    assert founder.scan.columns == columns;
  }

  // Merging keeps exactly the prefix-maximal proposals of each table.
  lemma RecommendedExactly(props: set<Proposal>, recs: seq<Recommendation>, key: string, columns: seq<string>)
    requires Advice(props, recs)
    ensures Recommended(recs, key, columns) <==> PrefixMaximal(props, key, columns)
  {
    if Recommended(recs, key, columns) {
      var r :| r in recs && RecKey(r) == key && r.columns == columns;
      assert WellFounded(props, r);
      forall p | p in props && KeyOf(p.scan) == key && columns <= p.scan.columns
        ensures p.scan.columns == columns
      {
        NoneExtends(props, recs, r, p);
      }
    } else if PrefixMaximal(props, key, columns) {
      MaximalIsRecommended(props, recs, key, columns);
    }
  }

  // A scan of the report for which an index on these columns was proposed and kept.
  ghost predicate Asked(report: seq<Query>, key: string, q: Query, s: Scan)
  {
    q in report && s in q.scans && s.columns != [] && s.skipReason == Kept && s.schema + "." + s.table == key
  }

  // The scan and its query as a recommendation lists them.
  predicate ListedAs(q: Query, s: Scan, e: Served)
  {
    e.queryId == q.id && e.text == q.text && e.timeShare == q.timeShare && e.filter == s.filter && e.usesIndex == s.usesIndex
  }

  // A recommendation in the report's own terms: some kept scan asked for exactly this index;
  // each query it lists has a kept scan of this table that the index serves, with that
  // scan's filter and validation; it counts as validated if one of them is.
  lemma RecommendationMeans(report: seq<Query>, recs: seq<Recommendation>, r: Recommendation)
    requires Advice(Proposals(report), recs) && r in recs
    ensures exists q, s :: Asked(report, r.schema + "." + r.table, q, s) && s.columns == r.columns
                           && s.estimatedRows == r.estimatedRows && s.estimatedBytes == r.estimatedBytes
    ensures forall e :: e in r.queries ==>
      exists q, s :: Asked(report, r.schema + "." + r.table, q, s) && s.columns <= r.columns && ListedAs(q, s, e)
    ensures forall e, e' :: e in r.queries && e' in r.queries && e.queryId == e'.queryId ==> e == e'
    ensures r.validated <==> exists e :: e in r.queries && e.usesIndex == Some(true)
  {
    var key := r.schema + "." + r.table;
    assert WellFounded(Proposals(report), r);
    var p :| p in Proposals(report) && FoundedOn(r, p);
    assert Asked(report, key, p.query, p.scan);
    forall e | e in r.queries
      ensures exists q, s :: Asked(report, key, q, s) && s.columns <= r.columns && ListedAs(q, s, e)
    {
      assert ComesFrom(Proposals(report), r, e);
      var p :| p in Proposals(report) && ServedBy(p, r) && e == Entry(p);
      assert Asked(report, key, p.query, p.scan) && ListedAs(p.query, p.scan, e);
    }
  }

  // And the other way: every kept scan is served by a recommendation that lists its query.
  lemma AskedIsServed(report: seq<Query>, recs: seq<Recommendation>, key: string, q: Query, s: Scan)
    requires Advice(Proposals(report), recs) && Asked(report, key, q, s)
    ensures exists r, e :: r in recs && r.schema + "." + r.table == key && s.columns <= r.columns && e in r.queries && e.queryId == q.id
  {
    var p := Proposal(s, q);
    assert p in Proposals(report);
    assert Covered(recs, p);
    var r :| r in recs && ServedBy(p, r) && Lists(r, q.id);
    var i :| 0 <= i < |r.queries| && r.queries[i].queryId == q.id;
    assert r.queries[i] in r.queries;
  }

  // Tables are told apart by schema and name as long as no schema name has a dot in it.
  lemma ServesItsTable(props: set<Proposal>, recs: seq<Recommendation>, r: Recommendation, p: Proposal)
    requires Advice(props, recs) && r in recs && p in props && ServedBy(p, r)
    requires forall q :: q in props ==> '.' !in q.scan.schema
    ensures p.scan.schema == r.schema && p.scan.table == r.table
  {
    assert WellFounded(props, r);
    var founder :| founder in props && FoundedOn(r, founder);
    JoinKeyInjective(p.scan.schema, p.scan.table, r.schema, r.table, '.');
  }

  function QueryShare(q: Query): real
  {
    q.timeShare
  }

  // Entries for different queries of a report claim no more time than the whole report.
  lemma {:induction false} ListedWithin(entries: seq<Served>, report: seq<Query>)
    requires OncePerQuery(entries)
    requires forall e :: e in entries ==> exists q :: q in report && q.id == e.queryId && q.timeShare == e.timeShare
    requires forall q :: q in report ==> q.timeShare >= 0.0
    ensures 0.0 <= Sum(entries, ShareOf) <= Sum(report, QueryShare)
  {
    if report == [] {
      assert forall i :: 0 <= i < |entries| ==> entries[i] in entries;
    } else {
      var n := |report| - 1;
      var init, q := report[..n], report[n];
      assert forall x :: x in report <==> x in init || x == q;
      if i :| 0 <= i < |entries| && entries[i].queryId == q.id && entries[i].timeShare == q.timeShare {
        var rest := entries[..i] + entries[i + 1..];
        SumRemove(entries, i, ShareOf);
        forall e | e in rest
          ensures e in entries && e.queryId != q.id
        {
          RestIsOther(entries, i, e);
        }
        RestDistinct(entries, i);
        ListedWithin(rest, init);
      } else {
        ListedWithin(entries, init);
      }
    }
  }

  lemma RestIsOther(entries: seq<Served>, i: nat, e: Served)
    requires OncePerQuery(entries) && i < |entries| && e in entries[..i] + entries[i + 1..]
    ensures e in entries && e.queryId != entries[i].queryId
  {
  }

  lemma RestDistinct(entries: seq<Served>, i: nat)
    requires OncePerQuery(entries) && i < |entries|
    ensures OncePerQuery(entries[..i] + entries[i + 1..])
  {
  }

  // Every time share is a share: between nothing and everything the report accounts for.
  lemma TimeShareBounded(report: seq<Query>, recs: seq<Recommendation>, r: Recommendation)
    requires Advice(Proposals(report), recs) && r in recs
    requires (forall q :: q in report ==> q.timeShare >= 0.0) && Sum(report, QueryShare) <= 1.0
    ensures 0.0 <= r.timeShare <= 1.0
  {
    assert WellFounded(Proposals(report), r);
    forall e | e in r.queries
      ensures exists q :: q in report && q.id == e.queryId && q.timeShare == e.timeShare
    {
      assert ComesFrom(Proposals(report), r, e);
      var p :| p in Proposals(report) && ServedBy(p, r) && e == Entry(p);
      assert p.query in report;
    }
    ListedWithin(r.queries, report);
  }

  // ----- Adding one proposal -----

  lemma FoundedStays(props: set<Proposal>, more: set<Proposal>, r: Recommendation)
    requires WellFounded(props, r) && props <= more
    ensures WellFounded(more, r)
  {
  }

  // r with one more query.
  function WithQuery(r: Recommendation, p: Proposal): Recommendation
  {
    r.(queries := r.queries + [Entry(p)],
       timeShare := r.timeShare + p.query.timeShare,
       validated := r.validated || p.scan.usesIndex == Some(true))
  }

  lemma QueryAdded(props: set<Proposal>, r: Recommendation, p: Proposal)
    requires WellFounded(props, r) && p in props && ServedBy(p, r) && !Lists(r, p.query.id)
    ensures WellFounded(props, WithQuery(r, p))
  {
    var r' := WithQuery(r, p);
    SumSnoc(r.queries, Entry(p), ShareOf);
    assert forall e :: e in r'.queries <==> e in r.queries || e == Entry(p);
    assert forall e :: e in r.queries ==> e.queryId != p.query.id;
    forall e | e in r'.queries
      ensures ComesFrom(props, r', e)
    {
      if e in r.queries {
        assert ComesFrom(props, r, e);
        var q :| q in props && ServedBy(q, r) && e == Entry(q);
        assert ServedBy(q, r');
      } else {
        assert ServedBy(p, r');
      }
    }
    assert Entry(p) in r'.queries;
  }

  function Founded(p: Proposal): Recommendation
  {
    Recommendation(p.scan.schema, p.scan.table, p.scan.columns, [], 0.0, p.scan.estimatedRows, p.scan.estimatedBytes, false)
  }

  // recs with entry i exchanged for one of the same columns that lists at least as much.
  lemma Exchanged(recs: seq<Recommendation>, i: nat, r: Recommendation)
    requires Apart(recs) && i < |recs|
    requires RecKey(r) == RecKey(recs[i]) && r.columns == recs[i].columns
    requires forall id :: Lists(recs[i], id) ==> Lists(r, id)
    ensures Apart(recs[i := r])
    ensures forall p :: Covered(recs, p) ==> Covered(recs[i := r], p)
    ensures forall x :: x in recs[i := r] ==> x in recs || x == r
  {
    var recs' := recs[i := r];
    assert recs'[i] == r && recs[i] in recs;
    forall a, b | 0 <= a < |recs'| && 0 <= b < |recs'| && a != b && RecKey(recs'[a]) == RecKey(recs'[b])
      ensures !(recs'[a].columns <= recs'[b].columns)
    {
      assert recs[a] in recs && recs[b] in recs && recs[a] != recs[b];
    }
    forall p | Covered(recs, p)
      ensures Covered(recs', p)
    {
      var x :| x in recs && ServedBy(p, x) && Lists(x, p.query.id);
      var k :| 0 <= k < |recs| && recs[k] == x;
      assert recs'[k] in recs' && ServedBy(p, recs'[k]) && Lists(recs'[k], p.query.id);
    }
  }

  function Listing(r: Recommendation, p: Proposal): Recommendation
  {
    if Lists(r, p.query.id) then r else WithQuery(r, p)
  }

  lemma ListingLists(r: Recommendation, p: Proposal)
    ensures Lists(Listing(r, p), p.query.id)
    ensures forall id :: Lists(r, id) ==> Lists(Listing(r, p), id)
  {
    if !Lists(r, p.query.id) {
      var r' := WithQuery(r, p);
      assert r'.queries[|r.queries|].queryId == p.query.id;
      assert forall i :: 0 <= i < |r.queries| ==> r'.queries[i] == r.queries[i];
    }
  }

  lemma ListingFounded(props: set<Proposal>, r: Recommendation, p: Proposal)
    requires WellFounded(props, r) && p in props && ServedBy(p, r)
    ensures WellFounded(props, Listing(r, p))
  {
    if !Lists(r, p.query.id) {
      QueryAdded(props, r, p);
    }
  }

  lemma AllFoundedStays(props: set<Proposal>, more: set<Proposal>, recs: seq<Recommendation>)
    requires AllFounded(props, recs) && props <= more
    ensures AllFounded(more, recs)
  {
    forall r | r in recs
      ensures WellFounded(more, r)
    {
      assert WellFounded(props, r);
      FoundedStays(props, more, r);
    }
  }

  lemma AllFoundedWith(props: set<Proposal>, recs: seq<Recommendation>, r: Recommendation, recs': seq<Recommendation>)
    requires AllFounded(props, recs) && WellFounded(props, r)
    requires forall x :: x in recs' ==> x in recs || x == r
    ensures AllFounded(props, recs')
  {
  }

  lemma AllCoveredWith(props: set<Proposal>, recs: seq<Recommendation>, recs': seq<Recommendation>, p: Proposal)
    requires AllCovered(props, recs)
    requires forall q :: Covered(recs, q) ==> Covered(recs', q)
    requires Covered(recs', p)
    ensures AllCovered(props + {p}, recs')
  {
  }

  // A proposal an index already on the list serves.
  lemma Merged(props: set<Proposal>, recs: seq<Recommendation>, p: Proposal, i: nat)
    requires Advice(props, recs) && i < |recs| && ServedBy(p, recs[i])
    ensures Advice(props + {p}, recs[i := Listing(recs[i], p)])
  {
    var all, r := props + {p}, Listing(recs[i], p);
    var recs' := recs[i := r];
    AllFoundedStays(props, all, recs);
    ListingLists(recs[i], p);
    Exchanged(recs, i, r);
    assert WellFounded(all, r) by {
      assert recs[i] in recs && WellFounded(all, recs[i]);
      ListingFounded(all, recs[i], p);
    }
    AllFoundedWith(all, recs, r, recs');
    assert Covered(recs', p) by {
      assert recs'[i] in recs' && ServedBy(p, recs'[i]);
    }
    AllCoveredWith(props, recs, recs', p);
  }

  lemma NewFounded(props: set<Proposal>, p: Proposal)
    requires p in props
    ensures WellFounded(props, WithQuery(Founded(p), p))
  {
    assert FoundedOn(Founded(p), p);
    assert WellFounded(props, Founded(p));
    QueryAdded(props, Founded(p), p);
  }

  lemma ApartWith(recs: seq<Recommendation>, r: Recommendation)
    requires Apart(recs)
    requires forall x :: x in recs ==> !(x.columns <= r.columns) && !(r.columns <= x.columns)
    ensures Apart(recs + [r])
    ensures forall q :: Covered(recs, q) ==> Covered(recs + [r], q)
  {
  }

  // A proposal nothing on the list serves, when longer ones have all been seen.
  lemma FoundsIndex(props: set<Proposal>, recs: seq<Recommendation>, p: Proposal)
    requires Advice(props, recs)
    requires forall r :: r in recs ==> !ServedBy(p, r) && RecKey(r) == KeyOf(p.scan) && |r.columns| >= |p.scan.columns|
    ensures Advice(props + {p}, recs + [WithQuery(Founded(p), p)])
  {
    var all, r := props + {p}, WithQuery(Founded(p), p);
    var recs' := recs + [r];
    forall x | x in recs
      ensures !(x.columns <= r.columns) && !(r.columns <= x.columns)
    {
      assert !ServedBy(p, x);
    }
    ApartWith(recs, r);
    AllFoundedStays(props, all, recs);
    NewFounded(all, p);
    AllFoundedWith(all, recs, r, recs');
    assert Covered(recs', p) by {
      assert recs'[|recs|] == r && r.queries[0].queryId == p.query.id;
      assert r in recs' && ServedBy(p, r) && Lists(r, p.query.id);
    }
    AllCoveredWith(props, recs, recs', p);
  }

  // ----- One table -----

  predicate LongerFirst(p: Proposal, q: Proposal)
  {
    |p.scan.columns| > |q.scan.columns|
  }

  predicate BusierEntry(e: Served, e': Served)
  {
    e.timeShare > e'.timeShare
  }

  predicate BusierRec(r: Recommendation, r': Recommendation)
  {
    r.timeShare > r'.timeShare
  }

  ghost function Elements<T>(s: seq<T>): set<T>
  {
    set x | x in s
  }

  method HasQuery(entries: seq<Served>, id: int) returns (yes: bool)
    ensures yes <==> exists i :: 0 <= i < |entries| && entries[i].queryId == id
  {
    for i := 0 to |entries|
      invariant forall j :: 0 <= j < i ==> entries[j].queryId != id
    {
      if entries[i].queryId == id {
        return true;
      }
    }
    return false;
  }

  // The first recommendation whose columns start with the proposal's.
  method FindTarget(recs: seq<Recommendation>, p: Proposal) returns (target: int)
    requires forall r :: r in recs ==> RecKey(r) == KeyOf(p.scan)
    ensures -1 <= target < |recs|
    ensures target >= 0 ==> ServedBy(p, recs[target])
    ensures target < 0 ==> forall r :: r in recs ==> !ServedBy(p, r)
  {
    for i := 0 to |recs|
      invariant forall j :: 0 <= j < i ==> !ServedBy(p, recs[j])
    {
      assert recs[i] in recs;
      var covers := HasPrefix(recs[i].columns, p.scan.columns);
      if covers {
        return i;
      }
    }
    return -1;
  }

  // Recommendations for one table, each at least as long as this.
  ghost predicate OnTable(recs: seq<Recommendation>, key: string, length: nat)
  {
    forall r :: r in recs ==> RecKey(r) == key && |r.columns| >= length
  }

  // One proposal, merged into the index that serves it or founding a new one.
  method AddProposal(recs: seq<Recommendation>, p: Proposal, ghost props: set<Proposal>) returns (tableRecs: seq<Recommendation>)
    requires Advice(props, recs) && OnTable(recs, KeyOf(p.scan), |p.scan.columns|)
    ensures Advice(props + {p}, tableRecs) && OnTable(tableRecs, KeyOf(p.scan), |p.scan.columns|)
  {
    tableRecs := recs;
    var target := FindTarget(recs, p);
    if target < 0 {
      FoundsIndex(props, recs, p);
      tableRecs := recs + [Founded(p)];
      target := |recs|;
    } else {
      Merged(props, recs, p, target);
    }
    assert tableRecs[target] in tableRecs;
    var r := tableRecs[target];
    var listed := HasQuery(r.queries, p.query.id);
    if listed {
      assert tableRecs[target := r] == tableRecs;
      return;
    }
    r := r.(queries := r.queries + [Entry(p)], timeShare := r.timeShare + p.query.timeShare);
    if p.scan.usesIndex == Some(true) {
      r := r.(validated := true);
    }
    assert r == WithQuery(tableRecs[target], p);
    tableRecs := tableRecs[target := r];
    assert target == |recs| ==> tableRecs == recs + [WithQuery(Founded(p), p)];
  }

  method MergeOrdered(ordered: seq<Proposal>, ghost key: string) returns (tableRecs: seq<Recommendation>)
    requires Sorted(ordered, LongerFirst)
    requires forall i :: 0 <= i < |ordered| ==> KeyOf(ordered[i].scan) == key
    ensures Advice(Elements(ordered), tableRecs) && OnTable(tableRecs, key, 0)
  {
    tableRecs := [];
    ghost var done: set<Proposal> := {};
    for i := 0 to |ordered|
      invariant done == Elements(ordered[..i])
      invariant Advice(done, tableRecs)
      invariant OnTable(tableRecs, key, if i < |ordered| then |ordered[i].scan.columns| else 0)
    {
      var p := ordered[i];
      ElementsGrow(ordered, i);
      tableRecs := AddProposal(tableRecs, p, done);
      assert i + 1 < |ordered| ==> !LongerFirst(ordered[i + 1], p);
      done := done + {p};
    }
    assert ordered[..|ordered|] == ordered;
  }

  lemma ElementsGrow<T>(s: seq<T>, i: nat)
    requires i < |s|
    ensures Elements(s[..i + 1]) == Elements(s[..i]) + {s[i]}
  {
  }

  method MergeTable(props: seq<Proposal>, ghost key: string) returns (tableRecs: seq<Recommendation>)
    requires forall p :: p in props ==> KeyOf(p.scan) == key
    ensures Advice(Elements(props), tableRecs)
    ensures forall r :: r in tableRecs ==> RecKey(r) == key && Sorted(r.queries, BusierEntry)
  {
    // With the widest proposals in front every prefix meets its cover.
    var ordered := Sort(props, LongerFirst);
    SortSorts(props, LongerFirst);
    SamePopulation(props, ordered);
    assert forall i :: 0 <= i < |ordered| ==> ordered[i] in ordered;
    assert Elements(ordered) == Elements(props);
    tableRecs := MergeOrdered(ordered, key);
    tableRecs := SortQueries(Elements(props), tableRecs, key);
  }

  lemma QueriesReordered(props: set<Proposal>, r: Recommendation, queries: seq<Served>)
    requires WellFounded(props, r) && multiset(queries) == multiset(r.queries)
    ensures WellFounded(props, r.(queries := queries))
    ensures forall id :: Lists(r, id) ==> Lists(r.(queries := queries), id)
  {
    var r' := r.(queries := queries);
    SamePopulation(r.queries, queries);
    RearrangedStaysDistinct(r.queries, queries);
    SumPermutes(r.queries, queries, ShareOf);
    forall e | e in queries
      ensures ComesFrom(props, r', e)
    {
      assert ComesFrom(props, r, e);
      var p :| p in props && ServedBy(p, r) && e == Entry(p);
      assert ServedBy(p, r');
    }
    forall id | Lists(r, id)
      ensures Lists(r', id)
    {
      var i :| 0 <= i < |r.queries| && r.queries[i].queryId == id;
      assert r.queries[i] in queries;
    }
  }

  method SortQueries(ghost props: set<Proposal>, recs0: seq<Recommendation>, ghost key: string)
    returns (recs: seq<Recommendation>)
    requires Advice(props, recs0) && forall r :: r in recs0 ==> RecKey(r) == key
    ensures Advice(props, recs) && |recs| == |recs0|
    ensures forall r :: r in recs ==> RecKey(r) == key && Sorted(r.queries, BusierEntry)
  {
    recs := recs0;
    for i := 0 to |recs|
      invariant |recs| == |recs0| && Advice(props, recs)
      invariant forall r :: r in recs ==> RecKey(r) == key
      invariant forall j :: 0 <= j < i ==> Sorted(recs[j].queries, BusierEntry)
    {
      var queries := Sort(recs[i].queries, BusierEntry);
      SortSorts(recs[i].queries, BusierEntry);
      var r := recs[i].(queries := queries);
      assert recs[i] in recs && WellFounded(props, recs[i]);
      QueriesReordered(props, recs[i], queries);
      AdviceExchanged(props, recs, i, r);
      recs := recs[i := r];
    }
  }

  lemma AdviceExchanged(props: set<Proposal>, recs: seq<Recommendation>, i: nat, r: Recommendation)
    requires Advice(props, recs) && i < |recs| && WellFounded(props, r)
    requires RecKey(r) == RecKey(recs[i]) && r.columns == recs[i].columns
    requires forall id :: Lists(recs[i], id) ==> Lists(r, id)
    ensures Advice(props, recs[i := r])
  {
    Exchanged(recs, i, r);
    AllFoundedWith(props, recs, r, recs[i := r]);
    forall p | p in props
      ensures Covered(recs[i := r], p)
    {
      assert Covered(recs, p);
    }
  }

  // ----- All tables -----

  // Recommendations for proposals of other tables.
  lemma AdviceJoins(props: set<Proposal>, recs: seq<Recommendation>, more: set<Proposal>, moreRecs: seq<Recommendation>)
    requires Advice(props, recs) && Advice(more, moreRecs)
    requires forall r, r' :: r in recs && r' in moreRecs ==> RecKey(r) != RecKey(r')
    ensures Advice(props + more, recs + moreRecs)
  {
    var all, allRecs := props + more, recs + moreRecs;
    assert forall r :: r in allRecs <==> r in recs || r in moreRecs;
    assert Apart(allRecs) by {
      forall a, b | 0 <= a < b < |allRecs|
        ensures allRecs[a] != allRecs[b]
      {
        if a < |recs| <= b {
          assert allRecs[a] in recs && allRecs[b] in moreRecs;
        }
      }
    }
    forall r | r in allRecs
      ensures WellFounded(all, r)
    {
      if r in recs {
        assert WellFounded(props, r);
        FoundedStays(props, all, r);
      } else {
        assert WellFounded(more, r);
        FoundedStays(more, all, r);
      }
    }
    forall p | p in all
      ensures Covered(allRecs, p)
    {
      if p in props {
        assert Covered(recs, p);
      } else {
        assert Covered(moreRecs, p);
      }
    }
  }

  lemma AdviceReordered(props: set<Proposal>, recs: seq<Recommendation>, sorted: seq<Recommendation>)
    requires Advice(props, recs) && multiset(sorted) == multiset(recs)
    ensures Advice(props, sorted)
  {
    SamePopulation(recs, sorted);
    RearrangedStaysDistinct(recs, sorted);
    forall r | r in sorted
      ensures WellFounded(props, r)
    {
      assert WellFounded(props, r);
    }
    forall p | p in props
      ensures Covered(sorted, p)
    {
      assert Covered(recs, p);
    }
  }

  ghost predicate Filed(byTable: map<string, seq<Proposal>>, p: Proposal)
  {
    KeyOf(p.scan) in byTable && p in byTable[KeyOf(p.scan)]
  }

  // The proposals by table, and the tables in the order they were first seen.
  ghost predicate Grouped(byTable: map<string, seq<Proposal>>, tables: seq<string>, props: set<Proposal>)
  {
    && Distinct(tables)
    && (forall key :: key in byTable <==> key in tables)
    && (forall p {:trigger Filed(byTable, p)} :: Filed(byTable, p) <==> p in props)
    && (forall key, p :: key in byTable && p in byTable[key] ==> KeyOf(p.scan) == key)
  }

  // The surviving proposals among the first n scans of a query.
  ghost function ScansOf(q: Query, n: nat): set<Proposal>
    requires n <= |q.scans|
  {
    set s | s in q.scans[..n] && Survives(s) :: Proposal(s, q)
  }

  lemma ScansGrow(q: Query, n: nat)
    requires n < |q.scans|
    ensures ScansOf(q, n + 1) == ScansOf(q, n) + if Survives(q.scans[n]) then {Proposal(q.scans[n], q)} else {}
  {
  }

  lemma ProposalsGrow(report: seq<Query>, n: nat)
    requires n < |report|
    ensures Proposals(report[..n + 1]) == Proposals(report[..n]) + ScansOf(report[n], |report[n].scans|)
  {
  }

  method AddToTable(byTable0: map<string, seq<Proposal>>, tables0: seq<string>, p: Proposal, ghost props: set<Proposal>)
    returns (byTable: map<string, seq<Proposal>>, tables: seq<string>)
    requires Grouped(byTable0, tables0, props)
    ensures Grouped(byTable, tables, props + {p})
  {
    byTable, tables := byTable0, tables0;
    var key := KeyOf(p.scan);
    if key !in byTable {
      tables := tables + [key];
    }
    byTable := byTable[key := (if key in byTable then byTable[key] else []) + [p]];
    forall q
      ensures Filed(byTable, q) <==> q in props + {p}
    {
      assert Filed(byTable0, q) <==> q in props;
    }
  }

  method GroupByTable(report: seq<Query>) returns (byTable: map<string, seq<Proposal>>, tables: seq<string>)
    ensures Grouped(byTable, tables, Proposals(report))
  {
    byTable, tables := map[], [];
    ghost var props: set<Proposal> := {};
    for i := 0 to |report|
      invariant props == Proposals(report[..i])
      invariant Grouped(byTable, tables, props)
    {
      var q := report[i];
      for j := 0 to |q.scans|
        invariant props == Proposals(report[..i]) + ScansOf(q, j)
        invariant Grouped(byTable, tables, props)
      {
        var s := q.scans[j];
        ScansGrow(q, j);
        if |s.columns| == 0 || !s.skipReason.Kept? {
          continue;
        }
        byTable, tables := AddToTable(byTable, tables, Proposal(s, q), props);
        props := props + {Proposal(s, q)};
      }
      ProposalsGrow(report, i);
    }
    assert report[..|report|] == report;
  }

  // The proposals of the first n tables.
  ghost function OfTables(byTable: map<string, seq<Proposal>>, tables: seq<string>, n: nat): set<Proposal>
    requires n <= |tables| && forall key :: key in byTable <==> key in tables
  {
    set i, p | 0 <= i < n && p in byTable[tables[i]] :: p
  }

  lemma OfTablesGrows(byTable: map<string, seq<Proposal>>, tables: seq<string>, n: nat)
    requires n < |tables| && forall key :: key in byTable <==> key in tables
    ensures OfTables(byTable, tables, n + 1) == OfTables(byTable, tables, n) + Elements(byTable[tables[n]])
  {
  }

  lemma AllTables(byTable: map<string, seq<Proposal>>, tables: seq<string>, props: set<Proposal>)
    requires Grouped(byTable, tables, props)
    ensures OfTables(byTable, tables, |tables|) == props
  {
    forall p
      ensures p in OfTables(byTable, tables, |tables|) <==> p in props
    {
      assert Filed(byTable, p) <==> p in props;
      if Filed(byTable, p) {
        assert KeyOf(p.scan) in tables;
        var i :| 0 <= i < |tables| && tables[i] == KeyOf(p.scan);
        assert p in byTable[tables[i]];
      }
    }
  }

  method RecommendIndexes(report: seq<Query>) returns (recs: seq<Recommendation>)
    ensures Advice(Proposals(report), recs)
    ensures forall i, j :: 0 <= i < j < |recs| ==> recs[i].timeShare >= recs[j].timeShare
    ensures forall r, i, j :: r in recs && 0 <= i < j < |r.queries| ==> r.queries[i].timeShare >= r.queries[j].timeShare
  {
    var byTable, tables := GroupByTable(report);
    recs := [];
    for i := 0 to |tables|
      invariant Advice(OfTables(byTable, tables, i), recs)
      invariant forall r :: r in recs ==> RecKey(r) in tables[..i] && Sorted(r.queries, BusierEntry)
    {
      var key := tables[i];
      assert key in tables && key !in tables[..i];
      assert tables[..i + 1] == tables[..i] + [key];
      var tableRecs := MergeTable(byTable[key], key);
      AdviceJoins(OfTables(byTable, tables, i), recs, Elements(byTable[key]), tableRecs);
      OfTablesGrows(byTable, tables, i);
      recs := recs + tableRecs;
    }
    AllTables(byTable, tables, Proposals(report));
    ghost var merged := recs;
    recs := Sort(recs, BusierRec);
    SortSorts(merged, BusierRec);
    SamePopulation(merged, recs);
    AdviceReordered(Proposals(report), merged, recs);
    BusiestFirst(recs);
  }

  lemma BusiestFirst(recs: seq<Recommendation>)
    requires Sorted(recs, BusierRec) && forall r :: r in recs ==> Sorted(r.queries, BusierEntry)
    ensures forall i, j :: 0 <= i < j < |recs| ==> recs[i].timeShare >= recs[j].timeShare
    ensures forall r, i, j :: r in recs && 0 <= i < j < |r.queries| ==> r.queries[i].timeShare >= r.queries[j].timeShare
  {
    forall i, j | 0 <= i < j < |recs|
      ensures recs[i].timeShare >= recs[j].timeShare
    {
      assert !BusierRec(recs[j], recs[i]);
    }
    forall r, i, j | r in recs && 0 <= i < j < |r.queries|
      ensures r.queries[i].timeShare >= r.queries[j].timeShare
    {
      assert !BusierEntry(r.queries[j], r.queries[i]);
    }
  }
}
