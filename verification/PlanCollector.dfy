/** Planning the busiest queries and judging their sequential scans
    (internal/collector/plans/plans.go). What PostgreSQL answers is a parameter. */
module PlanCollector {
  import opened Common
  import opened Ordering
  import opened Sums
  import opened IndexAdvice

  const MAX_SELECTIVITY := 0.2
  const BTREE_TUPLE_OVERHEAD := 16
  // In seconds.
  const REPLAN_AFTER := 86400

  // ----- Ranking -----

  datatype QueryTime = QueryTime(id: int, text: string, timeMs: real)

  function TimeOf(q: QueryTime): real
  {
    q.timeMs
  }

  // What a query adds to the total: counter resets can make its time negative.
  function BusyTime(q: QueryTime): real
  {
    if q.timeMs > 0.0 then q.timeMs else 0.0
  }

  predicate Busier(q: QueryTime, q': QueryTime)
  {
    q.timeMs > q'.timeMs
  }

  predicate Eligible(q: QueryTime, explainable: string -> bool)
  {
    q.timeMs > 0.0 && explainable(q.text)
  }

  function EligibleOf(all: seq<QueryTime>, explainable: string -> bool): seq<QueryTime>
  {
    if all == [] then []
    else
      var last := all[|all| - 1];
      EligibleOf(all[..|all| - 1], explainable) + if Eligible(last, explainable) then [last] else []
  }

  lemma {:induction false} EligibleWithin(all: seq<QueryTime>, explainable: string -> bool)
    ensures forall q :: q in EligibleOf(all, explainable) ==> q in all && Eligible(q, explainable)
    ensures Sum(EligibleOf(all, explainable), TimeOf) <= Sum(all, BusyTime)
  {
    if all != [] {
      var init, last := all[..|all| - 1], all[|all| - 1];
      EligibleWithin(init, explainable);
      SumSnoc(EligibleOf(init, explainable), last, TimeOf);
      assert EligibleOf(init, explainable) + [] == EligibleOf(init, explainable);
    }
  }

  // The busiest eligible queries, and those passed over for them.
  ghost predicate TopOf(eligible: seq<QueryTime>, maxQueries: nat, ranked: seq<QueryTime>, rest: seq<QueryTime>)
  {
    && multiset(ranked) + multiset(rest) == multiset(eligible)
    && Sorted(ranked, Busier)
    && (forall q, q' :: q in ranked && q' in rest ==> q.timeMs >= q'.timeMs)
    && |ranked| <= maxQueries && (rest != [] ==> |ranked| == maxQueries)
  }

  method FindCandidates(all: seq<QueryTime>, explainable: string -> bool) returns (candidates: seq<QueryTime>, total: real)
    ensures total == Sum(all, BusyTime) && candidates == EligibleOf(all, explainable)
  {
    candidates, total := [], 0.0;
    for i := 0 to |all|
      invariant total == Sum(all[..i], BusyTime)
      invariant candidates == EligibleOf(all[..i], explainable)
    {
      var q := all[i];
      assert all[..i + 1] == all[..i] + [q];
      SumSnoc(all[..i], q, BusyTime);
      total := total + if q.timeMs > 0.0 then q.timeMs else 0.0;
      if q.timeMs > 0.0 && explainable(q.text) {
        candidates := candidates + [q];
      }
    }
    assert all[..|all|] == all;
  }

  function RankedOf(all: seq<QueryTime>, explainable: string -> bool, maxQueries: nat): seq<QueryTime>
  {
    var sorted := Sort(EligibleOf(all, explainable), Busier);
    if |sorted| > maxQueries then sorted[..maxQueries] else sorted
  }

  method RankQueries(all: seq<QueryTime>, explainable: string -> bool, maxQueries: nat)
    returns (ranked: seq<QueryTime>, total: real)
    ensures total == Sum(all, BusyTime)
    ensures ranked == RankedOf(all, explainable, maxQueries)
  {
    var candidates;
    candidates, total := FindCandidates(all, explainable);
    ranked := Sort(candidates, Busier);
    if |ranked| > maxQueries {
      ranked := ranked[..maxQueries];
    }
  }

  // The queries kept are the busiest of the eligible ones, as many as allowed.
  lemma RankedIsTop(all: seq<QueryTime>, explainable: string -> bool, maxQueries: nat) returns (rest: seq<QueryTime>)
    ensures TopOf(EligibleOf(all, explainable), maxQueries, RankedOf(all, explainable, maxQueries), rest)
    ensures forall q :: q in EligibleOf(all, explainable) <==> q in all && q.timeMs > 0.0 && explainable(q.text)
    ensures forall i, j :: 0 <= i < j < |RankedOf(all, explainable, maxQueries)| ==>
      RankedOf(all, explainable, maxQueries)[i].timeMs >= RankedOf(all, explainable, maxQueries)[j].timeMs
  {
    EligibleExactly(all, explainable);
    var eligible := EligibleOf(all, explainable);
    var sorted := Sort(eligible, Busier);
    SortSorts(eligible, Busier);
    var n := if |sorted| > maxQueries then maxQueries else |sorted|;
    CutAt(eligible, maxQueries, sorted, n);
    assert sorted[..n] == RankedOf(all, explainable, maxQueries);
    rest := sorted[n..];
    forall i, j | 0 <= i < j < n
      ensures sorted[..n][i].timeMs >= sorted[..n][j].timeMs
    {
      assert !Busier(sorted[j], sorted[i]);
    }
  }

  lemma {:induction false} EligibleExactly(all: seq<QueryTime>, explainable: string -> bool)
    ensures forall q :: q in EligibleOf(all, explainable) <==> q in all && q.timeMs > 0.0 && explainable(q.text)
  {
    if all != [] {
      var init, last := all[..|all| - 1], all[|all| - 1];
      EligibleExactly(init, explainable);
      assert forall q :: q in all <==> q in init || q == last;
    }
  }

  lemma CutAt(eligible: seq<QueryTime>, maxQueries: nat, sorted: seq<QueryTime>, n: nat)
    requires multiset(sorted) == multiset(eligible) && Sorted(sorted, Busier)
    requires n == if |sorted| > maxQueries then maxQueries else |sorted|
    ensures TopOf(eligible, maxQueries, sorted[..n], sorted[n..])
  {
    assert sorted == sorted[..n] + sorted[n..];
    forall q, q' | q in sorted[..n] && q' in sorted[n..]
      ensures q.timeMs >= q'.timeMs
    {
      var i :| 0 <= i < n && sorted[i] == q;
      var j :| n <= j < |sorted| && sorted[j] == q';
      assert !Busier(sorted[j], sorted[i]);
    }
  }

  lemma TopTime(eligible: seq<QueryTime>, maxQueries: nat, ranked: seq<QueryTime>, rest: seq<QueryTime>)
    requires TopOf(eligible, maxQueries, ranked, rest) && forall q :: q in eligible ==> q.timeMs > 0.0
    ensures (forall q :: q in ranked ==> q.timeMs > 0.0) && Sum(ranked, TimeOf) <= Sum(eligible, TimeOf)
  {
    assert multiset(ranked + rest) == multiset(eligible);
    SamePopulation(ranked + rest, eligible);
    assert forall q :: q in ranked ==> q in ranked + rest;
    SumPermutes(ranked + rest, eligible, TimeOf);
    SumPrefix(ranked + rest, |ranked|, TimeOf);
    assert (ranked + rest)[..|ranked|] == ranked;
  }

  lemma RankedTime(all: seq<QueryTime>, explainable: string -> bool, maxQueries: nat)
    ensures var ranked := RankedOf(all, explainable, maxQueries);
      (forall q :: q in ranked ==> q.timeMs > 0.0) && Sum(ranked, TimeOf) <= Sum(all, BusyTime)
  {
    EligibleWithin(all, explainable);
    var rest := RankedIsTop(all, explainable, maxQueries);
    TopTime(EligibleOf(all, explainable), maxQueries, RankedOf(all, explainable, maxQueries), rest);
  }

  // ----- Judging scans -----

  datatype TableInfo = TableInfo(estimatedRows: int, avgKeyWidth: int, indexes: seq<seq<string>>)

  type Catalog = (string, string, seq<string>) -> Option<TableInfo>

  // An index on these columns is worth proposing: the table was read, it is big, the filter
  // is selective, and no index already starts with the columns.
  ghost predicate Warranted(info: Option<TableInfo>, minTableRows: int, planRows: real, columns: seq<string>)
    requires minTableRows > 0
  {
    && info.Some?
    && info.value.estimatedRows >= minTableRows
    && planRows / info.value.estimatedRows as real <= 0.2
    && forall i :: 0 <= i < |info.value.indexes| ==> !(columns <= info.value.indexes[i])
  }

  // Why a table's proposal was turned down: the first check it fails.
  predicate TurnedDown(info: Option<TableInfo>, minTableRows: int, planRows: real, reason: SkipReason)
    requires minTableRows > 0
  {
    if info.None? then reason == Unreadable
    else if info.value.estimatedRows < minTableRows then reason == SmallTable
    else if planRows / info.value.estimatedRows as real > 0.2 then reason == Unselective
    else reason == AlreadyIndexed
  }

  // Each reason, on its own: nothing could be read, too few rows, more than a fifth of them
  // selected, or an index of these columns already there.
  lemma TurnedDownMeans(info: Option<TableInfo>, minTableRows: int, planRows: real, columns: seq<string>, reason: SkipReason)
    requires minTableRows > 0 && !Warranted(info, minTableRows, planRows, columns)
    requires TurnedDown(info, minTableRows, planRows, reason)
    ensures reason == Unreadable <==> info.None?
    ensures reason == SmallTable <==> info.Some? && info.value.estimatedRows < minTableRows
    ensures reason == Unselective <==>
      info.Some? && info.value.estimatedRows >= minTableRows && 5.0 * planRows > info.value.estimatedRows as real
    ensures reason == AlreadyIndexed ==> exists i :: 0 <= i < |info.value.indexes| && columns <= info.value.indexes[i]
  {
    if info.Some? && info.value.estimatedRows >= minTableRows {
      AFifth(planRows, info.value.estimatedRows as real);
    }
  }

  lemma AFifth(part: real, whole: real)
    requires whole > 0.0
    ensures part / whole > 0.2 <==> 5.0 * part > whole
  {
  }

  // The same scan with another verdict.
  predicate SameScan(s: Scan, s': Scan)
  {
    s.schema == s'.schema && s.table == s'.table && s.filter == s'.filter && s.planRows == s'.planRows && s.columns == s'.columns
  }

  ghost predicate ScanWarranted(catalog: Catalog, minTableRows: int, s: Scan)
    requires minTableRows > 0
  {
    Survives(s) ==>
      Warranted(InfoOf(catalog, s), minTableRows, s.planRows, s.columns) && Estimated(InfoOf(catalog, s).value, s)
  }

  // The scan carries the table's size and that of the index proposed: each row has its keys
  // and 16 bytes of overhead.
  predicate Estimated(info: TableInfo, s: Scan)
  {
    s.estimatedRows == info.estimatedRows && s.estimatedBytes == info.estimatedRows * (info.avgKeyWidth + 16)
  }

  ghost predicate ScansWarranted(catalog: Catalog, minTableRows: int, scans: seq<Scan>)
    requires minTableRows > 0
  {
    forall s :: s in scans ==> ScanWarranted(catalog, minTableRows, s)
  }

  lemma ScansStayWarranted(catalog: Catalog, minTableRows: int, scans: seq<Scan>, s: Scan)
    requires minTableRows > 0
    requires ScansWarranted(catalog, minTableRows, scans) && ScanWarranted(catalog, minTableRows, s)
    ensures ScansWarranted(catalog, minTableRows, scans + [s])
  {
  }

  // ----- The cache of table information -----

  function JoinColumns(columns: seq<string>): string
  {
    if columns == [] then "" else if |columns| == 1 then columns[0] else JoinKey(columns[0], ',', JoinColumns(columns[1..]))
  }

  function CacheKey(schema: string, table: string, columns: seq<string>): string
  {
    JoinKey(schema, '.', JoinKey(table, ':', JoinColumns(columns)))
  }

  // None of the parts holds the separator behind it. A scan without columns is not looked up.
  predicate NamesApart(s: Scan)
  {
    s.columns != [] ==> '.' !in s.schema && ':' !in s.table && forall c :: c in s.columns ==> ',' !in c
  }

  lemma {:induction false} JoinColumnsInjective(a: seq<string>, b: seq<string>)
    requires a != [] && b != [] && JoinColumns(a) == JoinColumns(b)
    requires (forall c :: c in a ==> ',' !in c) && forall c :: c in b ==> ',' !in c
    ensures a == b
  {
    assert a[0] in a && b[0] in b;
    JoinHasComma(a);
    JoinHasComma(b);
    if |a| > 1 {
      JoinKeyInjective(a[0], JoinColumns(a[1..]), b[0], JoinColumns(b[1..]), ',');
      JoinColumnsInjective(a[1..], b[1..]);
      assert a == [a[0]] + a[1..] && b == [b[0]] + b[1..];
    }
  }

  lemma JoinHasComma(a: seq<string>)
    requires a != [] && forall c :: c in a ==> ',' !in c
    ensures ',' in JoinColumns(a) <==> |a| > 1
  {
    assert a[0] in a;
    if |a| > 1 {
      assert JoinColumns(a)[|a[0]|] == ',';
    }
  }

  lemma CacheKeyInjective(s: Scan, s': Scan)
    requires s.columns != [] && s'.columns != [] && NamesApart(s) && NamesApart(s')
    requires CacheKey(s.schema, s.table, s.columns) == CacheKey(s'.schema, s'.table, s'.columns)
    ensures s.schema == s'.schema && s.table == s'.table && s.columns == s'.columns
  {
    JoinKeyInjective(s.schema, JoinKey(s.table, ':', JoinColumns(s.columns)),
                     s'.schema, JoinKey(s'.table, ':', JoinColumns(s'.columns)), '.');
    JoinKeyInjective(s.table, JoinColumns(s.columns), s'.table, JoinColumns(s'.columns), ':');
    JoinColumnsInjective(s.columns, s'.columns);
  }

  function InfoOf(catalog: Catalog, s: Scan): Option<TableInfo>
  {
    catalog(s.schema, s.table, s.columns)
  }

  // What a scan is judged by: the cached answer under its key, or a new one.
  function Looked(catalog: Catalog, tables: map<string, TableInfo>, s: Scan): Option<TableInfo>
  {
    var key := CacheKey(s.schema, s.table, s.columns);
    if key in tables then Some(tables[key]) else InfoOf(catalog, s)
  }

  // The cache once these scans have been looked up, in order: only answers are kept.
  function CacheAfter(catalog: Catalog, scans: seq<Scan>): map<string, TableInfo>
  {
    if scans == [] then map[]
    else
      var s := scans[|scans| - 1];
      var tables := CacheAfter(catalog, scans[..|scans| - 1]);
      if KeyOfTable(s) in tables || InfoOf(catalog, s).None? then tables
      else tables[KeyOfTable(s) := InfoOf(catalog, s).value]
  }

  function KeyOfTable(s: Scan): string
  {
    CacheKey(s.schema, s.table, s.columns)
  }

  predicate SameTarget(s: Scan, s': Scan)
  {
    s.schema == s'.schema && s.table == s'.table && s.columns == s'.columns
  }

  ghost predicate KeysApart(scans: seq<Scan>)
  {
    forall s, s' :: s in scans && s' in scans && KeyOfTable(s) == KeyOfTable(s') ==> SameTarget(s, s')
  }

  lemma FewerKeysApart(few: seq<Scan>, scans: seq<Scan>)
    requires few <= scans && KeysApart(scans)
    ensures KeysApart(few)
  {
    assert forall s :: s in few ==> s in scans;
  }

  // What is cached is what the catalog says about one of the scans under that key.
  lemma {:induction false} CacheIsAnswer(catalog: Catalog, scans: seq<Scan>, key: string) returns (s: Scan)
    requires key in CacheAfter(catalog, scans)
    ensures s in scans && KeyOfTable(s) == key && InfoOf(catalog, s) == Some(CacheAfter(catalog, scans)[key])
  {
    var init, last := scans[..|scans| - 1], scans[|scans| - 1];
    if key in CacheAfter(catalog, init) {
      s := CacheIsAnswer(catalog, init, key);
    } else {
      s := last;
    }
  }

  // Scan n is answered with what the catalog says about its own table.
  predicate OwnAnswer(catalog: Catalog, scans: seq<Scan>, n: nat)
    requires n < |scans|
  {
    Looked(catalog, CacheAfter(catalog, scans[..n]), scans[n]) == InfoOf(catalog, scans[n])
  }

  ghost predicate OwnAnswers(catalog: Catalog, scans: seq<Scan>)
  {
    forall n :: 0 <= n < |scans| ==> OwnAnswer(catalog, scans, n)
  }

  lemma ApartAnswersOwn(catalog: Catalog, scans: seq<Scan>, s: Scan)
    requires KeysApart(scans + [s])
    ensures Looked(catalog, CacheAfter(catalog, scans), s) == InfoOf(catalog, s)
  {
    if KeyOfTable(s) in CacheAfter(catalog, scans) {
      var s' := CacheIsAnswer(catalog, scans, KeyOfTable(s));
      assert s' in scans + [s] && s in scans + [s];
    }
  }

  // The first answer under a key stays.
  lemma {:induction false} FirstAnswerStays(catalog: Catalog, scans: seq<Scan>, m: nat, n: nat)
    requires m < n <= |scans| && InfoOf(catalog, scans[m]).Some?
    requires forall i :: 0 <= i < m ==> KeyOfTable(scans[i]) != KeyOfTable(scans[m])
    ensures KeyOfTable(scans[m]) in CacheAfter(catalog, scans[..n])
    ensures InfoOf(catalog, scans[m]) == Some(CacheAfter(catalog, scans[..n])[KeyOfTable(scans[m])])
    decreases n
  {
    assert scans[..n][..n - 1] == scans[..n - 1];
    if m < n - 1 {
      FirstAnswerStays(catalog, scans, m, n - 1);
    } else if KeyOfTable(scans[m]) in CacheAfter(catalog, scans[..m]) {
      var s := CacheIsAnswer(catalog, scans[..m], KeyOfTable(scans[m]));
      assert false;
    }
  }

  // A catalog that tells the target of s from all others.
  function Telling(s: Scan): Catalog
  {
    (schema, table, columns) =>
      Some(TableInfo(if schema == s.schema && table == s.table && columns == s.columns then 1 else 0, 0, []))
  }

  lemma SharedKeyMisanswers(scans: seq<Scan>, m: nat, n: nat)
    requires m < n < |scans| && KeyOfTable(scans[m]) == KeyOfTable(scans[n]) && !SameTarget(scans[m], scans[n])
    requires forall i :: 0 <= i < m ==> KeyOfTable(scans[i]) != KeyOfTable(scans[m])
    ensures !OwnAnswers(Telling(scans[m]), scans)
  {
    FirstAnswerStays(Telling(scans[m]), scans, m, n);
    assert !OwnAnswer(Telling(scans[m]), scans, n);
  }

  lemma {:induction false} FirstUnderKey(scans: seq<Scan>, n: nat) returns (m: nat)
    requires n < |scans|
    ensures m <= n && KeyOfTable(scans[m]) == KeyOfTable(scans[n])
    ensures forall i :: 0 <= i < |scans| && KeyOfTable(scans[i]) == KeyOfTable(scans[m]) ==> m <= i
  {
    if i :| 0 <= i < n && KeyOfTable(scans[i]) == KeyOfTable(scans[n]) {
      m := FirstUnderKey(scans, i);
    } else {
      m := n;
    }
  }

  lemma SharedKeyIsSeen(scans: seq<Scan>)
    requires !KeysApart(scans)
    ensures exists catalog :: !OwnAnswers(catalog, scans)
  {
    var s, s' :| s in scans && s' in scans && KeyOfTable(s) == KeyOfTable(s') && !SameTarget(s, s');
    var i :| 0 <= i < |scans| && scans[i] == s;
    var j :| 0 <= j < |scans| && scans[j] == s';
    var m := FirstUnderKey(scans, i);
    SharedKeyMisanswers(scans, m, if SameTarget(scans[m], s) then j else i);
  }

  // Looked up one after the other, the scans are all judged by their own tables, whatever
  // the catalog says, if and only if no two of them share a key for different targets.
  lemma OwnAnswersExactly(scans: seq<Scan>)
    ensures (forall catalog :: OwnAnswers(catalog, scans)) <==> KeysApart(scans)
  {
    if KeysApart(scans) {
      forall catalog, n | 0 <= n < |scans|
        ensures OwnAnswer(catalog, scans, n)
      {
        FewerKeysApart(scans[..n] + [scans[n]], scans);
        ApartAnswersOwn(catalog, scans[..n], scans[n]);
      }
    } else {
      SharedKeyIsSeen(scans);
    }
  }

  // With a dot in a schema name two tables share a key, and the second one is judged by
  // the first one's indexes: an index that exists is proposed.
  lemma SharedKeyMisleads(catalog: Catalog, minTableRows: int, first: Scan, second: Scan)
    requires minTableRows > 0
    requires first.schema == "a.b" && first.table == "c" && first.columns == ["x"]
    requires second.schema == "a" && second.table == "b.c" && second.columns == ["x"] && second.planRows == 0.0
    requires InfoOf(catalog, first) == Some(TableInfo(minTableRows, 8, []))
    requires InfoOf(catalog, second) == Some(TableInfo(minTableRows, 8, [["x"]]))
    ensures var tables := map[CacheKey("a.b", "c", ["x"]) := InfoOf(catalog, first).value];
            && Warranted(Looked(catalog, tables, second), minTableRows, second.planRows, second.columns)
            && !Warranted(InfoOf(catalog, second), minTableRows, second.planRows, second.columns)
  {
    assert CacheKey("a.b", "c", ["x"]) == "a.b.c:x" == CacheKey("a", "b.c", ["x"]);
    assert InfoOf(catalog, second).value.indexes[0] == ["x"];
  }

  // What planning a query gives: the scans found in its plan, each with hypopg's answer.
  datatype Planned = Planned(scan: Scan, validated: Option<bool>)

  function PlannedScans(plan: seq<Planned>): seq<Scan>
  {
    seq(|plan|, i requires 0 <= i < |plan| => plan[i].scan)
  }

  // The first scans of a plan, with other verdicts.
  ghost predicate SameScans(plan: seq<Planned>, scans: seq<Scan>)
  {
    |scans| <= |plan| && forall i :: 0 <= i < |scans| ==> SameScan(plan[i].scan, scans[i])
  }

  lemma SameScansGrow(plan: seq<Planned>, scans: seq<Scan>, s: Scan)
    requires SameScans(plan, scans) && |scans| < |plan| && SameScan(plan[|scans|].scan, s)
    ensures SameScans(plan, scans + [s])
  {
  }

  // Nothing but these scans has been looked up since, and none without columns.
  ghost predicate LookedAt(looked: seq<Scan>, before: seq<Scan>, scans: seq<Scan>)
  {
    forall s :: s in looked ==> s in before || (s in scans && s.columns != [])
  }

  lemma LookedMore(looked: seq<Scan>, between: seq<Scan>, before: seq<Scan>, s: Scan, scans: seq<Scan>)
    requires LookedAt(between, before, scans) && LookedAt(looked, between, [s]) && s in scans
    ensures LookedAt(looked, before, scans)
  {
  }

  // The judge of one collection run, with its cache.
  class Judge {
    const catalog: Catalog
    const minTableRows: int
    var tables: map<string, TableInfo>
    // The scans looked up so far.
    ghost var looked: seq<Scan>

    ghost predicate Valid()
      reads this
    {
      minTableRows > 0 && tables == CacheAfter(catalog, looked)
    }

    constructor (catalog: Catalog, minTableRows: int)
      requires minTableRows > 0
      ensures Valid() && looked == []
      ensures this.catalog == catalog && this.minTableRows == minTableRows
    {
      this.catalog, this.minTableRows := catalog, minTableRows;
      tables, looked := map[], [];
    }

    // tableInfo: only answers are cached, not failures.
    method ReadTable(s: Scan) returns (read: Option<TableInfo>)
      requires Valid() && s.columns != []
      modifies this
      ensures Valid() && looked == old(looked) + [s]
      ensures read == Looked(catalog, old(tables), s)
      ensures KeysApart(looked) ==> read == InfoOf(catalog, s)
    {
      if KeysApart(looked + [s]) {
        ApartAnswersOwn(catalog, looked, s);
      }
      assert (looked + [s])[..|looked|] == looked;
      looked := looked + [s];
      var key := CacheKey(s.schema, s.table, s.columns);
      if key in tables {
        return Some(tables[key]);
      }
      read := catalog(s.schema, s.table, s.columns);
      if read.Some? {
        tables := tables[key := read.value];
      }
    }

    method CheckTable(s: Scan) returns (checked: Scan, ok: bool)
      requires Valid() && s.columns != []
      modifies this
      ensures Valid() && looked == old(looked) + [s]
      ensures ok <==> Warranted(Looked(catalog, old(tables), s), minTableRows, s.planRows, s.columns)
      ensures KeysApart(looked) ==> Looked(catalog, old(tables), s) == InfoOf(catalog, s)
      ensures ok ==>
        var info := Looked(catalog, old(tables), s).value;
        checked == s.(estimatedRows := info.estimatedRows,
                      estimatedBytes := info.estimatedRows * (info.avgKeyWidth + 16))
      ensures !ok ==> SameScan(s, checked) && !checked.skipReason.Kept? && checked.usesIndex == s.usesIndex
      ensures !ok ==> TurnedDown(Looked(catalog, old(tables), s), minTableRows, s.planRows, checked.skipReason)
    {
      var read := ReadTable(s);
      if read.None? {
        return s.(skipReason := Unreadable), false;
      }
      checked, ok := CheckInfo(read.value, s);
    }

    method CheckInfo(info: TableInfo, s: Scan) returns (checked: Scan, ok: bool)
      requires minTableRows > 0
      ensures ok <==> Warranted(Some(info), minTableRows, s.planRows, s.columns)
      ensures ok ==>
        checked == s.(estimatedRows := info.estimatedRows,
                      estimatedBytes := info.estimatedRows * (info.avgKeyWidth + 16))
      ensures !ok ==> SameScan(s, checked) && !checked.skipReason.Kept? && checked.usesIndex == s.usesIndex
      ensures !ok ==> TurnedDown(Some(info), minTableRows, s.planRows, checked.skipReason)
      ensures checked.estimatedRows == info.estimatedRows
    {
      checked := s.(estimatedRows := info.estimatedRows);
      if info.estimatedRows < minTableRows {
        return checked.(skipReason := SmallTable), false;
      }
      if s.planRows / info.estimatedRows as real > MAX_SELECTIVITY {
        return checked.(skipReason := Unselective), false;
      }
      for i := 0 to |info.indexes|
        invariant forall j :: 0 <= j < i ==> !(s.columns <= info.indexes[j])
      {
        var covers := HasPrefix(info.indexes[i], s.columns);
        if covers {
          return checked.(skipReason := AlreadyIndexed), false;
        }
      }
      return checked.(estimatedBytes := info.estimatedRows * (info.avgKeyWidth + BTREE_TUPLE_OVERHEAD)), true;
    }

    // A fresh scan. validated is what hypopg said: None when it is absent or failed.
    method JudgeScan(s: Scan, validated: Option<bool>) returns (judged: Scan)
      requires Valid() && s.skipReason.Kept? && s.usesIndex.None?
      modifies this
      ensures Valid() && old(looked) <= looked && LookedAt(looked, old(looked), [s])
      ensures SameScan(s, judged)
      ensures Survives(judged) <==>
        s.columns != [] && Warranted(Looked(catalog, old(tables), s), minTableRows, s.planRows, s.columns)
        && validated != Some(false)
      ensures Survives(judged) ==>
        judged.usesIndex == validated && Estimated(Looked(catalog, old(tables), s).value, judged)
      ensures s.columns == [] ==> judged.skipReason == if s.filter == "" then NoFilter else UnusableFilter
      ensures s.columns != [] && !judged.skipReason.Kept? ==>
        var info := Looked(catalog, old(tables), s);
        if Warranted(info, minTableRows, s.planRows, s.columns) then judged.skipReason == NotPreferred && validated == Some(false)
        else TurnedDown(info, minTableRows, s.planRows, judged.skipReason)
      ensures KeysApart(looked) ==> ScanWarranted(catalog, minTableRows, judged)
    {
      if |s.columns| == 0 {
        return s.(skipReason := if s.filter == "" then NoFilter else UnusableFilter);
      }
      var ok;
      judged, ok := CheckTable(s);
      if !ok || validated.None? {
        return judged;
      }
      judged := judged.(usesIndex := validated);
      if !validated.value {
        judged := judged.(skipReason := NotPreferred);
      }
    }

    // A reused scan: nothing is proposed that has been created since.
    method Recheck(s: Scan) returns (judged: Scan)
      requires Valid()
      modifies this
      ensures Valid() && old(looked) <= looked && LookedAt(looked, old(looked), [s])
      ensures SameScan(s, judged) && judged.usesIndex == s.usesIndex
      ensures Survives(judged) <==>
        Survives(s) && Warranted(Looked(catalog, old(tables), s), minTableRows, s.planRows, s.columns)
      ensures !Survives(s) ==> judged == s
      ensures Survives(judged) ==> Estimated(Looked(catalog, old(tables), s).value, judged)
      ensures Survives(s) && !Survives(judged) ==>
        TurnedDown(Looked(catalog, old(tables), s), minTableRows, s.planRows, judged.skipReason)
      ensures KeysApart(looked) ==> ScanWarranted(catalog, minTableRows, judged)
    {
      if |s.columns| == 0 || !s.skipReason.Kept? {
        return s;
      }
      var ok;
      judged, ok := CheckTable(s);
    }

    method RecheckAll(reused: seq<Scan>) returns (scans: seq<Scan>)
      requires Valid()
      modifies this
      ensures Valid() && old(looked) <= looked && LookedAt(looked, old(looked), reused)
      ensures |scans| == |reused| && forall i :: 0 <= i < |scans| ==> SameScan(reused[i], scans[i])
      ensures KeysApart(looked) ==> ScansWarranted(catalog, minTableRows, scans)
    {
      scans := reused;
      for i := 0 to |scans|
        invariant Valid() && old(looked) <= looked && LookedAt(looked, old(looked), reused)
        invariant |scans| == |reused|
        invariant forall j :: i <= j < |scans| ==> scans[j] == reused[j]
        invariant forall j :: 0 <= j < i ==> SameScan(reused[j], scans[j])
        invariant KeysApart(looked) ==> forall j :: 0 <= j < i ==> ScanWarranted(catalog, minTableRows, scans[j])
      {
        assert scans[i] == reused[i] && reused[i] in reused;
        ghost var between := looked;
        var s := Recheck(scans[i]);
        LookedMore(looked, between, old(looked), reused[i], reused);
        scans := scans[i := s];
      }
    }

    method JudgeAll(plan: seq<Planned>) returns (scans: seq<Scan>)
      requires Valid()
      requires forall i :: 0 <= i < |plan| ==> plan[i].scan.skipReason.Kept? && plan[i].scan.usesIndex.None?
      modifies this
      ensures Valid() && old(looked) <= looked && LookedAt(looked, old(looked), PlannedScans(plan))
      ensures |scans| == |plan| && SameScans(plan, scans)
      ensures KeysApart(looked) ==> ScansWarranted(catalog, minTableRows, scans)
    {
      scans := [];
      for i := 0 to |plan|
        invariant Valid() && old(looked) <= looked && LookedAt(looked, old(looked), PlannedScans(plan))
        invariant |scans| == i && SameScans(plan, scans)
        invariant KeysApart(looked) ==> ScansWarranted(catalog, minTableRows, scans)
      {
        ghost var between := looked;
        assert PlannedScans(plan)[i] == plan[i].scan;
        var s := JudgeScan(plan[i].scan, plan[i].validated);
        LookedMore(looked, between, old(looked), plan[i].scan, PlannedScans(plan));
        if KeysApart(looked) {
          FewerKeysApart(between, looked);
          ScansStayWarranted(catalog, minTableRows, scans, s);
        }
        SameScansGrow(plan, scans, s);
        scans := scans + [s];
      }
    }
  }

  // ----- The collector -----

  type Planner = string -> Option<seq<Planned>>

  // Scans as they come out of a plan carry no verdict yet.
  ghost predicate FreshPlans(planner: Planner)
  {
    forall text :: planner(text).Some? ==>
      forall i :: 0 <= i < |planner(text).value| ==>
        planner(text).value[i].scan.skipReason.Kept? && planner(text).value[i].scan.usesIndex.None?
  }

  predicate Reusable(previous: map<int, Query>, q: QueryTime, now: int)
  {
    && q.id in previous
    && previous[q.id].text == q.text
    && now - previous[q.id].explainedAt < 86400
    && !previous[q.id].failed
  }

  // Where a finding's scans come from: the previous plan, or the plan made now.
  ghost predicate ScansFrom(planner: Planner, previous: map<int, Query>, q: QueryTime, now: int, f: Query)
  {
    if Reusable(previous, q, now) then
      && f.explainedAt == previous[q.id].explainedAt && !f.failed
      && |f.scans| == |previous[q.id].scans|
      && forall i :: 0 <= i < |f.scans| ==> SameScan(previous[q.id].scans[i], f.scans[i])
    else
      && f.explainedAt == now && (f.failed <==> planner(q.text).None?)
      && |f.scans| == (if f.failed then 0 else |planner(q.text).value|)
      && forall i :: 0 <= i < |f.scans| ==> SameScan(planner(q.text).value[i].scan, f.scans[i])
  }

  ghost predicate AllWarranted(catalog: Catalog, minTableRows: int, f: Query)
    requires minTableRows > 0
  {
    ScansWarranted(catalog, minTableRows, f.scans)
  }

  ghost predicate FindingOk(planner: Planner, previous: map<int, Query>, q: QueryTime, now: int, f: Query)
  {
    && f.id == q.id && f.text == q.text
    && ScansFrom(planner, previous, q, now, f)
    && now - f.explainedAt < 86400
  }

  // A finding's plan is the previous one exactly if that is of the same text, younger than a
  // day and free of errors; otherwise it was made now.
  lemma FindingMeans(planner: Planner, previous: map<int, Query>, q: QueryTime, now: int, f: Query)
    requires FindingOk(planner, previous, q, now, f)
    ensures var reused := q.id in previous && previous[q.id].text == q.text && !previous[q.id].failed
                          && now - previous[q.id].explainedAt < 24 * 3600;
            && f.id == q.id && f.text == q.text
            && f.explainedAt == (if reused then previous[q.id].explainedAt else now)
            && (f.failed <==> !reused && planner(q.text).None?)
            && |f.scans| == if reused then |previous[q.id].scans| else if f.failed then 0 else |planner(q.text).value|
  {
  }

  // What a collection run can come to look up: scans of new plans, and of reused ones.
  ghost predicate CanBeLookedUp(planner: Planner, previous: map<int, Query>, s: Scan)
  {
    && s.columns != []
    && ((exists text :: planner(text).Some? && s in PlannedScans(planner(text).value))
        || exists id :: id in previous && s in previous[id].scans)
  }

  ghost predicate AllCanBeLookedUp(planner: Planner, previous: map<int, Query>, looked: seq<Scan>)
  {
    forall s :: s in looked ==> CanBeLookedUp(planner, previous, s)
  }

  // No two of them share a key for different targets.
  ghost predicate AllKeysApart(planner: Planner, previous: map<int, Query>)
  {
    forall s, s' :: CanBeLookedUp(planner, previous, s) && CanBeLookedUp(planner, previous, s') ==>
      KeyOfTable(s) == KeyOfTable(s') ==> SameTarget(s, s')
  }

  lemma LookedKeysApart(planner: Planner, previous: map<int, Query>, looked: seq<Scan>)
    requires AllKeysApart(planner, previous) && AllCanBeLookedUp(planner, previous, looked)
    ensures KeysApart(looked)
  {
  }

  // Separable names keep the keys apart.
  lemma AllNamesApart(planner: Planner, previous: map<int, Query>)
    requires forall s :: CanBeLookedUp(planner, previous, s) ==> NamesApart(s)
    ensures AllKeysApart(planner, previous)
  {
    forall s, s' | CanBeLookedUp(planner, previous, s) && CanBeLookedUp(planner, previous, s') && KeyOfTable(s) == KeyOfTable(s')
      ensures SameTarget(s, s')
    {
      CacheKeyInjective(s, s');
    }
  }

  method FindingFor(judge: Judge, planner: Planner, previous: map<int, Query>, q: QueryTime, share: real, now: int)
    returns (f: Query)
    requires judge.Valid() && FreshPlans(planner)
    requires AllCanBeLookedUp(planner, previous, judge.looked)
    modifies judge
    ensures judge.Valid() && old(judge.looked) <= judge.looked
    ensures AllCanBeLookedUp(planner, previous, judge.looked)
    ensures FindingOk(planner, previous, q, now, f) && f.timeShare == share
    ensures KeysApart(judge.looked) ==> AllWarranted(judge.catalog, judge.minTableRows, f)
  {
    if q.id in previous && previous[q.id].text == q.text && now - previous[q.id].explainedAt < REPLAN_AFTER
       && !previous[q.id].failed
    {
      var prev := previous[q.id];
      // An index created since must not be proposed again.
      var scans := judge.RecheckAll(prev.scans);
      return Query(q.id, q.text, share, prev.explainedAt, false, scans);
    }
    var plan := planner(q.text);
    if plan.None? {
      return Query(q.id, q.text, share, now, true, []);
    }
    var scans := judge.JudgeAll(plan.value);
    return Query(q.id, q.text, share, now, false, scans);
  }

  // A part of the total, as a share of it.
  function Share(part: real, total: real): real
  {
    if total > 0.0 then part / total else 0.0
  }

  lemma ShareBounds(part: real, total: real)
    requires 0.0 <= part <= total
    ensures 0.0 <= Share(part, total) <= 1.0
  {
  }

  lemma ShareNonNegative(part: real, total: real)
    requires part >= 0.0
    ensures Share(part, total) >= 0.0
  {
  }

  // Findings for the first queries of ranked, with their shares of the total.
  ghost predicate Findings(ranked: seq<QueryTime>, planner: Planner, previous: map<int, Query>, now: int, total: real,
                           report: seq<Query>)
  {
    && |report| <= |ranked|
    && (forall i :: 0 <= i < |report| ==> FindingOk(planner, previous, ranked[i], now, report[i]))
    && (forall i :: 0 <= i < |report| ==> report[i].timeShare == Share(ranked[i].timeMs, total))
  }

  lemma FindingsGrow(ranked: seq<QueryTime>, planner: Planner, previous: map<int, Query>, now: int, total: real,
                     report: seq<Query>, f: Query)
    requires Findings(ranked, planner, previous, now, total, report) && |report| < |ranked|
    requires FindingOk(planner, previous, ranked[|report|], now, f)
    requires f.timeShare == Share(ranked[|report|].timeMs, total)
    ensures Findings(ranked, planner, previous, now, total, report + [f])
  {
  }

  // What a report says about the queries it ranks.
  ghost predicate ReportOf(all: seq<QueryTime>, ranked: seq<QueryTime>, planner: Planner, previous: map<int, Query>,
                           now: int, report: seq<Query>)
  {
    |report| == |ranked| && Findings(ranked, planner, previous, now, Sum(all, BusyTime), report)
  }

  // Collect, up to storing the report.
  method Collect(all: seq<QueryTime>, explainable: string -> bool, maxQueries: nat, catalog: Catalog, minTableRows: int,
                 planner: Planner, previous: map<int, Query>, now: int)
    returns (report: seq<Query>)
    requires minTableRows > 0 && FreshPlans(planner)
    ensures ReportOf(all, RankedOf(all, explainable, maxQueries), planner, previous, now, report)
    ensures AllKeysApart(planner, previous) ==> forall f :: f in report ==> AllWarranted(catalog, minTableRows, f)
  {
    var ranked, total := RankQueries(all, explainable, maxQueries);
    var judge := new Judge(catalog, minTableRows);
    report := [];
    for i := 0 to |ranked|
      invariant judge.Valid() && fresh(judge) && AllCanBeLookedUp(planner, previous, judge.looked)
      invariant |report| == i && Findings(ranked, planner, previous, now, total, report)
      invariant KeysApart(judge.looked) ==> forall f :: f in report ==> AllWarranted(catalog, minTableRows, f)
    {
      var q := ranked[i];
      var share := if total > 0.0 then q.timeMs / total else 0.0;
      var f := FindingFor(judge, planner, previous, q, share, now);
      FindingsGrow(ranked, planner, previous, now, total, report, f);
      report := report + [f];
    }
    if AllKeysApart(planner, previous) {
      LookedKeysApart(planner, previous, judge.looked);
    }
  }

  // ----- What a report guarantees to the recommendations made from it -----

  lemma {:induction false} SharesOf(ranked: seq<QueryTime>, report: seq<Query>, total: real)
    requires |ranked| == |report|
    requires forall i :: 0 <= i < |report| ==> report[i].timeShare == Share(ranked[i].timeMs, total)
    ensures Sum(report, QueryShare) == Share(Sum(ranked, TimeOf), total)
  {
    if report == [] {
      NoShare(total);
    } else {
      var n := |report| - 1;
      var time, share := ranked[n].timeMs, report[n].timeShare;
      assert share == Share(time, total);
      SharesOf(ranked[..n], report[..n], total);
      SharesStep(Sum(report[..n], QueryShare), Sum(ranked[..n], TimeOf), share, time, total, Sum(ranked, TimeOf));
    }
  }

  lemma NoShare(total: real)
    ensures Share(0.0, total) == 0.0
  {
  }

  lemma SharesStep(shares: real, times: real, share: real, time: real, total: real, sum: real)
    requires shares == Share(times, total) && share == Share(time, total) && sum == times + time
    ensures shares + share == Share(sum, total)
  {
  }

  lemma {:induction false} ReportShares(all: seq<QueryTime>, explainable: string -> bool, maxQueries: nat, report: seq<Query>)
    requires var ranked := RankedOf(all, explainable, maxQueries);
      |report| == |ranked|
      && forall i :: 0 <= i < |report| ==> report[i].timeShare == Share(ranked[i].timeMs, Sum(all, BusyTime))
    ensures forall q :: q in report ==> q.timeShare >= 0.0
    ensures Sum(report, QueryShare) <= 1.0
  {
    RankedTime(all, explainable, maxQueries);
    RankedShares(RankedOf(all, explainable, maxQueries), report, Sum(all, BusyTime));
  }

  lemma {:induction false} RankedShares(ranked: seq<QueryTime>, report: seq<Query>, total: real)
    requires |report| == |ranked| && forall i :: 0 <= i < |report| ==> report[i].timeShare == Share(ranked[i].timeMs, total)
    requires (forall q :: q in ranked ==> q.timeMs > 0.0) && Sum(ranked, TimeOf) <= total
    ensures forall q :: q in report ==> q.timeShare >= 0.0
    ensures Sum(report, QueryShare) <= 1.0
  {
    SharesOf(ranked, report, total);
    SumNonNegative(ranked, TimeOf);
    ShareBounds(Sum(ranked, TimeOf), total);
    forall i | 0 <= i < |report|
      ensures report[i].timeShare >= 0.0
    {
      assert ranked[i] in ranked;
      ShareNonNegative(ranked[i].timeMs, total);
    }
  }

  lemma {:induction false} AllEligible(all: seq<QueryTime>, explainable: string -> bool)
    requires forall q :: q in all ==> q.timeMs > 0.0 ==> explainable(q.text)
    ensures Sum(EligibleOf(all, explainable), TimeOf) == Sum(all, BusyTime)
  {
    if all != [] {
      var init, last := all[..|all| - 1], all[|all| - 1];
      AllEligible(init, explainable);
      SumSnoc(EligibleOf(init, explainable), last, TimeOf);
      assert EligibleOf(init, explainable) + [] == EligibleOf(init, explainable);
    }
  }

  // When every query that took time can be explained and there is room for them all, the
  // shares of a report sum to exactly one.
  lemma FullReportShares(all: seq<QueryTime>, explainable: string -> bool, maxQueries: nat, report: seq<Query>, q: QueryTime)
    requires forall q :: q in all ==> q.timeMs > 0.0 ==> explainable(q.text)
    requires |EligibleOf(all, explainable)| <= maxQueries && q in EligibleOf(all, explainable)
    requires var ranked := RankedOf(all, explainable, maxQueries);
      |report| == |ranked|
      && forall i :: 0 <= i < |report| ==> report[i].timeShare == Share(ranked[i].timeMs, Sum(all, BusyTime))
    ensures Sum(report, QueryShare) == 1.0
  {
    var eligible, ranked := EligibleOf(all, explainable), RankedOf(all, explainable, maxQueries);
    assert ranked == Sort(eligible, Busier) by {
      SamePopulation(eligible, Sort(eligible, Busier));
    }
    SumPermutes(eligible, ranked, TimeOf);
    AllEligible(all, explainable);
    EligibleWithin(all, explainable);
    SharesOf(ranked, report, Sum(all, BusyTime));
    SomeTime(eligible, q);
    WholeShare(Sum(ranked, TimeOf));
  }

  lemma {:induction false} SomeTime(eligible: seq<QueryTime>, q: QueryTime)
    requires q in eligible && forall q :: q in eligible ==> q.timeMs > 0.0
    ensures Sum(eligible, TimeOf) > 0.0
  {
    var init, last := eligible[..|eligible| - 1], eligible[|eligible| - 1];
    assert last in eligible;
    SumNonNegative(init, TimeOf);
    assert eligible == init + [last];
    SumSnoc(init, last, TimeOf);
  }

  lemma WholeShare(total: real)
    requires total > 0.0
    ensures Share(total, total) == 1.0
  {
  }

  // What is recommended from a collected report is new: the table was read, and none of
  // its indexes starts with the columns. Its time share is a share.
  lemma {:induction false} RecommendedFromReport(all: seq<QueryTime>, explainable: string -> bool, maxQueries: nat,
                                                 catalog: Catalog, minTableRows: int, planner: Planner,
                                                 previous: map<int, Query>, now: int, report: seq<Query>,
                                                 recs: seq<Recommendation>, r: Recommendation)
    requires minTableRows > 0
    requires ReportOf(all, RankedOf(all, explainable, maxQueries), planner, previous, now, report)
    requires forall f :: f in report ==> AllWarranted(catalog, minTableRows, f)
    requires Advice(Proposals(report), recs) && r in recs
    ensures catalog(r.schema, r.table, r.columns).Some?
    ensures var info := catalog(r.schema, r.table, r.columns).value;
      info.estimatedRows >= minTableRows && r.estimatedRows == info.estimatedRows
      && r.estimatedBytes == info.estimatedRows * (info.avgKeyWidth + 16)
      && forall i :: 0 <= i < |info.indexes| ==> !(r.columns <= info.indexes[i])
    ensures 0.0 <= r.timeShare <= 1.0
  {
    NeverAlreadyIndexed(catalog, minTableRows, report, recs, r);
    ReportShares(all, explainable, maxQueries, report);
    TimeShareBounded(report, recs, r);
  }

  lemma NeverAlreadyIndexed(catalog: Catalog, minTableRows: int, report: seq<Query>, recs: seq<Recommendation>, r: Recommendation)
    requires minTableRows > 0 && forall q :: q in report ==> AllWarranted(catalog, minTableRows, q)
    requires Advice(Proposals(report), recs) && r in recs
    ensures catalog(r.schema, r.table, r.columns).Some?
    ensures var info := catalog(r.schema, r.table, r.columns).value;
      info.estimatedRows >= minTableRows && r.estimatedRows == info.estimatedRows
      && r.estimatedBytes == info.estimatedRows * (info.avgKeyWidth + 16)
      && forall i :: 0 <= i < |info.indexes| ==> !(r.columns <= info.indexes[i])
  {
    assert WellFounded(Proposals(report), r);
    var p :| p in Proposals(report) && FoundedOn(r, p);
    assert AllWarranted(catalog, minTableRows, p.query);
    assert ScanWarranted(catalog, minTableRows, p.scan);
  }
}
