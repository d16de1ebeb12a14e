/** Which data domains an analysis really observed (internal/analyzer/main.go). Every
    storage read is a parameter: it may fail, find nothing, or return something. */
module Coverage {
  import opened Common
  import SizeTrend

  datatype Domain =
    | QueryStats | TableStats | IndexStats | Bloat | Activity | Locks
    | DatabaseStats | OutageRisk | QueryPlans | Settings

  const ALL_DOMAINS := [QueryStats, TableStats, IndexStats, Bloat, Activity, Locks,
                        DatabaseStats, OutageRisk, QueryPlans, Settings]

  // The zero value stands for a domain that was never observed.
  datatype DomainCoverage = DomainCoverage(present: bool, snapshotId: nat, capturedAt: int, age: int, stale: bool) {
    predicate Usable()
    {
      present && !stale
    }
  }

  const NotObserved := DomainCoverage(false, 0, 0, 0, false)

  // ----- Resolving domains -----

  datatype CollectorRun = CollectorRun(collector: Domain, success: bool, collectedAt: int)

  datatype Read<+T> = Failed | Nothing | Got(value: T)

  // Row ids start at 1.
  type SnapshotId = id: nat | id > 0 witness 1

  // What the two lookups for one domain return.
  datatype DomainLookup = DomainLookup(snapshot: Read<SnapshotId>, runs: Option<seq<CollectorRun>>)

  const DEFAULT_STALENESS_FACTOR := 3.0

  datatype Config = Config(intervals: map<Domain, int>, stalenessFactor: real) {
    // Without a known interval there is no budget, which is 0.
    function StalenessBudget(d: Domain): int
    {
      if d !in intervals || intervals[d] <= 0 then 0
      else
        var factor := if stalenessFactor <= 0.0 then DEFAULT_STALENESS_FACTOR else stalenessFactor;
        (intervals[d] as real * factor).Floor
    }
  }

  // When the domain's collector last succeeded in the snapshot; the zero time otherwise.
  function ObservedAt(d: Domain, runs: seq<CollectorRun>): int
  {
    if runs == [] then 0
    else if runs[0].collector == d && runs[0].success then runs[0].collectedAt
    else ObservedAt(d, runs[1..])
  }

  method FindObserved(d: Domain, runs: seq<CollectorRun>) returns (at: int)
    ensures at == ObservedAt(d, runs)
  {
    for i := 0 to |runs|
      invariant ObservedAt(d, runs) == ObservedAt(d, runs[i..])
    {
      if runs[i].collector == d && runs[i].success {
        return runs[i].collectedAt;
      }
    }
    return 0;
  }

  // A domain is usable after resolution only on positive evidence: both lookups worked, a
  // successful run of its own collector was found, and it is within its staleness budget.
  predicate FreshlyObserved(config: Config, now: int, d: Domain, lookup: DomainLookup)
  {
    && lookup.snapshot.Got?
    && lookup.runs.Some?
    && ObservedAt(d, lookup.runs.value) != 0
    && (config.StalenessBudget(d) > 0 ==> now - ObservedAt(d, lookup.runs.value) <= config.StalenessBudget(d))
  }

  predicate Observed(d: Domain, lookup: DomainLookup)
  {
    lookup.snapshot.Got? && lookup.runs.Some? && ObservedAt(d, lookup.runs.value) != 0
  }

  function Resolved(config: Config, now: int, d: Domain, lookup: DomainLookup): DomainCoverage
  {
    if !Observed(d, lookup) then NotObserved
    else
      var at := ObservedAt(d, lookup.runs.value);
      DomainCoverage(true, lookup.snapshot.value, at, now - at,
                     config.StalenessBudget(d) > 0 && now - at > config.StalenessBudget(d))
  }

  // The first successful run of the domain's own collector.
  ghost predicate FirstSuccess(d: Domain, runs: seq<CollectorRun>, k: int)
  {
    && 0 <= k < |runs| && runs[k].collector == d && runs[k].success
    && forall j :: 0 <= j < k ==> runs[j].collector != d || !runs[j].success
  }

  lemma {:induction false} ObservedIsFirstSuccess(d: Domain, runs: seq<CollectorRun>)
    ensures forall k :: FirstSuccess(d, runs, k) ==> ObservedAt(d, runs) == runs[k].collectedAt
    ensures (forall k :: !FirstSuccess(d, runs, k)) ==> ObservedAt(d, runs) == 0
  {
    if runs == [] {
    } else if runs[0].collector == d && runs[0].success {
      assert FirstSuccess(d, runs, 0);
    } else {
      ObservedIsFirstSuccess(d, runs[1..]);
      forall k
        ensures FirstSuccess(d, runs, k) <==> FirstSuccess(d, runs[1..], k - 1)
      {
        if FirstSuccess(d, runs, k) {
          assert forall j :: 0 <= j < k - 1 ==> runs[1..][j] == runs[j + 1];
        }
        if FirstSuccess(d, runs[1..], k - 1) {
          assert forall j :: 0 < j < k ==> runs[j] == runs[1..][j - 1];
        }
      }
      if k :| FirstSuccess(d, runs[1..], k) {
        assert FirstSuccess(d, runs, k + 1);
      }
    }
  }

  // A domain last observed at this time is usable by its age alone: any age without a known
  // interval, and otherwise up to the interval times the factor, which is 3 unless the
  // configuration names a positive one. A limit below one time unit counts as none.
  ghost predicate YoungEnough(config: Config, d: Domain, age: int)
  {
    var interval := if d in config.intervals then config.intervals[d] else 0;
    && (interval > 0 && config.stalenessFactor <= 0.0 ==> age <= 3 * interval)
    && (interval > 0 && config.stalenessFactor > 0.0 && Limit(interval, config.stalenessFactor) >= 1.0 ==>
          age as real <= Limit(interval, config.stalenessFactor))
  }

  function Limit(interval: int, factor: real): real
  {
    interval as real * factor
  }

  lemma BudgetMeans(config: Config, d: Domain, age: int)
    ensures config.StalenessBudget(d) > 0 && age > config.StalenessBudget(d) <==> !YoungEnough(config, d, age)
  {
    if d in config.intervals && config.intervals[d] > 0 {
      var limit := Limit(config.intervals[d], if config.stalenessFactor <= 0.0 then 3.0 else config.stalenessFactor);
      assert config.StalenessBudget(d) == limit.Floor;
      assert limit.Floor as real <= limit < limit.Floor as real + 1.0;
      if config.stalenessFactor <= 0.0 {
        ThreeTimes(config.intervals[d]);
      }
    }
  }

  lemma ThreeTimes(interval: int)
    ensures Limit(interval, 3.0) == (3 * interval) as real && Limit(interval, 3.0).Floor == 3 * interval
  {
  }

  // What resolution makes of a domain, in terms of its lookups alone.
  lemma ResolvedExactly(config: Config, now: int, d: Domain, lookup: DomainLookup, k: int)
    requires lookup.snapshot.Got? && lookup.runs.Some? && FirstSuccess(d, lookup.runs.value, k)
    requires lookup.runs.value[k].collectedAt != 0
    ensures var entry, at := Resolved(config, now, d, lookup), lookup.runs.value[k].collectedAt;
            && entry.present && entry.snapshotId == lookup.snapshot.value && entry.capturedAt == at && entry.age == now - at
            && (entry.Usable() <==> YoungEnough(config, d, now - at))
  {
    ObservedIsFirstSuccess(d, lookup.runs.value);
    BudgetMeans(config, d, now - lookup.runs.value[k].collectedAt);
  }

  // Without a snapshot, its runs, or a success among them there is no coverage at all.
  lemma UnresolvedExactly(config: Config, now: int, d: Domain, lookup: DomainLookup)
    ensures Resolved(config, now, d, lookup).present <==>
      lookup.snapshot.Got? && lookup.runs.Some? &&
      exists k :: FirstSuccess(d, lookup.runs.value, k) && lookup.runs.value[k].collectedAt != 0
  {
    if lookup.runs.Some? {
      ObservedIsFirstSuccess(d, lookup.runs.value);
    }
  }

  lemma ResolvedUsable(config: Config, now: int, d: Domain, lookup: DomainLookup)
    ensures Resolved(config, now, d, lookup).Usable() <==> FreshlyObserved(config, now, d, lookup)
    ensures Resolved(config, now, d, lookup).present <==> Resolved(config, now, d, lookup).snapshotId != 0
  {
  }

  // ----- The reads behind an analysis -----

  // A document and the lists read with it, in order: each read works or fails. An empty
  // list of blocked or long-running queries is an answer.
  datatype Document = Document(main: Read<()>, lists: seq<bool>) {
    predicate Complete()
    {
      main.Got? && false !in lists
    }
  }

  // The first seven are reads of lists and of one figure, which may come back empty; the
  // second table read and the query half of the cache analysis are performed on demand.
  // sizeHistory is None when its read failed. The settings' value says whether they hold
  // statement statistics, and the baseline is Nothing when there is no earlier snapshot
  // to count evictions against, or none that can be compared.
  datatype Reads = Reads(
    slowQueries: Read<()>,
    cache: Read<()>,
    queryCache: Read<()>,
    tables: Read<()>,
    bloat: Read<()>,
    tablesAgain: Read<()>,
    indexes: Read<()>,
    activity: Document,
    connectionPeak: Read<()>,
    locks: Document,
    transactions: Document,
    queryPlans: Document,
    outageRisk: Read<()>,
    sizeHistory: Option<seq<SizeTrend.Sample>>,
    growingTables: bool,
    settings: Read<bool>,
    settingsBaseline: Read<()>)

  type CoverageMap = map<Domain, DomainCoverage>

  function SnapshotFor(coverage: CoverageMap, d: Domain): nat
  {
    if d in coverage then coverage[d].snapshotId else 0
  }

  predicate UsableIn(coverage: CoverageMap, d: Domain)
  {
    d in coverage && coverage[d].Usable()
  }

  // Whether no read that an analysis performs behind domain d invalidates it. A document
  // must be there and complete; the other reads must only not fail. A read whose domain
  // has no snapshot is not performed; the table read is tried once more without bloat
  // data; the connection peak may even fail.
  predicate ReadsHold(coverage: CoverageMap, found: Reads, d: Domain)
  {
    match d
    case QueryStats =>
      SnapshotFor(coverage, QueryStats) != 0 ==>
        !found.slowQueries.Failed? && (QueryCacheRead(coverage, found) ==> !found.queryCache.Failed?)
    case TableStats => TablesHold(coverage, found)
    case Bloat =>
      SnapshotFor(coverage, TableStats) != 0 ==> JointTableRead(coverage, found)
    case IndexStats => SnapshotFor(coverage, IndexStats) != 0 ==> !found.indexes.Failed?
    case Activity => SnapshotFor(coverage, Activity) != 0 ==> found.activity.Complete()
    case Locks => SnapshotFor(coverage, Locks) != 0 ==> found.locks.Complete()
    case DatabaseStats =>
      SnapshotFor(coverage, DatabaseStats) != 0 ==> !found.cache.Failed? && found.transactions.Complete()
    case QueryPlans => SnapshotFor(coverage, QueryPlans) != 0 ==> found.queryPlans.Complete()
    case OutageRisk => SnapshotFor(coverage, OutageRisk) != 0 ==> RiskComplete(coverage, found)
    case Settings => SnapshotFor(coverage, Settings) != 0 ==> SettingsComplete(found)
  }

  predicate QueryCacheRead(coverage: CoverageMap, found: Reads)
  {
    && SnapshotFor(coverage, DatabaseStats) != 0 && !found.cache.Failed?
    && SnapshotFor(coverage, QueryStats) != 0 && UsableIn(coverage, QueryStats) && !found.slowQueries.Failed?
  }

  // One pass over table statistics, and over bloat when it has a snapshot.
  predicate JointTableRead(coverage: CoverageMap, found: Reads)
  {
    !found.tables.Failed? && (SnapshotFor(coverage, Bloat) != 0 ==> !found.bloat.Failed?)
  }

  predicate TablesHold(coverage: CoverageMap, found: Reads)
  {
    SnapshotFor(coverage, TableStats) != 0 ==> JointTableRead(coverage, found) || !found.tablesAgain.Failed?
  }

  // A growth trend can be fitted to the size history.
  predicate TrendFound(found: Reads)
  {
    found.sizeHistory.Some? && SizeTrend.LongEnough(found.sizeHistory.value)
  }

  // Tables are compared only to explain a trend, and only on usable table statistics.
  predicate RiskComplete(coverage: CoverageMap, found: Reads)
  {
    && found.outageRisk.Got? && found.sizeHistory.Some?
    && (TrendFound(found) && UsableIn(coverage, TableStats) && TablesHold(coverage, found) ==> found.growingTables)
  }

  predicate BaselineWanted(found: Reads)
  {
    found.settings.Got? && found.settings.value
  }

  predicate SettingsComplete(found: Reads)
  {
    found.settings.Got? && (BaselineWanted(found) ==> !found.settingsBaseline.Failed?)
  }

  // The query half of the cache analysis writes into the result of the first half. When
  // that half found nothing there is none to write into, and the process ends.
  predicate Crashes(coverage: CoverageMap, found: Reads)
  {
    QueryCacheRead(coverage, found) && found.cache.Nothing? && !found.queryCache.Failed?
  }

  // ----- What a usable domain is worth -----

  // The document is there, and so is every list read with it.
  predicate AllRead(document: Document)
  {
    document.main.Got? && forall i :: 0 <= i < |document.lists| ==> document.lists[i]
  }

  // Every read behind d was performed and returned data.
  predicate ReadWithData(coverage: CoverageMap, found: Reads, d: Domain)
  {
    && SnapshotFor(coverage, d) != 0
    && match d
       case QueryStats => found.slowQueries.Got? && (QueryCacheRead(coverage, found) ==> found.queryCache.Got?)
       case TableStats => if JointTableRead(coverage, found) then found.tables.Got? else found.tablesAgain.Got?
       case Bloat => SnapshotFor(coverage, TableStats) != 0 && found.tables.Got? && found.bloat.Got?
       case IndexStats => found.indexes.Got?
       case Activity => AllRead(found.activity) && found.connectionPeak.Got?
       case Locks => AllRead(found.locks)
       case DatabaseStats => found.cache.Got? && AllRead(found.transactions)
       case QueryPlans => AllRead(found.queryPlans)
       case OutageRisk =>
         && found.outageRisk.Got? && found.sizeHistory.Some? && SizeTrend.LongEnough(found.sizeHistory.value)
         && (UsableIn(coverage, TableStats) && TablesHold(coverage, found) ==> found.growingTables)
       case Settings => found.settings.Got? && (found.settings.value ==> found.settingsBaseline.Got?)
  }

  // Some read behind d that is not a document returned nothing, or too little for a trend.
  // The code does not count that against the domain: an empty list of indexes may be the
  // truth.
  predicate CameBackEmpty(coverage: CoverageMap, found: Reads, d: Domain)
  {
    match d
    case QueryStats => found.slowQueries.Nothing? || (QueryCacheRead(coverage, found) && found.queryCache.Nothing?)
    case TableStats => if JointTableRead(coverage, found) then found.tables.Nothing? else found.tablesAgain.Nothing?
    case Bloat => SnapshotFor(coverage, TableStats) != 0 && (found.tables.Nothing? || found.bloat.Nothing?)
    case IndexStats => found.indexes.Nothing?
    case Activity => found.connectionPeak.Nothing?
    case DatabaseStats => found.cache.Nothing?
    case OutageRisk => found.sizeHistory.Some? && !TrendFound(found)
    case Settings => BaselineWanted(found) && found.settingsBaseline.Nothing?
    case _ => false
  }

  // Bloat is read together with table statistics, or not at all.
  predicate NeverRead(coverage: CoverageMap, d: Domain)
  {
    d == Bloat && SnapshotFor(coverage, TableStats) == 0
  }

  // A failed read of the connection peak leaves the current figures standing.
  predicate PeakUnread(found: Reads, d: Domain)
  {
    d == Activity && found.connectionPeak.Failed?
  }

  // The three ways a domain can end up usable without all its data behind it.
  predicate Blind(coverage: CoverageMap, found: Reads, d: Domain)
  {
    CameBackEmpty(coverage, found, d) || NeverRead(coverage, d) || PeakUnread(found, d)
  }

  class Analysis {
    var coverage: CoverageMap

    constructor ()
      ensures coverage == map[]
    {
      coverage := map[];
    }

    // resolveDomains
    method ResolveDomains(config: Config, now: int, lookups: Domain -> DomainLookup)
      modifies this
      ensures forall d :: d in coverage && coverage[d] == Resolved(config, now, d, lookups(d))
    {
      coverage := map[];
      for i := 0 to |ALL_DOMAINS|
        invariant forall d :: d in coverage <==> d in ALL_DOMAINS[..i]
        invariant forall d :: d in coverage ==> coverage[d] == Resolved(config, now, d, lookups(d))
      {
        var d := ALL_DOMAINS[i];
        assert ALL_DOMAINS[..i + 1] == ALL_DOMAINS[..i] + [d];
        var entry := ResolveDomain(config, now, d, lookups(d));
        coverage := coverage[d := entry];
      }
      AllDomainsListed();
      assert ALL_DOMAINS[..|ALL_DOMAINS|] == ALL_DOMAINS;
    }

    // The loop body of resolveDomains.
    method ResolveDomain(config: Config, now: int, d: Domain, lookup: DomainLookup)
      returns (entry: DomainCoverage)
      ensures entry == Resolved(config, now, d, lookup)
    {
      if !lookup.snapshot.Got? || lookup.runs.None? {
        return NotObserved;
      }
      var observedAt := FindObserved(d, lookup.runs.value);
      if observedAt == 0 {
        return NotObserved;
      }
      var age := now - observedAt;
      var budget := config.StalenessBudget(d);
      return DomainCoverage(true, lookup.snapshot.value, observedAt, age, budget > 0 && age > budget);
    }

    // invalidateDomain
    method Invalidate(d: Domain)
      requires d in coverage
      modifies this`coverage
      ensures coverage == WithStale(old(coverage), {d})
    {
      coverage := coverage[d := coverage[d].(stale := true)];
    }

    // The same, keeping count of all domains invalidated so far.
    method InvalidateAfter(d: Domain, ghost c: CoverageMap, ghost failed: set<Domain>)
      requires d in coverage && coverage == WithStale(c, failed)
      modifies this
      ensures coverage == WithStale(c, failed + {d})
    {
      StaleAddsAll(c, failed, {d});
      Invalidate(d);
    }

    method ReadDocumentAfter(d: Domain, document: Document, ghost c: CoverageMap, ghost failed: set<Domain>)
      requires d in coverage && coverage == WithStale(c, failed)
      modifies this
      ensures coverage == WithStale(c, failed + Spoiled(c, d, document.Complete()))
    {
      StaleKeeps(c, failed, d);
      StaleAddsAll(c, failed, Spoiled(c, d, document.Complete()));
      ReadDocument(d, document);
    }

    // A read of one domain's document: an error or a missing document invalidates it.
    method ReadDocument(d: Domain, document: Document)
      requires d in coverage
      modifies this
      ensures coverage == WithStale(old(coverage), Spoiled(old(coverage), d, document.Complete()))
    {
      WithStaleNothing(coverage);
      if SnapshotFor(coverage, d) == 0 {
        return;
      }
      if !document.main.Got? {
        Invalidate(d);
        return;
      }
      for i := 0 to |document.lists|
        invariant coverage == old(coverage)
        invariant false !in document.lists[..i]
      {
        assert document.lists[..i + 1] == document.lists[..i] + [document.lists[i]];
        if !document.lists[i] {
          assert false in document.lists;
          Invalidate(d);
          return;
        }
      }
      assert document.lists[..|document.lists|] == document.lists;
    }

    // analyzeRisk: the document, the size history and, behind a trend, the table sizes.
    method ReadRisk(ghost c: CoverageMap, ghost failed: set<Domain>, found: Reads)
      requires (forall d :: d in c) && coverage == WithStale(c, failed)
      requires TableStats in failed <==> !TablesHold(c, found)
      modifies this
      ensures coverage == WithStale(c, failed + Spoiled(c, OutageRisk, RiskComplete(c, found)))
    {
      StaleKeeps(c, failed, OutageRisk);
      StaleKeeps(c, failed, TableStats);
      assert failed + {} == failed;
      if SnapshotFor(coverage, OutageRisk) == 0 {
        return;
      }
      var ok := found.outageRisk.Got? && found.sizeHistory.Some?;
      if ok {
        var trend := SizeTrend.FitSizeTrend(found.sizeHistory.value);
        if trend.Some? && UsableIn(coverage, TableStats) {
          ok := found.growingTables;
        }
      }
      if !ok {
        InvalidateAfter(OutageRisk, c, failed);
      }
    }

    // analyzeSettings: the document and, if it holds statement statistics, their baseline.
    method ReadSettings(ghost c: CoverageMap, ghost failed: set<Domain>, found: Reads)
      requires (forall d :: d in c) && coverage == WithStale(c, failed)
      modifies this
      ensures coverage == WithStale(c, failed + Spoiled(c, Settings, SettingsComplete(found)))
    {
      StaleKeeps(c, failed, Settings);
      assert failed + {} == failed;
      if SnapshotFor(coverage, Settings) == 0 {
        return;
      }
      if !found.settings.Got? || (found.settings.value && found.settingsBaseline.Failed?) {
        InvalidateAfter(Settings, c, failed);
      }
    }

    // Analyze, from the resolved domains on. crashed: it ended the process.
    method Analyze(found: Reads) returns (crashed: bool)
      requires forall d :: d in coverage
      modifies this
      ensures crashed <==> Crashes(old(coverage), found)
      ensures !crashed ==> coverage == WithStale(old(coverage), FailedDomains(old(coverage), found))
    {
      ghost var c := coverage;
      WithStaleNothing(c);
      crashed := AnalyzeQueries(c, found);
      if crashed {
        return;
      }
      AnalyzeRelations(c, FailedQueries(c, found), found);
      AnalyzeOperational(c, FailedQueries(c, found) + FailedRelations(c, found), found);
      FailuresCovered(c, found);
    }

    // Slow queries and cache ratios.
    method AnalyzeQueries(ghost c: CoverageMap, found: Reads) returns (crashed: bool)
      requires (forall d :: d in c) && coverage == c
      modifies this
      ensures crashed <==> Crashes(c, found)
      ensures !crashed ==> coverage == WithStale(c, FailedQueries(c, found))
    {
      ghost var failed: set<Domain> := {};
      WithStaleNothing(c);
      if SnapshotFor(coverage, QueryStats) != 0 && found.slowQueries.Failed? {
        InvalidateAfter(QueryStats, c, failed);
        failed := failed + {QueryStats};
      }
      StaleKeeps(c, failed, DatabaseStats);
      StaleKeeps(c, failed, QueryStats);
      if SnapshotFor(coverage, DatabaseStats) != 0 {
        if found.cache.Failed? {
          InvalidateAfter(DatabaseStats, c, failed);
          failed := failed + {DatabaseStats};
        } else if SnapshotFor(coverage, QueryStats) != 0 && UsableIn(coverage, QueryStats) {
          if found.queryCache.Failed? {
            InvalidateAfter(QueryStats, c, failed);
            failed := failed + {QueryStats};
          } else if found.cache.Nothing? {
            return true;
          }
        }
      }
      assert failed == FailedQueries(c, found);
      return false;
    }

    // Tables with their bloat, and indexes.
    method AnalyzeRelations(ghost c: CoverageMap, ghost failed0: set<Domain>, found: Reads)
      requires (forall d :: d in c) && coverage == WithStale(c, failed0)
      modifies this
      ensures coverage == WithStale(c, failed0 + FailedRelations(c, found))
    {
      ghost var failed := failed0;
      StaleKeeps(c, failed, TableStats);
      StaleKeeps(c, failed, Bloat);
      if SnapshotFor(coverage, TableStats) != 0 {
        var ok := !found.tables.Failed? && (SnapshotFor(coverage, Bloat) == 0 || !found.bloat.Failed?);
        if !ok {
          InvalidateAfter(Bloat, c, failed);
          failed := failed + {Bloat};
          // Bloat alone may be to blame, so the tables get a second chance.
          if found.tablesAgain.Failed? {
            InvalidateAfter(TableStats, c, failed);
            failed := failed + {TableStats};
          }
        }
      }
      assert failed == failed0 + FailedTables(c, found);
      StaleKeeps(c, failed, IndexStats);
      if SnapshotFor(coverage, IndexStats) != 0 && found.indexes.Failed? {
        InvalidateAfter(IndexStats, c, failed);
        failed := failed + {IndexStats};
      }
      assert failed == failed0 + FailedRelations(c, found);
    }

    // analyzeOperational
    method AnalyzeOperational(ghost c: CoverageMap, ghost failed0: set<Domain>, found: Reads)
      requires (forall d :: d in c) && coverage == WithStale(c, failed0)
      requires TableStats in failed0 <==> !TablesHold(c, found)
      modifies this
      ensures coverage == WithStale(c, failed0 + SpoiledDocuments(c, found))
    {
      ghost var f1 := failed0 + SpoiledSamples(c, found);
      ghost var f2 := f1 + Spoiled(c, OutageRisk, RiskComplete(c, found));
      AnalyzeSamples(c, failed0, found);
      SamplesSpareTables(c, found);
      ReadRisk(c, f1, found);
      ReadSettings(c, f2, found);
      assert f2 + Spoiled(c, Settings, SettingsComplete(found)) == failed0 + SpoiledDocuments(c, found);
    }

    // The first four of its reads.
    method AnalyzeSamples(ghost c: CoverageMap, ghost failed0: set<Domain>, found: Reads)
      requires (forall d :: d in c) && coverage == WithStale(c, failed0)
      modifies this
      ensures coverage == WithStale(c, failed0 + SpoiledSamples(c, found))
    {
      ghost var f1 := failed0 + Spoiled(c, Activity, found.activity.Complete());
      ghost var f2 := f1 + Spoiled(c, Locks, found.locks.Complete());
      ghost var f3 := f2 + Spoiled(c, DatabaseStats, found.transactions.Complete());
      ReadDocumentAfter(Activity, found.activity, c, failed0);
      // The connection peak is read here; whatever comes of it, activity keeps its standing.
      ReadDocumentAfter(Locks, found.locks, c, f1);
      ReadDocumentAfter(DatabaseStats, found.transactions, c, f2);
      ReadDocumentAfter(QueryPlans, found.queryPlans, c, f3);
      assert f3 + Spoiled(c, QueryPlans, found.queryPlans.Complete()) == failed0 + SpoiledSamples(c, found);
    }
  }

  lemma AllDomainsListed()
    ensures forall d: Domain :: d in ALL_DOMAINS
  {
    forall d: Domain
      ensures d in ALL_DOMAINS
    {
      match d
      case QueryStats => assert ALL_DOMAINS[0] == d;
      case TableStats => assert ALL_DOMAINS[1] == d;
      case IndexStats => assert ALL_DOMAINS[2] == d;
      case Bloat => assert ALL_DOMAINS[3] == d;
      case Activity => assert ALL_DOMAINS[4] == d;
      case Locks => assert ALL_DOMAINS[5] == d;
      case DatabaseStats => assert ALL_DOMAINS[6] == d;
      case OutageRisk => assert ALL_DOMAINS[7] == d;
      case QueryPlans => assert ALL_DOMAINS[8] == d;
      case Settings => assert ALL_DOMAINS[9] == d;
    }
  }

  // Coverage with the domains of s invalidated. Nothing else about them changes, and
  // nothing ever makes one fresh again.
  function WithStale(c: CoverageMap, s: set<Domain>): CoverageMap
  {
    map d | d in c :: if d in s then c[d].(stale := true) else c[d]
  }

  lemma WithStaleNothing(c: CoverageMap)
    ensures WithStale(c, {}) == c
  {
  }

  lemma StaleAddsAll(c: CoverageMap, s: set<Domain>, t: set<Domain>)
    ensures WithStale(WithStale(c, s), t) == WithStale(c, s + t)
  {
  }

  lemma StaleKeeps(c: CoverageMap, s: set<Domain>, d: Domain)
    ensures SnapshotFor(WithStale(c, s), d) == SnapshotFor(c, d)
    ensures UsableIn(WithStale(c, s), d) <==> UsableIn(c, d) && d !in s
  {
  }

  // The domain a document read invalidates, if any.
  function Spoiled(c: CoverageMap, d: Domain, complete: bool): set<Domain>
  {
    if SnapshotFor(c, d) != 0 && !complete then {d} else {}
  }

  function SpoiledSamples(c: CoverageMap, found: Reads): set<Domain>
  {
    Spoiled(c, Activity, found.activity.Complete()) + Spoiled(c, Locks, found.locks.Complete()) +
    Spoiled(c, DatabaseStats, found.transactions.Complete()) + Spoiled(c, QueryPlans, found.queryPlans.Complete())
  }

  function SpoiledDocuments(c: CoverageMap, found: Reads): set<Domain>
  {
    SpoiledSamples(c, found) +
    Spoiled(c, OutageRisk, RiskComplete(c, found)) + Spoiled(c, Settings, SettingsComplete(found))
  }

  lemma SamplesSpareTables(c: CoverageMap, found: Reads)
    ensures TableStats !in SpoiledSamples(c, found)
  {
  }

  function FailedQueries(c: CoverageMap, found: Reads): set<Domain>
  {
    (if ReadsHold(c, found, QueryStats) then {} else {QueryStats}) +
    (if SnapshotFor(c, DatabaseStats) != 0 && found.cache.Failed? then {DatabaseStats} else {})
  }

  function FailedRelations(c: CoverageMap, found: Reads): set<Domain>
  {
    FailedTables(c, found) + if ReadsHold(c, found, IndexStats) then {} else {IndexStats}
  }

  function FailedTables(c: CoverageMap, found: Reads): set<Domain>
  {
    (if ReadsHold(c, found, TableStats) then {} else {TableStats}) +
    (if ReadsHold(c, found, Bloat) then {} else {Bloat})
  }

  ghost function FailedDomains(c: CoverageMap, found: Reads): set<Domain>
  {
    set d | d in c && !ReadsHold(c, found, d)
  }

  predicate DocumentHolds(c: CoverageMap, found: Reads, d: Domain)
  {
    match d
    case Activity => SnapshotFor(c, Activity) != 0 ==> found.activity.Complete()
    case Locks => SnapshotFor(c, Locks) != 0 ==> found.locks.Complete()
    case DatabaseStats => SnapshotFor(c, DatabaseStats) != 0 ==> found.transactions.Complete()
    case QueryPlans => SnapshotFor(c, QueryPlans) != 0 ==> found.queryPlans.Complete()
    case OutageRisk => SnapshotFor(c, OutageRisk) != 0 ==> RiskComplete(c, found)
    case Settings => SnapshotFor(c, Settings) != 0 ==> SettingsComplete(found)
    case _ => true
  }

  lemma DocumentFailures(c: CoverageMap, found: Reads, d: Domain)
    ensures d in SpoiledDocuments(c, found) <==> !DocumentHolds(c, found, d)
  {
  }

  lemma QueryFailures(c: CoverageMap, found: Reads, d: Domain)
    ensures d in FailedQueries(c, found) <==>
            || (d == QueryStats && !ReadsHold(c, found, QueryStats))
            || (d == DatabaseStats && SnapshotFor(c, DatabaseStats) != 0 && found.cache.Failed?)
  {
  }

  lemma RelationFailures(c: CoverageMap, found: Reads, d: Domain)
    ensures d in FailedRelations(c, found) <==> (d == TableStats || d == Bloat || d == IndexStats) && !ReadsHold(c, found, d)
  {
  }

  lemma ReadsHoldByPart(c: CoverageMap, found: Reads, d: Domain)
    ensures ReadsHold(c, found, d) <==>
            && DocumentHolds(c, found, d)
            && !(d == QueryStats && !ReadsHold(c, found, QueryStats))
            && !(d == DatabaseStats && SnapshotFor(c, DatabaseStats) != 0 && found.cache.Failed?)
            && !((d == TableStats || d == Bloat || d == IndexStats) && !ReadsHold(c, found, d))
  {
  }

  lemma FailuresCovered(c: CoverageMap, found: Reads)
    requires forall d :: d in c
    ensures FailedQueries(c, found) + FailedRelations(c, found) + SpoiledDocuments(c, found) == FailedDomains(c, found)
  {
    var all := FailedQueries(c, found) + FailedRelations(c, found) + SpoiledDocuments(c, found);
    forall d: Domain
      ensures d in all <==> d in FailedDomains(c, found)
    {
      DocumentFailures(c, found, d);
      QueryFailures(c, found, d);
      RelationFailures(c, found, d);
      ReadsHoldByPart(c, found, d);
    }
  }

  // What an analysis leaves usable: exactly the domains that were freshly observed and
  // that no read invalidated. Invalidation is never undone.
  lemma UsableExactly(c: CoverageMap, found: Reads, d: Domain)
    requires d in c
    ensures UsableIn(WithStale(c, FailedDomains(c, found)), d) <==> UsableIn(c, d) && ReadsHold(c, found, d)
    ensures c[d].stale ==> WithStale(c, FailedDomains(c, found))[d].stale
  {
  }

  // A resolved coverage: what is present has a snapshot.
  predicate HasSnapshots(c: CoverageMap)
  {
    forall d :: d in c ==> (c[d].present <==> c[d].snapshotId != 0)
  }

  // Which usable domains have all their data behind them: all but those one of whose reads
  // came back empty, a bloat domain that was never read, and activity without its peak.
  lemma UsableHasDataExactly(c: CoverageMap, found: Reads, d: Domain)
    requires HasSnapshots(c) && d in c && UsableIn(WithStale(c, FailedDomains(c, found)), d)
    ensures ReadWithData(c, found, d) <==> !Blind(c, found, d)
  {
    UsableExactly(c, found, d);
  }

  // A domain that was freshly observed and read with data is always usable.
  lemma DataIsUsable(c: CoverageMap, found: Reads, d: Domain)
    requires d in c && UsableIn(c, d) && ReadWithData(c, found, d)
    ensures UsableIn(WithStale(c, FailedDomains(c, found)), d) && !Blind(c, found, d)
  {
    UsableExactly(c, found, d);
  }

  // A fresh domain under some snapshot.
  const Fresh := DomainCoverage(true, 1, 1, 0, false)

  // The cache ratio's snapshot is gone, everything else is read completely, and database
  // statistics stay usable.
  lemma EmptyCacheReadStaysUsable(c: CoverageMap, found: Reads)
    requires c == map d | d in ALL_DOMAINS :: if d == DatabaseStats then Fresh else NotObserved
    requires found.cache.Nothing? && found.transactions.Complete()
    ensures !Crashes(c, found)
    ensures UsableIn(WithStale(c, FailedDomains(c, found)), DatabaseStats) && !ReadWithData(c, found, DatabaseStats)
  {
    assert ALL_DOMAINS[6] == DatabaseStats;
    UsableExactly(c, found, DatabaseStats);
  }

  // With query statistics usable too, the same missing snapshot ends the process.
  lemma EmptyCacheReadCrashes(c: CoverageMap, found: Reads)
    requires c == map d | d in ALL_DOMAINS :: if d == DatabaseStats || d == QueryStats then Fresh else NotObserved
    requires found.cache.Nothing? && found.slowQueries.Got? && found.queryCache.Got?
    ensures Crashes(c, found)
  {
    assert ALL_DOMAINS[6] == DatabaseStats && ALL_DOMAINS[0] == QueryStats;
  }

  // It takes an empty cache read and query statistics that were fresh and read.
  lemma CrashMeans(c: CoverageMap, found: Reads)
    requires Crashes(c, found)
    ensures found.cache.Nothing? && UsableIn(c, QueryStats) && !found.slowQueries.Failed?
    ensures SnapshotFor(c, DatabaseStats) != 0 && SnapshotFor(c, QueryStats) != 0
  {
  }

  // Bloat was observed but table statistics never were: whatever the reads would have
  // returned, bloat stays usable although nothing was read.
  lemma UnreadBloatStaysUsable(c: CoverageMap, found: Reads)
    requires c == map d | d in ALL_DOMAINS :: if d == Bloat then Fresh else NotObserved
    ensures UsableIn(WithStale(c, FailedDomains(c, found)), Bloat) && !ReadWithData(c, found, Bloat)
  {
    assert ALL_DOMAINS[3] == Bloat && ALL_DOMAINS[1] == TableStats;
    UsableExactly(c, found, Bloat);
  }

  // After an outage longer than the trend window the first sample stands alone, so there is
  // no trend; the outage-risk domain stays usable all the same.
  lemma LoneSizeSampleStaysUsable(c: CoverageMap, found: Reads, sample: SizeTrend.Sample)
    requires c == map d | d in ALL_DOMAINS :: if d == OutageRisk then Fresh else NotObserved
    requires found.outageRisk.Got? && found.sizeHistory == Some([sample])
    ensures UsableIn(WithStale(c, FailedDomains(c, found)), OutageRisk) && !ReadWithData(c, found, OutageRisk)
  {
    assert ALL_DOMAINS[7] == OutageRisk;
    UsableExactly(c, found, OutageRisk);
  }
}
