/** One tick of the analysis loop (internal/scheduler/loops.go): analyse, then suggest. It
    ties what the storage reads returned to what may be marked resolved. */
module AnalysisCycle {
  import opened Common
  import opened Coverage
  import opened SuggestionStore
  import opened Suggester

  ghost function ResolvedCoverage(config: Config, now: int, lookups: Domain -> DomainLookup): CoverageMap
  {
    map d | d in ALL_DOMAINS :: Coverage.Resolved(config, now, d, lookups(d))
  }

  // Positive evidence about a domain: a fresh successful run of its collector, and data
  // from every read behind it.
  ghost predicate InSight(config: Config, now: int, lookups: Domain -> DomainLookup, found: Reads, d: Domain)
  {
    && FreshlyObserved(config, now, d, lookups(d))
    && ReadWithData(ResolvedCoverage(config, now, lookups), found, d)
  }

  // What the code takes for evidence too: a fresh run and no read that counts against the
  // domain, although one came back empty, the connection peak failed, or bloat was not
  // read at all.
  ghost predicate BlindSpot(config: Config, now: int, lookups: Domain -> DomainLookup, found: Reads, d: Domain)
  {
    && FreshlyObserved(config, now, d, lookups(d))
    && ReadsHold(ResolvedCoverage(config, now, lookups), found, d)
    && Blind(ResolvedCoverage(config, now, lookups), found, d)
  }

  ghost predicate AllInSight(config: Config, now: int, lookups: Domain -> DomainLookup, found: Reads, domains: seq<Domain>)
  {
    forall d :: d in domains ==> InSight(config, now, lookups, found, d)
  }

  ghost predicate SomeBlindSpot(config: Config, now: int, lookups: Domain -> DomainLookup, found: Reads, domains: seq<Domain>)
  {
    exists d :: d in domains && BlindSpot(config, now, lookups, found, d)
  }

  // The domains a rule is evaluated on.
  ghost predicate AllTrusted(config: Config, now: int, lookups: Domain -> DomainLookup, found: Reads, domains: seq<Domain>)
  {
    forall d :: d in domains ==> InSight(config, now, lookups, found, d) || BlindSpot(config, now, lookups, found, d)
  }

  // The rule would have reported the suggestion had it still been there.
  ghost predicate Silent(r: Rule, row: Row)
  {
    && r.id == row.rule && r.evaluation.Emits?
    && !EmittedIn(r.evaluation.suggestions, row.rule, row.target)
    && !HasAnyPrefix(row.target, r.evaluation.unobserved)
  }

  // A rule of the suggestion's id succeeded on domains that were all fresh and read with
  // data, did not report it, and did not declare its target unobserved.
  ghost predicate Cleared(config: Config, now: int, lookups: Domain -> DomainLookup, found: Reads, rules: seq<Rule>, row: Row)
  {
    exists r :: r in rules && Silent(r, row) && AllInSight(config, now, lookups, found, r.required)
  }

  // The same with a blind spot among the domains.
  ghost predicate ClearedBlindly(config: Config, now: int, lookups: Domain -> DomainLookup, found: Reads, rules: seq<Rule>, row: Row)
  {
    exists r :: r in rules && Silent(r, row) && AllTrusted(config, now, lookups, found, r.required)
                && SomeBlindSpot(config, now, lookups, found, r.required)
  }

  ghost predicate OnlyOnEvidence(config: Config, now: int, lookups: Domain -> DomainLookup, found: Reads, rules: seq<Rule>,
                                 before: Row, after: Row)
  {
    && (before.status == Dismissed ==> after.status == Dismissed)
    && (after.status == Resolved && before.status != Resolved ==>
          before.status == Active
          && (Cleared(config, now, lookups, found, rules, before) || ClearedBlindly(config, now, lookups, found, rules, before)))
  }

  // The domains usable after an analysis are those in sight and the blind spots; no domain
  // is both.
  lemma UsableIsTrusted(config: Config, now: int, lookups: Domain -> DomainLookup, found: Reads, coverage: CoverageMap, d: Domain)
    requires var resolved := ResolvedCoverage(config, now, lookups);
             coverage == WithStale(resolved, FailedDomains(resolved, found))
    ensures UsableIn(coverage, d) <==>
            InSight(config, now, lookups, found, d) || BlindSpot(config, now, lookups, found, d)
    ensures !(InSight(config, now, lookups, found, d) && BlindSpot(config, now, lookups, found, d))
  {
    var resolved := ResolvedCoverage(config, now, lookups);
    AllDomainsListed();
    ResolvedHasSnapshots(config, now, lookups);
    ResolvedUsable(config, now, d, lookups(d));
    UsableExactly(resolved, found, d);
    if UsableIn(coverage, d) {
      UsableHasDataExactly(resolved, found, d);
    } else if InSight(config, now, lookups, found, d) {
      DataIsUsable(resolved, found, d);
    }
  }

  lemma ResolvedHasSnapshots(config: Config, now: int, lookups: Domain -> DomainLookup)
    ensures HasSnapshots(ResolvedCoverage(config, now, lookups))
  {
    forall d | d in ALL_DOMAINS
      ensures var entry := Coverage.Resolved(config, now, d, lookups(d)); entry.present <==> entry.snapshotId != 0
    {
      ResolvedUsable(config, now, d, lookups(d));
    }
  }

  lemma UsableRules(config: Config, now: int, lookups: Domain -> DomainLookup, found: Reads, coverage: CoverageMap, r: Rule)
    requires var resolved := ResolvedCoverage(config, now, lookups);
             coverage == WithStale(resolved, FailedDomains(resolved, found))
    ensures DomainsUsable(coverage, r.required) <==> AllTrusted(config, now, lookups, found, r.required)
    ensures AllTrusted(config, now, lookups, found, r.required) ==>
      AllInSight(config, now, lookups, found, r.required) || SomeBlindSpot(config, now, lookups, found, r.required)
  {
    forall d
      ensures UsableIn(coverage, d) <==> InSight(config, now, lookups, found, d) || BlindSpot(config, now, lookups, found, d)
    {
      UsableIsTrusted(config, now, lookups, found, coverage, d);
    }
  }

  lemma {:induction false} RanWasHeard(coverage: CoverageMap, rules: seq<Rule>, r: Rule, rule: string, target: string)
    requires r in rules && Ran(coverage, r) && EmittedIn(r.evaluation.suggestions, rule, target)
    ensures EmittedIn(AllEmissions(coverage, rules), rule, target)
  {
    var init, last := rules[..|rules| - 1], rules[|rules| - 1];
    var early := AllEmissions(coverage, init);
    var all := AllEmissions(coverage, rules);
    if r == last {
      var i :| 0 <= i < |r.evaluation.suggestions|
        && r.evaluation.suggestions[i].rule == rule && r.evaluation.suggestions[i].target == target;
      assert all[|early| + i] == r.evaluation.suggestions[i];
    } else {
      assert r in init;
      RanWasHeard(coverage, init, r, rule, target);
      var i :| 0 <= i < |early| && early[i].rule == rule && early[i].target == target;
      assert all[i] == early[i];
    }
  }

  lemma GoneIsCleared(config: Config, now: int, lookups: Domain -> DomainLookup, found: Reads, coverage: CoverageMap,
                      rules: seq<Rule>, row: Row)
    requires var resolved := ResolvedCoverage(config, now, lookups);
             coverage == WithStale(resolved, FailedDomains(resolved, found))
    requires Gone(coverage, rules, AllEmissions(coverage, rules), row)
    ensures Cleared(config, now, lookups, found, rules, row) || ClearedBlindly(config, now, lookups, found, rules, row)
  {
    var r :| r in rules && r.id == row.rule && Ran(coverage, r) && !HasAnyPrefix(row.target, r.evaluation.unobserved);
    UsableRules(config, now, lookups, found, coverage, r);
    if EmittedIn(r.evaluation.suggestions, row.rule, row.target) {
      RanWasHeard(coverage, rules, r, row.rule, row.target);
    }
    assert Silent(r, row);
  }

  // Every blind spot matters: a rule that reads only this domain, and so finds nothing to
  // report, has its active suggestions resolved without data.
  lemma BlindSpotLooksLikeRecovery(config: Config, now: int, lookups: Domain -> DomainLookup, found: Reads, d: Domain, row: Row)
    requires BlindSpot(config, now, lookups, found, d) && row.status == Active
    ensures var resolved := ResolvedCoverage(config, now, lookups);
            var coverage := WithStale(resolved, FailedDomains(resolved, found));
            var rules := [Rule(row.rule, [d], Emits([], []))];
            && Gone(coverage, rules, AllEmissions(coverage, rules), row)
            && !Cleared(config, now, lookups, found, rules, row)
  {
    var resolved := ResolvedCoverage(config, now, lookups);
    var coverage := WithStale(resolved, FailedDomains(resolved, found));
    var rule := Rule(row.rule, [d], Emits([], []));
    var rules := [rule];
    UsableIsTrusted(config, now, lookups, found, coverage, d);
    assert rules[0] == rule && rule.required[0] == d;
    assert Ran(coverage, rule) && AllEmissions(coverage, rules) == [];
    forall r | r in rules
      ensures !AllInSight(config, now, lookups, found, r.required)
    {
      assert r == rule && d in r.required;
    }
  }

  // The cache ratio's snapshot is gone: database statistics are a blind spot, for the rule
  // that watches the ratio among others.
  lemma EmptyCacheReadIsBlind(config: Config, now: int, lookups: Domain -> DomainLookup, found: Reads)
    requires FreshlyObserved(config, now, DatabaseStats, lookups(DatabaseStats))
    requires found.cache.Nothing? && found.transactions.Complete()
    ensures BlindSpot(config, now, lookups, found, DatabaseStats)
  {
  }

  // No query statistics came back, or their snapshot is gone.
  lemma EmptySlowQueryReadIsBlind(config: Config, now: int, lookups: Domain -> DomainLookup, found: Reads)
    requires FreshlyObserved(config, now, QueryStats, lookups(QueryStats))
    requires found.slowQueries.Nothing? && !found.queryCache.Failed?
    ensures BlindSpot(config, now, lookups, found, QueryStats)
  {
  }

  // The size history is shorter than a day: outage risk is a blind spot, for the rule that
  // forecasts disk growth.
  lemma ShortSizeHistoryIsBlind(config: Config, now: int, lookups: Domain -> DomainLookup, found: Reads)
    requires FreshlyObserved(config, now, OutageRisk, lookups(OutageRisk))
    requires found.outageRisk.Got? && found.sizeHistory.Some? && !TrendFound(found)
    ensures BlindSpot(config, now, lookups, found, OutageRisk)
  {
  }

  // There is no earlier snapshot to count evictions against: server settings are one, for
  // the rule that counts them.
  lemma MissingBaselineIsBlind(config: Config, now: int, lookups: Domain -> DomainLookup, found: Reads)
    requires FreshlyObserved(config, now, Settings, lookups(Settings))
    requires found.settings == Got(true) && found.settingsBaseline.Nothing?
    ensures BlindSpot(config, now, lookups, found, Settings)
  {
  }

  // The connection peak could not be read: activity is one, for the rule that watches it.
  lemma MissingPeakIsBlind(config: Config, now: int, lookups: Domain -> DomainLookup, found: Reads)
    requires FreshlyObserved(config, now, Activity, lookups(Activity))
    requires found.activity.Complete() && !found.connectionPeak.Got?
    ensures BlindSpot(config, now, lookups, found, Activity)
  {
  }

  // Missing data never looks like recovery, up to blind spots: whatever the reads returned,
  // and whatever users and failing statements do meanwhile, a tick resolves a suggestion
  // only on evidence, skips exactly the rules that lack it, and does nothing at all when
  // the analysis ended the process.
  method RunAnalysis(store: Store, snapshotFound: bool, config: Config, now: int, lookups: Domain -> DomainLookup,
                     found: Reads, rules: seq<Rule>, world: World)
    returns (skipped: Option<seq<string>>)
    requires store.Valid() && GoodRules(rules) && ColonFree(store.rows)
    modifies store
    ensures store.Valid() && ColonFree(store.rows)
    ensures !snapshotFound || Crashes(ResolvedCoverage(config, now, lookups), found) ==>
      store.rows == old(store.rows) && skipped.None?
    ensures forall id :: id in old(store.rows) ==>
      && id in store.rows && HasKey(store.rows[id], old(store.rows)[id].rule, old(store.rows)[id].target)
      && OnlyOnEvidence(config, now, lookups, found, rules, old(store.rows)[id], store.rows[id])
    ensures forall id :: id in store.rows && id !in old(store.rows) ==> store.rows[id].status != Resolved
    ensures skipped.Some? ==> forall id :: id in skipped.value <==>
      exists r :: r in rules && r.id == id && !AllTrusted(config, now, lookups, found, r.required)
  {
    if !snapshotFound {
      return None;
    }
    var analysis := new Analysis();
    analysis.ResolveDomains(config, now, lookups);
    AllDomainsListed();
    assert analysis.coverage == ResolvedCoverage(config, now, lookups);
    var crashed := analysis.Analyze(found);
    if crashed {
      return None;
    }
    var coverage := analysis.coverage;
    ghost var steps;
    ghost var before := store.rows;
    skipped, steps := Suggest(store, coverage, rules, now, world);
    forall r: Rule
      ensures DomainsUsable(coverage, r.required) <==> AllTrusted(config, now, lookups, found, r.required)
    {
      UsableRules(config, now, lookups, found, coverage, r);
    }
    forall id | id in before
      ensures OnlyOnEvidence(config, now, lookups, found, rules, before[id], store.rows[id])
    {
      assert MovedOnEvidence(store.rows, id, before[id], coverage, rules);
      if store.rows[id].status == Resolved && before[id].status != Resolved {
        GoneIsCleared(config, now, lookups, found, coverage, rules, before[id]);
      }
    }
  }

  // The domain was last seen too long ago, by the first success of its collector.
  ghost predicate TooOld(config: Config, now: int, d: Domain, lookup: DomainLookup)
  {
    lookup.runs.Some? && exists k ::
      FirstSuccess(d, lookup.runs.value, k) && !YoungEnough(config, d, now - lookup.runs.value[k].collectedAt)
  }

  lemma OldIsNotFresh(config: Config, now: int, d: Domain, lookup: DomainLookup)
    requires TooOld(config, now, d, lookup)
    ensures !FreshlyObserved(config, now, d, lookup)
  {
    var k :| FirstSuccess(d, lookup.runs.value, k) && !YoungEnough(config, d, now - lookup.runs.value[k].collectedAt);
    ObservedIsFirstSuccess(d, lookup.runs.value);
    BudgetMeans(config, d, now - lookup.runs.value[k].collectedAt);
  }

  // A rule that requires a domain last seen too long ago resolves nothing.
  lemma OldDataResolvesNothing(config: Config, now: int, lookups: Domain -> DomainLookup, found: Reads, rules: seq<Rule>,
                               before: Row, after: Row)
    requires OnlyOnEvidence(config, now, lookups, found, rules, before, after)
    requires forall r :: r in rules && r.id == before.rule ==> exists d :: d in r.required && TooOld(config, now, d, lookups(d))
    ensures after.status == Resolved ==> before.status == Resolved
  {
    forall r | r in rules && r.id == before.rule
      ensures !AllTrusted(config, now, lookups, found, r.required) && !AllInSight(config, now, lookups, found, r.required)
    {
      var d :| d in r.required && TooOld(config, now, d, lookups(d));
      OldIsNotFresh(config, now, d, lookups(d));
    }
  }

  // Without blind spots there is no exception left.
  lemma NoBlindSpots(config: Config, now: int, lookups: Domain -> DomainLookup, found: Reads, rules: seq<Rule>,
                     before: Row, after: Row)
    requires OnlyOnEvidence(config, now, lookups, found, rules, before, after)
    requires forall r :: r in rules ==> !SomeBlindSpot(config, now, lookups, found, r.required)
    ensures after.status == Resolved && before.status != Resolved ==> Cleared(config, now, lookups, found, rules, before)
  {
  }
}
