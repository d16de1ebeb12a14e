/** One Suggest cycle over the suggestions table (internal/suggester/suggester.go), with
    users dismissing suggestions between any two of its statements. */
module Suggester {
  import opened Common
  import opened Coverage
  import opened SuggestionStore

  // What a rule reports. convertible says whether the suggestion can be turned into a row.
  datatype Emission = Emission(rule: string, target: string, severity: string, convertible: bool)

  // A rule's evaluation: an error, or suggestions and the target prefixes it could not see.
  datatype Evaluation = Failed | Emits(suggestions: seq<Emission>, unobserved: seq<string>)

  datatype Rule = Rule(id: string, required: seq<Domain>, evaluation: Evaluation)

  // The surroundings of a cycle: which suggestions users dismiss just before its i-th
  // statement, and whether that statement fails.
  datatype World = World(dismissals: nat -> set<int>, fails: nat -> bool)

  predicate DomainsUsable(coverage: CoverageMap, domains: seq<Domain>)
  {
    forall d :: d in domains ==> UsableIn(coverage, d)
  }

  predicate HasAnyPrefix(s: string, prefixes: seq<string>)
  {
    exists i :: 0 <= i < |prefixes| && prefixes[i] <= s
  }

  function SuggestionKey(rule: string, target: string): string
  {
    JoinKey(rule, ':', target)
  }

  // Rule ids are unique and contain no colon; so do the ids rules put on what they emit.
  ghost predicate GoodRules(rules: seq<Rule>)
  {
    && (forall i, j :: 0 <= i < j < |rules| ==> rules[i].id != rules[j].id)
    && (forall r, e :: r in rules && r.evaluation.Emits? && e in r.evaluation.suggestions ==> ':' !in e.rule)
  }

  ghost predicate ColonFree(rows: Rows)
  {
    forall id :: id in rows ==> ':' !in rows[id].rule
  }

  predicate Ran(coverage: CoverageMap, r: Rule)
  {
    DomainsUsable(coverage, r.required) && r.evaluation.Emits?
  }

  // Everything the rules that ran reported, in order.
  function AllEmissions(coverage: CoverageMap, rules: seq<Rule>): seq<Emission>
  {
    if rules == [] then []
    else
      var last := rules[|rules| - 1];
      AllEmissions(coverage, rules[..|rules| - 1]) + if Ran(coverage, last) then last.evaluation.suggestions else []
  }

  ghost predicate EmittedIn(emissions: seq<Emission>, rule: string, target: string)
  {
    exists i :: 0 <= i < |emissions| && emissions[i].rule == rule && emissions[i].target == target
  }

  // A suggestion may be resolved by this cycle: its rule ran on usable data, and its
  // target was in sight.
  ghost predicate Eligible(coverage: CoverageMap, rules: seq<Rule>, rule: string, target: string)
  {
    exists r :: r in rules && r.id == rule && Ran(coverage, r) && !HasAnyPrefix(target, r.evaluation.unobserved)
  }

  // The dismissals users got in during the first n statements.
  ghost function Touched(world: World, n: nat): set<int>
  {
    if n == 0 then {} else Touched(world, n - 1) + world.dismissals(n - 1)
  }

  // Where a cycle leaves a suggestion that was there when it started.
  ghost function StatusAfterCycle(status: Status, dismissed: bool, emitted: bool, eligible: bool): Status
  {
    if status == Dismissed || dismissed then Dismissed
    else if emitted then Active
    else if status == Active && eligible then Resolved
    else status
  }

  // A row seen again: the same suggestion, with this status.
  ghost predicate Became(rows: Rows, id: int, before: Row, status: Status)
  {
    id in rows && HasKey(rows[id], before.rule, before.target) && rows[id].status == status
  }

  // ----- Gathering what the rules say -----

  datatype Gathered = Gathered(emissions: seq<Emission>, resolvable: set<string>, unobserved: map<string, seq<string>>,
                               skipped: seq<string>)

  ghost predicate RanWithId(coverage: CoverageMap, rules: seq<Rule>, id: string)
  {
    exists r :: r in rules && r.id == id && Ran(coverage, r)
  }

  ghost predicate SkippedWithId(coverage: CoverageMap, rules: seq<Rule>, id: string)
  {
    exists r :: r in rules && r.id == id && !DomainsUsable(coverage, r.required)
  }

  // The prefixes recorded for a rule; none when it reported none.
  function UnobservedFor(g: Gathered, id: string): seq<string>
  {
    if id in g.unobserved then g.unobserved[id] else []
  }

  ghost predicate GatheredFrom(coverage: CoverageMap, rules: seq<Rule>, g: Gathered)
  {
    && g.emissions == AllEmissions(coverage, rules)
    && (forall id :: id in g.resolvable <==> RanWithId(coverage, rules, id))
    && PrefixesFrom(coverage, rules, g)
    && (forall id :: id in g.skipped <==> SkippedWithId(coverage, rules, id))
  }

  function WithRule(g: Gathered, rule: Rule): Gathered
    requires rule.evaluation.Emits?
  {
    var g' := g.(emissions := g.emissions + rule.evaluation.suggestions, resolvable := g.resolvable + {rule.id});
    if |rule.evaluation.unobserved| > 0
    then g'.(unobserved := g.unobserved[rule.id := rule.evaluation.unobserved]) else g'
  }

  // What the loop body does with one rule.
  function Considered(coverage: CoverageMap, g: Gathered, rule: Rule): Gathered
  {
    if !DomainsUsable(coverage, rule.required) then g.(skipped := g.skipped + [rule.id])
    else if rule.evaluation.Failed? then g
    else WithRule(g, rule)
  }

  lemma EmissionsGrow(coverage: CoverageMap, rules: seq<Rule>, rule: Rule)
    ensures AllEmissions(coverage, rules + [rule]) ==
            AllEmissions(coverage, rules) + if Ran(coverage, rule) then rule.evaluation.suggestions else []
  {
    assert (rules + [rule])[..|rules|] == rules;
  }

  lemma RanGrows(coverage: CoverageMap, rules: seq<Rule>, rule: Rule, id: string)
    ensures RanWithId(coverage, rules + [rule], id) <==>
      RanWithId(coverage, rules, id) || (rule.id == id && Ran(coverage, rule))
  {
    assert forall r :: r in rules + [rule] <==> r in rules || r == rule;
  }

  lemma SkippedGrows(coverage: CoverageMap, rules: seq<Rule>, rule: Rule, id: string)
    ensures SkippedWithId(coverage, rules + [rule], id) <==>
      SkippedWithId(coverage, rules, id) || (rule.id == id && !DomainsUsable(coverage, rule.required))
  {
    assert forall r :: r in rules + [rule] <==> r in rules || r == rule;
  }

  lemma UnobservedGrows(g: Gathered, rule: Rule, id: string)
    requires rule.evaluation.Emits? && rule.id !in g.unobserved
    ensures UnobservedFor(WithRule(g, rule), id) == if id == rule.id then rule.evaluation.unobserved else UnobservedFor(g, id)
    ensures id in WithRule(g, rule).unobserved ==> id == rule.id || id in g.unobserved
  {
  }

  // The prefixes recorded for the rules that ran, and for no others.
  ghost predicate PrefixesFrom(coverage: CoverageMap, rules: seq<Rule>, g: Gathered)
  {
    && (forall r :: r in rules && Ran(coverage, r) ==> UnobservedFor(g, r.id) == r.evaluation.unobserved)
    && (forall id :: id in g.unobserved ==> RanWithId(coverage, rules, id))
  }

  lemma PrefixesGrow(coverage: CoverageMap, rules: seq<Rule>, rule: Rule, g: Gathered)
    requires PrefixesFrom(coverage, rules, g) && forall r :: r in rules ==> r.id != rule.id
    ensures PrefixesFrom(coverage, rules + [rule], Considered(coverage, g, rule))
  {
    var g' := Considered(coverage, g, rule);
    assert !RanWithId(coverage, rules, rule.id);
    forall r | r in rules + [rule] && Ran(coverage, r)
      ensures UnobservedFor(g', r.id) == r.evaluation.unobserved
    {
      if Ran(coverage, rule) {
        UnobservedGrows(g, rule, r.id);
      }
      if r != rule {
        assert r in rules;
      }
    }
    forall id | id in g'.unobserved
      ensures RanWithId(coverage, rules + [rule], id)
    {
      if Ran(coverage, rule) {
        UnobservedGrows(g, rule, id);
      }
      RanGrows(coverage, rules, rule, id);
    }
  }

  lemma GatherGrows(coverage: CoverageMap, rules: seq<Rule>, rule: Rule, g: Gathered)
    requires GatheredFrom(coverage, rules, g) && forall r :: r in rules ==> r.id != rule.id
    ensures GatheredFrom(coverage, rules + [rule], Considered(coverage, g, rule))
  {
    EmissionsGrow(coverage, rules, rule);
    PrefixesGrow(coverage, rules, rule, g);
    var g' := Considered(coverage, g, rule);
    forall id
      ensures id in g'.resolvable <==> RanWithId(coverage, rules + [rule], id)
    {
      RanGrows(coverage, rules, rule, id);
    }
    forall id
      ensures id in g'.skipped <==> SkippedWithId(coverage, rules + [rule], id)
    {
      SkippedGrows(coverage, rules, rule, id);
    }
  }

  method Gather(coverage: CoverageMap, rules: seq<Rule>) returns (g: Gathered)
    requires GoodRules(rules)
    ensures GatheredFrom(coverage, rules, g)
  {
    g := Gathered([], {}, map[], []);
    for i := 0 to |rules|
      invariant GatheredFrom(coverage, rules[..i], g)
    {
      var rule := rules[i];
      assert rules[..i + 1] == rules[..i] + [rule];
      GatherGrows(coverage, rules[..i], rule, g);
      if !DomainsUsable(coverage, rule.required) {
        g := g.(skipped := g.skipped + [rule.id]);
        continue;
      }
      if rule.evaluation.Failed? {
        // Silence after an error is no evidence.
        continue;
      }
      var unobserved := rule.evaluation.unobserved;
      g := g.(emissions := g.emissions + rule.evaluation.suggestions, resolvable := g.resolvable + {rule.id});
      if |unobserved| > 0 {
        g := g.(unobserved := g.unobserved[rule.id := unobserved]);
      }
    }
    assert rules[..|rules|] == rules;
  }

  // ----- How a cycle moves rows -----

  // rows, compared with the rows the cycle read: retired holds the rows it has tried to
  // resolve so far. clean means that every statement so far worked.
  ghost predicate Midway(read: Rows, rows: Rows, touched: set<int>, upserted: seq<Emission>,
                         retired: set<int>, clean: bool)
  {
    && (forall id :: id in read ==> MovedSafely(rows, id, read[id], retired))
    && (forall id :: id in rows && id !in read ==> IsNew(id, rows[id], upserted, touched))
    && (clean ==> forall id :: id in read ==>
          Became(rows, id, read[id],
                 StatusAfterCycle(read[id].status, id in touched, EmittedIn(upserted, read[id].rule, read[id].target),
                                  id in retired)))
    && (clean ==> forall i :: 0 <= i < |upserted| ==> KeyPresent(rows, upserted[i].rule, upserted[i].target))
  }

  // A row this cycle inserted: some rule reported it, and only a user can have dismissed it.
  ghost predicate IsNew(id: int, row: Row, emissions: seq<Emission>, touched: set<int>)
  {
    && EmittedIn(emissions, row.rule, row.target)
    && row.status != Resolved
    && (row.status == Dismissed ==> id in touched)
  }

  ghost predicate MovedSafely(rows: Rows, id: int, before: Row, retired: set<int>)
  {
    && id in rows && HasKey(rows[id], before.rule, before.target)
    && (before.status == Dismissed ==> rows[id].status == Dismissed)
    && (rows[id].status == Resolved ==>
          before.status == Resolved || (before.status == Active && id in retired))
  }

  lemma EmittedMore(emissions: seq<Emission>, e: Emission, rule: string, target: string)
    ensures EmittedIn(emissions + [e], rule, target) <==> EmittedIn(emissions, rule, target) || (e.rule == rule && e.target == target)
  {
    var all := emissions + [e];
    assert all[|emissions|] == e;
    assert forall i :: 0 <= i < |emissions| ==> all[i] == emissions[i];
  }

  lemma MidwayDismiss(read: Rows, rows: Rows, nextId: int, touched: set<int>, upserted: seq<Emission>,
                      retired: set<int>, clean: bool, ids: set<int>, at: int)
    requires Midway(read, rows, touched, upserted, retired, clean) && TableOk(rows, nextId)
    ensures Midway(read, ApplyOp(rows, nextId, Dismiss(ids, at)), touched + ids, upserted, retired, clean)
  {
    var rows' := ApplyOp(rows, nextId, Dismiss(ids, at));
    forall id | id in read
      ensures MovedSafely(rows', id, read[id], retired)
    {
      assert MovedSafely(rows, id, read[id], retired);
    }
    if clean {
      forall id | id in read
        ensures Became(rows', id, read[id],
                       StatusAfterCycle(read[id].status, id in touched + ids, EmittedIn(upserted, read[id].rule, read[id].target),
                                        id in retired))
      {
        assert MovedSafely(rows, id, read[id], retired);
      }
      PresentStays(rows, rows', upserted);
    }
  }

  lemma MidwayUpsert(read: Rows, rows: Rows, nextId: int, touched: set<int>, upserted: seq<Emission>,
                     clean: bool, e: Emission, at: int)
    requires Midway(read, rows, touched, upserted, {}, clean) && TableOk(rows, nextId)
    ensures Midway(read, ApplyOp(rows, nextId, Upsert(e.rule, e.target, e.severity, at)), touched, upserted + [e], {}, clean)
  {
    var op := Upsert(e.rule, e.target, e.severity, at);
    var rows' := ApplyOp(rows, nextId, op);
    ApplyOpRows(rows, nextId, op);
    forall id | id in read
      ensures MovedSafely(rows', id, read[id], {})
    {
      assert MovedSafely(rows, id, read[id], {});
    }
    forall id | id in rows' && id !in read
      ensures IsNew(id, rows'[id], upserted + [e], touched)
    {
      EmittedMore(upserted, e, rows'[id].rule, rows'[id].target);
    }
    if clean {
      forall id | id in read
        ensures Became(rows', id, read[id],
                       StatusAfterCycle(read[id].status, id in touched,
                                        EmittedIn(upserted + [e], read[id].rule, read[id].target), false))
      {
        EmittedMore(upserted, e, read[id].rule, read[id].target);
        assert MovedSafely(rows, id, read[id], {});
      }
      UpsertedPresent(rows, nextId, upserted, e, at);
    }
  }

  lemma UpsertedPresent(rows: Rows, nextId: int, upserted: seq<Emission>, e: Emission, at: int)
    requires TableOk(rows, nextId)
    requires forall i :: 0 <= i < |upserted| ==> KeyPresent(rows, upserted[i].rule, upserted[i].target)
    ensures var rows' := ApplyOp(rows, nextId, Upsert(e.rule, e.target, e.severity, at));
            forall i :: 0 <= i < |upserted + [e]| ==> KeyPresent(rows', (upserted + [e])[i].rule, (upserted + [e])[i].target)
  {
    var op := Upsert(e.rule, e.target, e.severity, at);
    var rows' := ApplyOp(rows, nextId, op);
    ApplyOpRows(rows, nextId, op);
    forall i | 0 <= i < |upserted + [e]|
      ensures KeyPresent(rows', (upserted + [e])[i].rule, (upserted + [e])[i].target)
    {
      var u := (upserted + [e])[i];
      if KeyPresent(rows, u.rule, u.target) {
        var id :| id in rows && HasKey(rows[id], u.rule, u.target);
        assert HasKey(rows'[id], u.rule, u.target);
      } else {
        assert u == e;
        assert HasKey(rows'[nextId], u.rule, u.target);
      }
    }
  }

  lemma MidwayUpsertLost(read: Rows, rows: Rows, touched: set<int>, upserted: seq<Emission>, clean: bool, e: Emission)
    requires Midway(read, rows, touched, upserted, {}, clean)
    ensures Midway(read, rows, touched, upserted + [e], {}, false)
  {
    forall id | id in rows && id !in read
      ensures IsNew(id, rows[id], upserted + [e], touched)
    {
      EmittedMore(upserted, e, rows[id].rule, rows[id].target);
    }
  }

  lemma MidwayResolve(read: Rows, rows: Rows, nextId: int, touched: set<int>, upserted: seq<Emission>,
                      retired: set<int>, clean: bool, id: int, at: int)
    requires Midway(read, rows, touched, upserted, retired, clean) && TableOk(rows, nextId)
    requires id in read && read[id].status == Active && !EmittedIn(upserted, read[id].rule, read[id].target)
    ensures Midway(read, ApplyOp(rows, nextId, Resolve(id, at)), touched, upserted,
                   retired + {id}, clean)
  {
    var rows' := ApplyOp(rows, nextId, Resolve(id, at));
    var retired' := retired + {id};
    assert MovedSafely(rows, id, read[id], retired);
    forall id' | id' in read
      ensures MovedSafely(rows', id', read[id'], retired')
    {
      assert MovedSafely(rows, id', read[id'], retired);
    }
    if clean {
      forall id' | id' in read
        ensures Became(rows', id', read[id'],
                       StatusAfterCycle(read[id'].status, id' in touched, EmittedIn(upserted, read[id'].rule, read[id'].target),
                                        id' in retired'))
      {
        assert MovedSafely(rows, id', read[id'], retired);
      }
      PresentStays(rows, rows', upserted);
    }
  }

  lemma PresentStays(rows: Rows, rows': Rows, upserted: seq<Emission>)
    requires forall id :: id in rows ==> id in rows' && HasKey(rows'[id], rows[id].rule, rows[id].target)
    requires forall i :: 0 <= i < |upserted| ==> KeyPresent(rows, upserted[i].rule, upserted[i].target)
    ensures forall i :: 0 <= i < |upserted| ==> KeyPresent(rows', upserted[i].rule, upserted[i].target)
  {
  }

  lemma MidwayResolveLost(read: Rows, rows: Rows, touched: set<int>, upserted: seq<Emission>,
                          retired: set<int>, clean: bool, id: int)
    requires Midway(read, rows, touched, upserted, retired, clean)
    ensures Midway(read, rows, touched, upserted, retired + {id}, false)
  {
  }

  // ----- What a cycle writes into rows -----

  ghost predicate LastUnder(emissions: seq<Emission>, i: nat, rule: string, target: string)
    requires i < |emissions|
  {
    && emissions[i].rule == rule && emissions[i].target == target
    && forall j :: i < j < |emissions| ==> emissions[j].rule != rule || emissions[j].target != target
  }

  // The last suggestion reported under a key.
  function LastEmission(emissions: seq<Emission>, rule: string, target: string): (last: Option<Emission>)
    ensures last.Some? ==> exists i :: 0 <= i < |emissions| && emissions[i] == last.value && LastUnder(emissions, i, rule, target)
    ensures last.None? ==> forall e :: e in emissions ==> e.rule != rule || e.target != target
  {
    if emissions == [] then None
    else
      var e := emissions[|emissions| - 1];
      if e.rule == rule && e.target == target then Some(e)
      else LastEmission(emissions[..|emissions| - 1], rule, target)
  }

  // When it was first seen, resolved and dismissed, and, as long as every statement works,
  // the severity it was last reported with and when.
  ghost predicate RowStamped(read: Rows, id: int, row: Row, emissions: seq<Emission>, now: int, clean: bool)
  {
    && row.firstSeenAt == (if id in read then read[id].firstSeenAt else now)
    && (row.status == Resolved ==>
          row.resolvedAt == Some(now) || (id in read && read[id].status == Resolved && row.resolvedAt == read[id].resolvedAt))
    && (row.dismissedAt == Some(now) || row.dismissedAt == if id in read then read[id].dismissedAt else None)
    && (clean ==>
          match LastEmission(emissions, row.rule, row.target)
          case Some(e) => row.severity == e.severity && row.lastSeenAt == now
          case None => id in read && row.severity == read[id].severity && row.lastSeenAt == read[id].lastSeenAt)
  }

  ghost predicate Stamped(read: Rows, rows: Rows, emissions: seq<Emission>, now: int, clean: bool)
  {
    forall id :: id in rows ==> RowStamped(read, id, rows[id], emissions, now, clean)
  }

  lemma StampedDismiss(read: Rows, rows: Rows, nextId: int, emissions: seq<Emission>, now: int, clean: bool, ids: set<int>)
    requires Stamped(read, rows, emissions, now, clean)
    ensures Stamped(read, ApplyOp(rows, nextId, Dismiss(ids, now)), emissions, now, clean)
  {
  }

  lemma StampedUpsert(read: Rows, rows: Rows, nextId: int, emissions: seq<Emission>, now: int, clean: bool, e: Emission)
    requires Stamped(read, rows, emissions, now, clean) && TableOk(rows, nextId)
    requires forall id :: id in read ==> id in rows
    ensures Stamped(read, ApplyOp(rows, nextId, Upsert(e.rule, e.target, e.severity, now)), emissions + [e], now, clean)
  {
    var op := Upsert(e.rule, e.target, e.severity, now);
    var rows' := ApplyOp(rows, nextId, op);
    ApplyOpRows(rows, nextId, op);
    assert (emissions + [e])[..|emissions|] == emissions;
    forall id | id in rows'
      ensures RowStamped(read, id, rows'[id], emissions + [e], now, clean)
    {
      if id in rows {
        assert RowStamped(read, id, rows[id], emissions, now, clean);
      }
    }
  }

  lemma StampedUpsertMidway(read: Rows, rows: Rows, nextId: int, touched: set<int>, emissions: seq<Emission>, now: int,
                            clean: bool, e: Emission)
    requires Stamped(read, rows, emissions, now, clean) && TableOk(rows, nextId)
    requires Midway(read, rows, touched, emissions, {}, clean)
    ensures Stamped(read, ApplyOp(rows, nextId, Upsert(e.rule, e.target, e.severity, now)), emissions + [e], now, clean)
  {
    forall id | id in read
      ensures id in rows
    {
      assert MovedSafely(rows, id, read[id], {});
    }
    StampedUpsert(read, rows, nextId, emissions, now, clean, e);
  }

  lemma StampedLost(read: Rows, rows: Rows, emissions: seq<Emission>, more: seq<Emission>, now: int, clean: bool)
    requires Stamped(read, rows, emissions, now, clean)
    ensures Stamped(read, rows, more, now, false)
  {
  }

  lemma StampedResolve(read: Rows, rows: Rows, nextId: int, emissions: seq<Emission>, now: int, clean: bool, id: int)
    requires Stamped(read, rows, emissions, now, clean)
    ensures Stamped(read, ApplyOp(rows, nextId, Resolve(id, now)), emissions, now, clean)
  {
  }

  // From the rows read, with the first dismissals in them, back to the rows before.
  lemma StampedBefore(before: Rows, nextId: int, ids: set<int>, rows: Rows, emissions: seq<Emission>, now: int, clean: bool)
    requires Stamped(ApplyOp(before, nextId, Dismiss(ids, now)), rows, emissions, now, clean)
    ensures Stamped(before, rows, emissions, now, clean)
  {
    var read := ApplyOp(before, nextId, Dismiss(ids, now));
    forall id | id in rows
      ensures RowStamped(before, id, rows[id], emissions, now, clean)
    {
      assert RowStamped(read, id, rows[id], emissions, now, clean);
    }
  }

  lemma NothingStamped(read: Rows, now: int, clean: bool)
    ensures Stamped(read, read, [], now, clean)
  {
  }

  // ----- The cycle -----

  // Midway, after the first step statements of a cycle that stored these suggestions.
  ghost predicate Underway(read: Rows, rows: Rows, world: World, emissions: seq<Emission>, retired: set<int>, step: nat)
  {
    Midway(read, rows, Touched(world, step), emissions, retired, Clean(world, emissions, step))
  }

  ghost predicate AllConvertible(emissions: seq<Emission>)
  {
    forall e :: e in emissions ==> e.convertible
  }

  // No statement of the cycle failed, and every suggestion could be stored.
  ghost predicate Clean(world: World, emissions: seq<Emission>, steps: nat)
  {
    AllConvertible(emissions) && forall i :: 0 <= i < steps ==> !world.fails(i)
  }

  // One suggestion stored, or not: the statement may fail.
  method UpsertOne(store: Store, e: Emission, now: int, world: World, step: nat,
                   ghost read: Rows, ghost touched: set<int>, ghost done: seq<Emission>, ghost clean: bool)
    requires store.Valid() && Midway(read, store.rows, touched, done, {}, clean)
    requires Stamped(read, store.rows, done, now, clean)
    modifies store
    ensures store.Valid()
    ensures Midway(read, store.rows, touched + world.dismissals(step), done + [e], {}, clean && !world.fails(step))
    ensures Stamped(read, store.rows, done + [e], now, clean && !world.fails(step))
  {
    StampedDismiss(read, store.rows, store.nextId, done, now, clean, world.dismissals(step));
    MidwayDismiss(read, store.rows, store.nextId, touched, done, {}, clean, world.dismissals(step), now);
    store.DismissSuggestions(world.dismissals(step), now);
    if world.fails(step) {
      MidwayUpsertLost(read, store.rows, touched + world.dismissals(step), done, clean, e);
      StampedLost(read, store.rows, done, done + [e], now, clean);
    } else {
      StampedUpsertMidway(read, store.rows, store.nextId, touched + world.dismissals(step), done, now, clean, e);
      MidwayUpsert(read, store.rows, store.nextId, touched + world.dismissals(step), done, clean, e, now);
      store.UpsertSuggestion(e.rule, e.target, e.severity, now);
    }
  }

  // Stores everything the rules reported.
  method UpsertAll(store: Store, emissions: seq<Emission>, now: int, world: World, step0: nat, ghost read: Rows)
    returns (step: nat, stillActive: set<string>)
    requires store.Valid() && Underway(read, store.rows, world, [], {}, step0)
    requires Stamped(read, store.rows, [], now, Clean(world, [], step0))
    modifies store
    ensures store.Valid() && step >= step0
    ensures Underway(read, store.rows, world, emissions, {}, step)
    ensures Stamped(read, store.rows, emissions, now, Clean(world, emissions, step))
    ensures KeysOf(emissions, stillActive)
  {
    step, stillActive := step0, {};
    ghost var clean, touched, done := Clean(world, [], step0), Touched(world, step0), [];
    for k := 0 to |emissions|
      invariant store.Valid() && step >= step0
      invariant done == emissions[..k] && touched == Touched(world, step)
      invariant clean <==> Clean(world, done, step)
      invariant Midway(read, store.rows, touched, done, {}, clean)
      invariant Stamped(read, store.rows, done, now, clean)
      invariant KeysOf(done, stillActive)
    {
      var e := emissions[k];
      KeysGrow(done, stillActive, e);
      stillActive := stillActive + {SuggestionKey(e.rule, e.target)};
      CleanStep(world, done, e, step);
      if !e.convertible {
        MidwayUpsertLost(read, store.rows, touched, done, clean, e);
        StampedLost(read, store.rows, done, done + [e], now, clean);
        clean, done := false, done + [e];
        continue;
      }
      UpsertOne(store, e, now, world, step, read, touched, done, clean);
      clean, done, touched := clean && !world.fails(step), done + [e], touched + world.dismissals(step);
      step := step + 1;
    }
    assert done == emissions;
  }

  ghost predicate KeysOf(emissions: seq<Emission>, keys: set<string>)
  {
    forall k :: k in keys <==> exists i :: 0 <= i < |emissions| && SuggestionKey(emissions[i].rule, emissions[i].target) == k
  }

  lemma KeysGrow(emissions: seq<Emission>, keys: set<string>, e: Emission)
    requires KeysOf(emissions, keys)
    ensures KeysOf(emissions + [e], keys + {SuggestionKey(e.rule, e.target)})
  {
    var all := emissions + [e];
    assert all[|emissions|] == e;
    assert forall i :: 0 <= i < |emissions| ==> all[i] == emissions[i];
  }

  lemma CleanStep(world: World, done: seq<Emission>, e: Emission, step: nat)
    ensures !e.convertible ==> !Clean(world, done + [e], step)
    ensures e.convertible ==> (Clean(world, done + [e], step + 1) <==> Clean(world, done, step) && !world.fails(step))
  {
  }

  // Active suggestions that were not seen again, of rules that could have seen them.
  ghost predicate Gone(coverage: CoverageMap, rules: seq<Rule>, emissions: seq<Emission>, row: Row)
  {
    row.status == Active && !EmittedIn(emissions, row.rule, row.target) && Eligible(coverage, rules, row.rule, row.target)
  }

  lemma EligibleIs(coverage: CoverageMap, rules: seq<Rule>, g: Gathered, rule: string, target: string)
    requires GoodRules(rules) && GatheredFrom(coverage, rules, g)
    ensures Eligible(coverage, rules, rule, target) <==>
            rule in g.resolvable && !HasAnyPrefix(target, UnobservedFor(g, rule))
  {
  }

  lemma KeysMatch(emissions: seq<Emission>, keys: set<string>, rule: string, target: string)
    requires forall e :: e in emissions ==> ':' !in e.rule
    requires ':' !in rule
    requires KeysOf(emissions, keys)
    ensures SuggestionKey(rule, target) in keys <==> EmittedIn(emissions, rule, target)
  {
    forall i | 0 <= i < |emissions|
      ensures SuggestionKey(emissions[i].rule, emissions[i].target) == SuggestionKey(rule, target) <==>
              emissions[i].rule == rule && emissions[i].target == target
    {
      assert emissions[i] in emissions;
      JoinKeyInjective(emissions[i].rule, emissions[i].target, rule, target, ':');
    }
  }

  // Resolves one suggestion, or not: the statement may fail.
  method ResolveOne(store: Store, id: int, now: int, world: World, step: nat,
                    ghost read: Rows, ghost emissions: seq<Emission>, ghost retired: set<int>)
    requires store.Valid() && Underway(read, store.rows, world, emissions, retired, step)
    requires id in read && read[id].status == Active && !EmittedIn(emissions, read[id].rule, read[id].target)
    requires Stamped(read, store.rows, emissions, now, Clean(world, emissions, step))
    modifies store
    ensures store.Valid()
    ensures Underway(read, store.rows, world, emissions, retired + {id}, step + 1)
    ensures Stamped(read, store.rows, emissions, now, Clean(world, emissions, step + 1))
  {
    ghost var touched, clean := Touched(world, step), Clean(world, emissions, step);
    ghost var touched' := touched + world.dismissals(step);
    CleanGoesOn(world, emissions, step);
    StampedDismiss(read, store.rows, store.nextId, emissions, now, clean, world.dismissals(step));
    MidwayDismiss(read, store.rows, store.nextId, touched, emissions, retired, clean, world.dismissals(step), now);
    store.DismissSuggestions(world.dismissals(step), now);
    if world.fails(step) {
      MidwayResolveLost(read, store.rows, touched', emissions, retired, clean, id);
      StampedLost(read, store.rows, emissions, emissions, now, clean);
    } else {
      StampedResolve(read, store.rows, store.nextId, emissions, now, clean, id);
      MidwayResolve(read, store.rows, store.nextId, touched', emissions, retired, clean, id, now);
      store.ResolveSuggestion(id, now);
    }
  }

  // The suggestions this cycle should resolve.
  ghost function GoneRows(coverage: CoverageMap, rules: seq<Rule>, emissions: seq<Emission>, read: Rows): set<int>
  {
    set id | id in read && Gone(coverage, rules, emissions, read[id])
  }

  // existingMap: what was read, by key.
  ghost predicate ByKey(read: Rows, existing: map<string, int>)
  {
    && (forall k :: k in existing ==>
          && existing[k] in read && read[existing[k]].status == Active
          && SuggestionKey(read[existing[k]].rule, read[existing[k]].target) == k)
    && (forall id :: id in read && read[id].status == Active ==>
          SuggestionKey(read[id].rule, read[id].target) in existing)
  }

  // What the last pass of the cycle works with: the rows read, the keys seen, the rules' say.
  ghost predicate ReadyToResolve(coverage: CoverageMap, rules: seq<Rule>, g: Gathered, existing: map<string, int>,
                                 stillActive: set<string>, read: Rows)
  {
    && GoodRules(rules) && GatheredFrom(coverage, rules, g)
    && ColonFree(read) && ByKey(read, existing)
    && (forall id :: id in read ==>
          (SuggestionKey(read[id].rule, read[id].target) in stillActive <==> EmittedIn(g.emissions, read[id].rule, read[id].target)))
  }

  lemma ExistingIsRow(read: Rows, nextId: int, existing: map<string, int>, id: int)
    requires TableOk(read, nextId) && ColonFree(read) && ByKey(read, existing)
    requires id in read && read[id].status == Active
    ensures var k := SuggestionKey(read[id].rule, read[id].target); k in existing && existing[k] == id
  {
    var k := SuggestionKey(read[id].rule, read[id].target);
    var other := existing[k];
    assert other in read;
    JoinKeyInjective(read[id].rule, read[id].target, read[other].rule, read[other].target, ':');
    assert HasKey(read[other], read[id].rule, read[id].target);
  }

  // Whether the suggestion under this key is to be resolved: it was not seen again, and
  // its absence proves something.
  method IsGone(coverage: CoverageMap, rules: seq<Rule>, g: Gathered, existing: map<string, int>,
                stillActive: set<string>, read: Rows, key: string)
    returns (id: int, gone: bool)
    requires ReadyToResolve(coverage, rules, g, existing, stillActive, read) && key in existing
    ensures id == existing[key] && id in read
    ensures gone <==> Gone(coverage, rules, g.emissions, read[id])
  {
    id := existing[key];
    var sug := read[id];
    EligibleIs(coverage, rules, g, sug.rule, sug.target);
    if key in stillActive {
      return id, false;
    }
    if sug.rule !in g.resolvable || HasAnyPrefix(sug.target, UnobservedFor(g, sug.rule)) {
      return id, false;
    }
    return id, true;
  }

  // One entry of the map read: resolved when it is gone.
  method ResolveIfGone(store: Store, coverage: CoverageMap, rules: seq<Rule>, g: Gathered, existing: map<string, int>,
                       stillActive: set<string>, key: string, now: int, world: World, step0: nat, read: Rows,
                       ghost retired0: set<int>)
    returns (step: nat, ghost retired: set<int>)
    requires store.Valid() && ReadyToResolve(coverage, rules, g, existing, stillActive, read) && key in existing
    requires Underway(read, store.rows, world, g.emissions, retired0, step0)
    requires Stamped(read, store.rows, g.emissions, now, Clean(world, g.emissions, step0))
    modifies store
    ensures store.Valid() && step >= step0
    ensures Underway(read, store.rows, world, g.emissions, retired, step)
    ensures Stamped(read, store.rows, g.emissions, now, Clean(world, g.emissions, step))
    ensures existing[key] in read
    ensures retired == if Gone(coverage, rules, g.emissions, read[existing[key]]) then retired0 + {existing[key]} else retired0
  {
    step, retired := step0, retired0;
    var id, gone := IsGone(coverage, rules, g, existing, stillActive, read, key);
    if gone {
      ResolveOne(store, id, now, world, step, read, g.emissions, retired);
      step, retired := step + 1, retired + {id};
    }
  }

  lemma CleanGoesOn(world: World, emissions: seq<Emission>, step: nat)
    ensures Clean(world, emissions, step + 1) <==> Clean(world, emissions, step) && !world.fails(step)
  {
  }

  lemma AllRetired(existing: map<string, int>, nextId: int, read: Rows, gone: set<int>, retired: set<int>)
    requires TableOk(read, nextId) && ColonFree(read) && ByKey(read, existing)
    requires forall id :: id in gone ==> id in read && read[id].status == Active
    requires retired <= gone && forall k :: k in existing && existing[k] in gone ==> existing[k] in retired
    ensures retired == gone
  {
    forall id | id in gone
      ensures id in retired
    {
      ExistingIsRow(read, nextId, existing, id);
    }
  }

  // Resolves what is gone, in whatever order the map yields it.
  method ResolveGone(store: Store, coverage: CoverageMap, rules: seq<Rule>, g: Gathered, existing: map<string, int>,
                     stillActive: set<string>, now: int, world: World, step0: nat, read: Rows, ghost gone: set<int>)
    returns (step: nat, ghost retired: set<int>)
    requires store.Valid() && ReadyToResolve(coverage, rules, g, existing, stillActive, read)
    requires gone == GoneRows(coverage, rules, g.emissions, read)
    requires Underway(read, store.rows, world, g.emissions, {}, step0)
    requires Stamped(read, store.rows, g.emissions, now, Clean(world, g.emissions, step0))
    modifies store
    ensures store.Valid() && step >= step0
    ensures Underway(read, store.rows, world, g.emissions, retired, step)
    ensures Stamped(read, store.rows, g.emissions, now, Clean(world, g.emissions, step))
    ensures retired <= gone && forall k :: k in existing && existing[k] in gone ==> existing[k] in retired
  {
    step, retired := step0, {};
    var left := existing.Keys;
    while left != {}
      invariant store.Valid() && step >= step0
      invariant Underway(read, store.rows, world, g.emissions, retired, step)
      invariant Stamped(read, store.rows, g.emissions, now, Clean(world, g.emissions, step))
      invariant retired <= gone && left <= existing.Keys
      invariant forall k :: k in existing && k !in left && existing[k] in gone ==> existing[k] in retired
      decreases |left|
    {
      var key :| key in left;
      left := left - {key};
      step, retired := ResolveIfGone(store, coverage, rules, g, existing, stillActive, key, now, world, step, read, retired);
    }
  }

  // The active suggestions read, by key.
  method ActiveByKey(store: Store) returns (existing: map<string, int>)
    requires store.Valid() && ColonFree(store.rows)
    ensures ByKey(store.rows, existing)
  {
    var found := store.GetSuggestionsByStatus(Active);
    existing := map[];
    for i := 0 to |found|
      invariant forall k :: k in existing ==>
        && existing[k] in store.rows && store.rows[existing[k]].status == Active
        && SuggestionKey(store.rows[existing[k]].rule, store.rows[existing[k]].target) == k
      invariant forall j :: 0 <= j < i ==> SuggestionKey(found[j].row.rule, found[j].row.target) in existing
    {
      var sug := found[i];
      assert sug in found;
      existing := existing[SuggestionKey(sug.row.rule, sug.row.target) := sug.id];
    }
    forall id | id in store.rows && store.rows[id].status == Active
      ensures SuggestionKey(store.rows[id].rule, store.rows[id].target) in existing
    {
      var e := Entry(id, store.rows[id]);
      assert e in found;
      var j :| 0 <= j < |found| && found[j] == e;
    }
  }

  // Nothing is lost, dismissed is final, and what is newly resolved was active, was not
  // seen by any rule, and could have been.
  ghost predicate MovedOnEvidence(rows: Rows, id: int, before: Row, coverage: CoverageMap, rules: seq<Rule>)
  {
    && id in rows && HasKey(rows[id], before.rule, before.target)
    && (before.status == Dismissed ==> rows[id].status == Dismissed)
    && (rows[id].status == Resolved && before.status != Resolved ==> Gone(coverage, rules, AllEmissions(coverage, rules), before))
  }

  // Where a whole cycle leaves a suggestion when no statement failed.
  ghost predicate MovedExactly(rows: Rows, id: int, before: Row, coverage: CoverageMap, rules: seq<Rule>, touched: set<int>)
  {
    Became(rows, id, before, StatusAfterCycle(before.status, id in touched,
                                              EmittedIn(AllEmissions(coverage, rules), before.rule, before.target),
                                              Eligible(coverage, rules, before.rule, before.target)))
  }

  // Suggest, on the coverage an analysis ended with. None when the active suggestions
  // could not be read; otherwise the rules that were skipped.
  method Suggest(store: Store, coverage: CoverageMap, rules: seq<Rule>, now: int, world: World)
    returns (skipped: Option<seq<string>>, ghost steps: nat)
    requires store.Valid() && GoodRules(rules) && ColonFree(store.rows)
    modifies store
    ensures store.Valid() && ColonFree(store.rows) && steps > 0
    ensures skipped.None? <==> world.fails(0)
    ensures skipped.Some? ==> forall id :: id in skipped.value <==> SkippedWithId(coverage, rules, id)
    ensures skipped.None? ==> store.rows == ApplyOp(old(store.rows), old(store.nextId), Dismiss(world.dismissals(0), now))
    ensures forall id :: id in old(store.rows) ==> MovedOnEvidence(store.rows, id, old(store.rows)[id], coverage, rules)
    ensures forall id :: id in store.rows && id !in old(store.rows) ==>
      IsNew(id, store.rows[id], AllEmissions(coverage, rules), Touched(world, steps))
    ensures skipped.Some? ==>
      Stamped(old(store.rows), store.rows, AllEmissions(coverage, rules), now, Clean(world, AllEmissions(coverage, rules), steps))
    ensures Clean(world, AllEmissions(coverage, rules), steps) ==>
      && (forall id :: id in old(store.rows) ==>
            MovedExactly(store.rows, id, old(store.rows)[id], coverage, rules, Touched(world, steps)))
      && (forall e :: e in AllEmissions(coverage, rules) ==> KeyPresent(store.rows, e.rule, e.target))
  {
    var g := Gather(coverage, rules);
    ghost var before, nextId := store.rows, store.nextId;
    store.DismissSuggestions(world.dismissals(0), now);
    if world.fails(0) {
      return None, 1;
    }
    var read := store.rows;
    var existing := ActiveByKey(store);
    FreshCycle(world, before, nextId, now);
    NothingStamped(read, now, Clean(world, [], 1));
    var step, stillActive := UpsertAll(store, g.emissions, now, world, 1, read);
    EmissionsColonFree(coverage, rules);
    Prepared(coverage, rules, g, existing, stillActive, read);
    ghost var gone := GoneRows(coverage, rules, g.emissions, read);
    ghost var retired;
    step, retired := ResolveGone(store, coverage, rules, g, existing, stillActive, now, world, step, read, gone);
    AllRetired(existing, nextId, read, gone, retired);
    CycleMoved(coverage, rules, before, nextId, now, store.rows, world, gone, step);
    StampedBefore(before, nextId, world.dismissals(0), store.rows, g.emissions, now, Clean(world, g.emissions, step));
    return Some(g.skipped), step;
  }

  lemma FreshCycle(world: World, before: Rows, nextId: int, now: int)
    requires TableOk(before, nextId)
    ensures var read := ApplyOp(before, nextId, Dismiss(world.dismissals(0), now));
            Underway(read, read, world, [], {}, 1) && TableOk(read, nextId) && (ColonFree(before) ==> ColonFree(read))
  {
    ApplyKeepsTable(before, nextId, Dismiss(world.dismissals(0), now));
    assert Touched(world, 1) == Touched(world, 0) + world.dismissals(0);
  }

  lemma {:induction false} EmissionsColonFree(coverage: CoverageMap, rules: seq<Rule>)
    requires GoodRules(rules)
    ensures forall e :: e in AllEmissions(coverage, rules) ==> ':' !in e.rule
  {
    if rules != [] {
      var init := rules[..|rules| - 1];
      assert forall r :: r in init ==> r in rules;
      EmissionsColonFree(coverage, init);
      assert rules[|rules| - 1] in rules;
    }
  }

  lemma Prepared(coverage: CoverageMap, rules: seq<Rule>, g: Gathered, existing: map<string, int>,
                 stillActive: set<string>, read: Rows)
    requires GoodRules(rules) && GatheredFrom(coverage, rules, g) && ColonFree(read) && ByKey(read, existing)
    requires KeysOf(g.emissions, stillActive) && forall e :: e in g.emissions ==> ':' !in e.rule
    ensures ReadyToResolve(coverage, rules, g, existing, stillActive, read)
  {
    forall id | id in read
      ensures SuggestionKey(read[id].rule, read[id].target) in stillActive <==>
              EmittedIn(g.emissions, read[id].rule, read[id].target)
    {
      KeysMatch(g.emissions, stillActive, read[id].rule, read[id].target);
    }
  }

  // From the rows read, with the first dismissals in them, back to the rows before.
  lemma CycleMoved(coverage: CoverageMap, rules: seq<Rule>, before: Rows, nextId: int, now: int, after: Rows,
                   world: World, gone: set<int>, steps: nat)
    requires TableOk(before, nextId) && steps > 0 && GoodRules(rules) && ColonFree(before)
    requires var read := ApplyOp(before, nextId, Dismiss(world.dismissals(0), now));
             && gone == GoneRows(coverage, rules, AllEmissions(coverage, rules), read)
             && Underway(read, after, world, AllEmissions(coverage, rules), gone, steps)
    ensures ColonFree(after)
    ensures forall id :: id in before ==> MovedOnEvidence(after, id, before[id], coverage, rules)
    ensures forall id :: id in after && id !in before ==> IsNew(id, after[id], AllEmissions(coverage, rules), Touched(world, steps))
    ensures Clean(world, AllEmissions(coverage, rules), steps) ==>
      && (forall id :: id in before ==> MovedExactly(after, id, before[id], coverage, rules, Touched(world, steps)))
      && (forall e :: e in AllEmissions(coverage, rules) ==> KeyPresent(after, e.rule, e.target))
  {
    var read := ApplyOp(before, nextId, Dismiss(world.dismissals(0), now));
    var emissions, touched := AllEmissions(coverage, rules), Touched(world, steps);
    EmissionsColonFree(coverage, rules);
    FirstTouched(world, steps);
    forall id | id in before
      ensures MovedOnEvidence(after, id, before[id], coverage, rules)
      ensures Clean(world, emissions, steps) ==> MovedExactly(after, id, before[id], coverage, rules, touched)
    {
      assert MovedSafely(after, id, read[id], gone);
      assert id in gone <==> Gone(coverage, rules, emissions, read[id]);
    }
  }

  lemma {:induction false} FirstTouched(world: World, n: nat)
    requires n > 0
    ensures world.dismissals(0) <= Touched(world, n)
  {
    if n > 1 {
      FirstTouched(world, n - 1);
    } else {
      assert Touched(world, 1) == Touched(world, 0) + world.dismissals(0);
    }
  }

  // ----- What a clean cycle means for a key -----

  // Whatever a rule reported is in the table as it was last reported, seen now.
  lemma ReportedIsStored(before: Rows, after: Rows, emissions: seq<Emission>, now: int, e: Emission) returns (id: int)
    requires Stamped(before, after, emissions, now, true)
    requires e in emissions && KeyPresent(after, e.rule, e.target)
    ensures id in after && HasKey(after[id], e.rule, e.target) && after[id].lastSeenAt == now
    ensures exists i :: 0 <= i < |emissions| && LastUnder(emissions, i, e.rule, e.target) && after[id].severity == emissions[i].severity
  {
    id :| id in after && HasKey(after[id], e.rule, e.target);
    assert RowStamped(before, id, after[id], emissions, now, true);
  }

  // A suggestion is gone when it was active, nothing reported it, and the rule of its id
  // ran on usable data and named no prefix of its target as out of sight.
  lemma GoneExactly(coverage: CoverageMap, rules: seq<Rule>, emissions: seq<Emission>, row: Row)
    ensures Gone(coverage, rules, emissions, row) <==>
      && row.status == Active
      && (forall e :: e in emissions ==> e.rule != row.rule || e.target != row.target)
      && exists r :: r in rules && r.id == row.rule && r.evaluation.Emits?
                     && (forall d :: d in r.required ==> d in coverage && coverage[d].present && !coverage[d].stale)
                     && (forall prefix, rest :: prefix in r.evaluation.unobserved ==> row.target != prefix + rest)
  {
    forall r | r in rules && r.evaluation.Emits?
      ensures HasAnyPrefix(row.target, r.evaluation.unobserved) <==>
              exists prefix, rest :: prefix in r.evaluation.unobserved && row.target == prefix + rest
    {
      PrefixMeans(row.target, r.evaluation.unobserved);
    }
  }

  lemma PrefixMeans(target: string, prefixes: seq<string>)
    ensures HasAnyPrefix(target, prefixes) <==> exists prefix, rest :: prefix in prefixes && target == prefix + rest
  {
    if HasAnyPrefix(target, prefixes) {
      var i :| 0 <= i < |prefixes| && prefixes[i] <= target;
      assert target == prefixes[i] + target[|prefixes[i]|..];
    }
    if prefix, rest :| prefix in prefixes && target == prefix + rest {
      var i :| 0 <= i < |prefixes| && prefixes[i] == prefix;
      assert prefixes[i] <= target;
    }
  }

  ghost predicate KeyIs(rows: Rows, rule: string, target: string, status: Status)
  {
    exists id :: id in rows && HasKey(rows[id], rule, target) && rows[id].status == status
  }

  // After a cycle without errors a key is active exactly when it is not dismissed and some
  // rule reported it, or it was active before and could not be judged.
  lemma ActiveExactly(coverage: CoverageMap, rules: seq<Rule>, before: Rows, after: Rows, nextId: int, touched: set<int>,
                      rule: string, target: string)
    requires TableOk(after, nextId)
    requires forall id :: id in before ==> MovedExactly(after, id, before[id], coverage, rules, touched)
    requires forall id :: id in after && id !in before ==> IsNew(id, after[id], AllEmissions(coverage, rules), touched)
    requires forall e :: e in AllEmissions(coverage, rules) ==> KeyPresent(after, e.rule, e.target)
    ensures KeyIs(after, rule, target, Active) <==>
      && !KeyIs(after, rule, target, Dismissed)
      && (EmittedIn(AllEmissions(coverage, rules), rule, target)
          || (KeyIs(before, rule, target, Active) && !Eligible(coverage, rules, rule, target)))
    ensures KeyIs(after, rule, target, Dismissed) ==>
      KeyIs(before, rule, target, Dismissed) || exists id :: id in touched && id in after && HasKey(after[id], rule, target)
  {
  }
}
