/** The batch the notifier runs each tick (internal/notifier/notifier.go): one pass over
    the active suggestions, one over the stored states, one joint message, and the
    stored writes, some of them held back until the message is out. */
module Notifier {
  import opened Common
  import opened AlertStep
  import opened AlertRuns
  import opened Ordering

  datatype Key = Key(rule: string, target: string)

  datatype Suggestion = Suggestion(key: Key, severity: Severity)

  datatype Item = Item(key: Key, notice: Notice)

  type Table = map<Key, IssueState>

  // Everything one evaluated tick reads and meets. accepts[i] says whether channel i
  // takes the message, failing lists the issues whose state write fails.
  datatype Inputs = Inputs(
    now: int,
    active: seq<Suggestion>,
    resolved: seq<Key>,
    accepts: seq<bool>,
    failing: set<Key>)

  // Suggestion rows are unique per rule and target.
  ghost predicate OneRowPerKey(active: seq<Suggestion>)
  {
    forall i, j :: 0 <= i < j < |active| ==> active[i].key != active[j].key
  }

  function BySeverity(active: seq<Suggestion>): (m: map<Key, Severity>)
    ensures forall k :: k in m <==> exists i :: 0 <= i < |active| && active[i].key == k
    ensures OneRowPerKey(active) ==> forall i :: 0 <= i < |active| ==> m[active[i].key] == active[i].severity
  {
    if active == [] then map[]
    else
      var last := active[|active| - 1];
      BySeverity(active[..|active| - 1])[last.key := last.severity]
  }

  function SightOf(inputs: Inputs, key: Key): Sight
  {
    Sight(inputs.now, Lookup(BySeverity(inputs.active), key), key in inputs.resolved)
  }

  ghost function AlertableKeys(cfg: Config, inputs: Inputs): set<Key>
  {
    set k | k in BySeverity(inputs.active) && Alertable(cfg, SightOf(inputs, k))
  }

  function ActionFor(cfg: Config, table: Table, inputs: Inputs, key: Key): Action
  {
    Decide(cfg, Lookup(table, key), SightOf(inputs, key))
  }

  // The items of a tick: one for every issue that announces something, none twice.
  ghost predicate ItemsOf(cfg: Config, table: Table, inputs: Inputs, items: seq<Item>)
  {
    && (forall i, j :: 0 <= i < j < |items| ==> items[i].key != items[j].key)
    && (forall i :: 0 <= i < |items| ==>
          var action := ActionFor(cfg, table, inputs, items[i].key);
          action.Announce? && action.notice == items[i].notice)
    && (forall k :: ActionFor(cfg, table, inputs, k).Announce? ==>
          Item(k, ActionFor(cfg, table, inputs, k).notice) in items)
  }

  // One tick over the table is the per-issue step, with the delivery flag shared.
  ghost predicate TableStep(cfg: Config, before: Table, after: Table, inputs: Inputs, delivered: bool)
  {
    forall k :: KeyStep(cfg, before, after, inputs, delivered, k)
  }

  ghost predicate KeyStep(cfg: Config, before: Table, after: Table, inputs: Inputs, delivered: bool, key: Key)
  {
    Lookup(after, key) == Next(cfg, Lookup(before, key), SightOf(inputs, key), delivered, key !in inputs.failing)
  }

  // What a tick contributes to the run of one issue.
  function TickOf(inputs: Inputs, delivered: bool, key: Key): Tick
  {
    Tick(SightOf(inputs, key), delivered, key !in inputs.failing)
  }

  datatype Record = Record(inputs: Inputs, delivered: bool)

  ghost function RunOf(history: seq<Record>, key: Key): (run: Run)
    ensures |run| == |history|
    ensures forall i :: 0 <= i < |history| ==> run[i] == TickOf(history[i].inputs, history[i].delivered, key)
  {
    seq(|history|, i requires 0 <= i < |history| => TickOf(history[i].inputs, history[i].delivered, key))
  }

  lemma {:induction false} StatePrefix(cfg: Config, run: Run, tick: Tick, n: nat)
    requires n <= |run|
    ensures StateAt(cfg, run + [tick], n) == StateAt(cfg, run, n)
  {
    if n > 0 {
      StatePrefix(cfg, run, tick, n - 1);
      assert (run + [tick])[n - 1] == run[n - 1];
    }
  }

  lemma RunGrows(cfg: Config, history: seq<Record>, record: Record, key: Key)
    ensures var run, tick := RunOf(history, key), TickOf(record.inputs, record.delivered, key);
            StateAt(cfg, RunOf(history + [record], key), |history| + 1) ==
            Next(cfg, StateAt(cfg, run, |history|), tick.sight, tick.delivered, tick.stored)
  {
    var run, tick := RunOf(history, key), TickOf(record.inputs, record.delivered, key);
    assert RunOf(history + [record], key) == run + [tick];
    StatePrefix(cfg, run, tick, |history|);
  }

  // The order in which the state map is walked is invisible: any two outcomes of the
  // same tick raise the same items and leave the same table.
  lemma TickIsOrderFree(cfg: Config, before: Table, inputs: Inputs, delivered: bool,
                        items: seq<Item>, after: Table, items': seq<Item>, after': Table)
    requires ItemsOf(cfg, before, inputs, items) && ItemsOf(cfg, before, inputs, items')
    requires TableStep(cfg, before, after, inputs, delivered) && TableStep(cfg, before, after', inputs, delivered)
    ensures multiset(items) == multiset(items') && after == after'
  {
    forall k
      ensures k in after <==> k in after'
      ensures k in after ==> after[k] == after'[k]
    {
      assert KeyStep(cfg, before, after, inputs, delivered, k) && KeyStep(cfg, before, after', inputs, delivered, k);
    }
    forall item
      ensures item in items <==> item in items'
    {
      assert item in items ==> Item(item.key, ActionFor(cfg, before, inputs, item.key).notice) == item;
      assert item in items' ==> Item(item.key, ActionFor(cfg, before, inputs, item.key).notice) == item;
    }
    DistinctSameElements(items, items');
  }

  // Every item of a failed tick is raised again by the next one that sees the same
  // suggestions at a later time, next to whatever has become due since.
  lemma FailedTickIsRetried(cfg: Config, before: Table, after: Table, inputs: Inputs, items: seq<Item>,
                            later: Inputs, items': seq<Item>)
    requires ItemsOf(cfg, before, inputs, items)
    requires TableStep(cfg, before, after, inputs, false)
    requires later.now >= inputs.now && later.active == inputs.active && later.resolved == inputs.resolved
    requires ItemsOf(cfg, after, later, items')
    ensures forall item :: item in items ==> item in items'
  {
    forall item | item in items
      ensures item in items'
    {
      var k := item.key;
      assert SightOf(later, k) == SightOf(inputs, k).(now := later.now);
      assert KeyStep(cfg, before, after, inputs, false, k);
      FailedSendIsRaisedAgain(cfg, Lookup(before, k), SightOf(inputs, k), k !in inputs.failing, later.now);
      assert Item(k, ActionFor(cfg, after, later, k).notice) in items';
    }
  }

  // After a tick that delivered whatever it had to say and stored its writes, the
  // uncleared rows are the alertable suggestions at their current severity.
  lemma SuccessfulTickExactly(cfg: Config, before: Table, after: Table, inputs: Inputs, items: seq<Item>, delivered: bool)
    requires OneRowPerKey(inputs.active) && ItemsOf(cfg, before, inputs, items)
    requires TableStep(cfg, before, after, inputs, delivered)
    requires (items != [] ==> delivered) && inputs.failing == {}
    ensures forall k, severity ::
              (k in after && after[k].clearedAt.None? && after[k].severity == severity) <==>
              (Suggestion(k, severity) in inputs.active && severity.Rank() >= cfg.minSeverity.Rank())
  {
    var active := BySeverity(inputs.active);
    forall k, severity: Severity
      ensures (k in after && after[k].clearedAt.None? && after[k].severity == severity) <==>
              (Suggestion(k, severity) in inputs.active && severity.Rank() >= cfg.minSeverity.Rank())
    {
      assert KeyStep(cfg, before, after, inputs, delivered, k);
      assert ActionFor(cfg, before, inputs, k).Announce? ==>
          Item(k, ActionFor(cfg, before, inputs, k).notice) in items;
      SuccessfulTickTracksAlertable(cfg, Lookup(before, k), SightOf(inputs, k), delivered);
      if Suggestion(k, severity) in inputs.active {
        var i :| 0 <= i < |inputs.active| && inputs.active[i] == Suggestion(k, severity);
        assert active[inputs.active[i].key] == severity;
      } else if k in active {
        var i :| 0 <= i < |inputs.active| && inputs.active[i].key == k;
        assert inputs.active[i] == Suggestion(k, active[k]);
      }
    }
  }

  // The row under k was marked as gone at least resolveGrace ago.
  predicate GivenUp(cfg: Config, table: Table, inputs: Inputs, k: Key)
  {
    k in table && table[k].clearedAt.Some? && inputs.now - table[k].clearedAt.value >= cfg.resolveGrace
  }

  // When a tick has to say this of an issue: what the suggestions and the table must show.
  ghost predicate Due(cfg: Config, table: Table, inputs: Inputs, k: Key, notice: Notice)
  {
    var Notice(event, severity, previous) := notice;
    var reported := Suggestion(k, severity) in inputs.active;
    var severe := severity.Rank() >= cfg.minSeverity.Rank();
    match event
    case Opened => reported && severe && k !in table && previous == None
    case Escalated =>
      reported && severe && k in table && severity.Rank() > table[k].severity.Rank() && previous == Some(table[k].severity)
    case Reminder =>
      && reported && severe && k in table && severity.Rank() <= table[k].severity.Rank() && table[k].clearedAt.None?
      && 0 < cfg.renotifyAfter <= inputs.now - table[k].notifiedAt && previous == None
    case Downgraded =>
      reported && !severe && GivenUp(cfg, table, inputs, k) && cfg.notifyResolved && previous == Some(table[k].severity)
    case Resolved =>
      && (forall s :: s in inputs.active ==> s.key != k) && k in inputs.resolved
      && GivenUp(cfg, table, inputs, k) && cfg.notifyResolved && severity == table[k].severity && previous == None
  }

  lemma ActiveIs(inputs: Inputs, k: Key)
    requires OneRowPerKey(inputs.active)
    ensures SightOf(inputs, k).now == inputs.now && SightOf(inputs, k).resolved == (k in inputs.resolved)
    ensures SightOf(inputs, k).active.None? <==> forall s :: s in inputs.active ==> s.key != k
    ensures forall severity :: SightOf(inputs, k).active == Some(severity) <==> Suggestion(k, severity) in inputs.active
  {
    var active := BySeverity(inputs.active);
    if k in active {
      var i :| 0 <= i < |inputs.active| && inputs.active[i].key == k;
      assert inputs.active[i] == Suggestion(k, active[k]);
      assert inputs.active[i] in inputs.active;
    }
  }

  // The message says of every issue what is due, and nothing else.
  lemma MessageExactly(cfg: Config, table: Table, inputs: Inputs, items: seq<Item>)
    requires OneRowPerKey(inputs.active) && ItemsOf(cfg, table, inputs, items)
    ensures forall k, notice :: Item(k, notice) in items <==> Due(cfg, table, inputs, k, notice)
  {
    forall k, notice: Notice
      ensures Item(k, notice) in items <==> Due(cfg, table, inputs, k, notice)
    {
      ActiveIs(inputs, k);
      DueIsAnnounced(cfg, table, inputs, k, notice);
    }
  }

  lemma DueIsAnnounced(cfg: Config, table: Table, inputs: Inputs, k: Key, notice: Notice)
    requires SightOf(inputs, k).now == inputs.now && SightOf(inputs, k).resolved == (k in inputs.resolved)
    requires SightOf(inputs, k).active.None? <==> forall s :: s in inputs.active ==> s.key != k
    requires forall severity :: SightOf(inputs, k).active == Some(severity) <==> Suggestion(k, severity) in inputs.active
    ensures var action := ActionFor(cfg, table, inputs, k);
            action.Announce? && action.notice == notice <==> Due(cfg, table, inputs, k, notice)
  {
  }

  // A row is given up when the issue is not alertable and its grace is over; not if
  // writing fails, nor if there was something to announce and it did not go out.
  lemma GivenUpExactly(cfg: Config, before: Table, after: Table, inputs: Inputs, items: seq<Item>, delivered: bool, k: Key)
    requires OneRowPerKey(inputs.active) && ItemsOf(cfg, before, inputs, items)
    requires TableStep(cfg, before, after, inputs, delivered)
    ensures k in before && k !in after <==>
      && GivenUp(cfg, before, inputs, k) && k !in inputs.failing
      && (forall s :: s in inputs.active && s.key == k ==> s.severity.Rank() < cfg.minSeverity.Rank())
      && ((exists notice :: Item(k, notice) in items) ==> delivered)
    ensures k in inputs.failing || (!delivered && exists notice :: Item(k, notice) in items) ==> Lookup(after, k) == Lookup(before, k)
  {
    var action := ActionFor(cfg, before, inputs, k);
    ActiveIs(inputs, k);
    assert KeyStep(cfg, before, after, inputs, delivered, k);
    if action.Announce? {
      assert Item(k, action.notice) in items;
    }
    forall s | s in inputs.active && s.key == k
      ensures SightOf(inputs, k).active == Some(s.severity)
    {
      assert Suggestion(k, s.severity) == s;
    }
  }

  predicate MoreSevere(a: Item, b: Item)
  {
    a.notice.severity.Rank() > b.notice.severity.Rank()
  }

  // deliver: the message counts as sent as soon as one channel accepted it, and also when
  // there was no channel to refuse it.
  predicate Accepted(accepts: seq<bool>)
  {
    accepts == [] || true in accepts
  }

  method Deliver(accepts: seq<bool>) returns (ok: bool)
    ensures ok <==> accepts == [] || true in accepts
  {
    var delivered, errors := 0, 0;
    for i := 0 to |accepts|
      invariant 0 <= delivered && errors == i - delivered
      invariant delivered > 0 <==> true in accepts[..i]
    {
      assert accepts[..i + 1] == accepts[..i] + [accepts[i]];
      if !accepts[i] {
        errors := errors + 1;
        continue;
      }
      delivered := delivered + 1;
    }
    assert accepts[..|accepts|] == accepts;
    return delivered > 0 || errors == 0;
  }

  datatype Pending = Pending(key: Key, write: Write)

  // The lists a tick has filled once it has looked at the issues in seen.
  ghost predicate Collected(cfg: Config, table: Table, inputs: Inputs, seen: set<Key>,
                            items: seq<Item>, onDelivered: seq<Pending>, always: seq<Pending>)
  {
    && |items| == |onDelivered|
    && (forall i :: 0 <= i < |items| ==> Announces(cfg, table, inputs, seen, items[i], onDelivered[i]))
    && (forall i :: 0 <= i < |always| ==> Silences(cfg, table, inputs, seen, always[i]))
    && (forall k :: k in seen ==> Listed(ActionFor(cfg, table, inputs, k), k, items, onDelivered, always))
    && (forall i, j :: 0 <= i < j < |items| ==> items[i].key != items[j].key)
    && (forall i, j :: 0 <= i < j < |always| ==> always[i].key != always[j].key)
  }

  ghost predicate Announces(cfg: Config, table: Table, inputs: Inputs, seen: set<Key>, item: Item, pending: Pending)
  {
    item.key in seen && pending.key == item.key
    && ActionFor(cfg, table, inputs, item.key) == Announce(item.notice, pending.write)
  }

  ghost predicate Silences(cfg: Config, table: Table, inputs: Inputs, seen: set<Key>, pending: Pending)
  {
    pending.key in seen && ActionFor(cfg, table, inputs, pending.key) == Silent(pending.write)
  }

  ghost predicate Listed(action: Action, k: Key, items: seq<Item>, onDelivered: seq<Pending>, always: seq<Pending>)
  {
    match action
    case Idle => true
    case Silent(write) => Pending(k, write) in always
    case Announce(notice, write) => Item(k, notice) in items && Pending(k, write) in onDelivered
  }

  lemma CollectIdle(cfg: Config, table: Table, inputs: Inputs, seen: set<Key>,
                    items: seq<Item>, onDelivered: seq<Pending>, always: seq<Pending>, k: Key)
    requires Collected(cfg, table, inputs, seen, items, onDelivered, always)
    requires ActionFor(cfg, table, inputs, k) == Idle
    ensures Collected(cfg, table, inputs, seen + {k}, items, onDelivered, always)
  {
  }

  lemma CollectSilent(cfg: Config, table: Table, inputs: Inputs, seen: set<Key>,
                      items: seq<Item>, onDelivered: seq<Pending>, always: seq<Pending>, k: Key, write: Write)
    requires Collected(cfg, table, inputs, seen, items, onDelivered, always) && k !in seen
    requires ActionFor(cfg, table, inputs, k) == Silent(write)
    ensures Collected(cfg, table, inputs, seen + {k}, items, onDelivered, always + [Pending(k, write)])
  {
    var always' := always + [Pending(k, write)];
    assert always'[|always|] == Pending(k, write);
    forall k' | k' in seen + {k}
      ensures Listed(ActionFor(cfg, table, inputs, k'), k', items, onDelivered, always')
    {
    }
  }

  lemma CollectAnnounce(cfg: Config, table: Table, inputs: Inputs, seen: set<Key>,
                        items: seq<Item>, onDelivered: seq<Pending>, always: seq<Pending>, k: Key, notice: Notice, write: Write)
    requires Collected(cfg, table, inputs, seen, items, onDelivered, always) && k !in seen
    requires ActionFor(cfg, table, inputs, k) == Announce(notice, write)
    ensures Collected(cfg, table, inputs, seen + {k}, items + [Item(k, notice)], onDelivered + [Pending(k, write)], always)
  {
    var items', onDelivered' := items + [Item(k, notice)], onDelivered + [Pending(k, write)];
    assert items'[|items|] == Item(k, notice) && onDelivered'[|items|] == Pending(k, write);
    forall k' | k' in seen + {k}
      ensures Listed(ActionFor(cfg, table, inputs, k'), k', items', onDelivered', always)
    {
    }
  }

  lemma DeliveredKeysDistinct(cfg: Config, table: Table, inputs: Inputs,
                              items: seq<Item>, onDelivered: seq<Pending>, always: seq<Pending>)
    requires Collected(cfg, table, inputs, table.Keys + BySeverity(inputs.active).Keys, items, onDelivered, always)
    ensures forall i, j :: 0 <= i < j < |onDelivered| ==> onDelivered[i].key != onDelivered[j].key
  {
  }

  ghost predicate Applied(before: Table, after: Table, writes: seq<Pending>, failing: set<Key>)
  {
    && (forall p :: p in writes ==>
          Lookup(after, p.key) == if p.key in failing then Lookup(before, p.key) else p.write.Result())
    && (forall k :: (forall p :: p in writes ==> p.key != k) ==> Lookup(after, k) == Lookup(before, k))
  }

  // The table holds for this issue the state its own run has reached.
  ghost predicate Tracks(cfg: Config, table: Table, history: seq<Record>, key: Key)
  {
    Lookup(table, key) == StateAt(cfg, RunOf(history, key), |history|)
  }

  lemma HistoryGrows(cfg: Config, before: Table, after: Table, history: seq<Record>, record: Record)
    requires forall k :: Tracks(cfg, before, history, k)
    requires TableStep(cfg, before, after, record.inputs, record.delivered)
    ensures forall k :: Tracks(cfg, after, history + [record], k)
  {
    forall k
      ensures Tracks(cfg, after, history + [record], k)
    {
      TrackGrows(cfg, before, after, history, record, k);
    }
  }

  lemma TrackGrows(cfg: Config, before: Table, after: Table, history: seq<Record>, record: Record, key: Key)
    requires Tracks(cfg, before, history, key) && KeyStep(cfg, before, after, record.inputs, record.delivered, key)
    ensures Tracks(cfg, after, history + [record], key)
  {
    RunGrows(cfg, history, record, key);
  }

  predicate GivesUp(cfg: Config, table: Table, inputs: Inputs, key: Key)
  {
    match ActionFor(cfg, table, inputs, key)
    case Idle => false
    case Silent(write) => write.Forget?
    case Announce(_, write) => write.Forget?
  }

  // One of the first n suggestions is about this issue, and severe enough.
  ghost predicate Raised(cfg: Config, active: seq<Suggestion>, n: nat, key: Key)
    requires n <= |active|
  {
    exists j :: 0 <= j < n && active[j].key == key && active[j].severity.Rank() >= cfg.minSeverity.Rank()
  }

  lemma RaisedGrows(cfg: Config, active: seq<Suggestion>, n: nat, seen: set<Key>)
    requires n < |active| && OneRowPerKey(active) && forall k :: k in seen <==> Raised(cfg, active, n, k)
    ensures active[n].key !in seen
    ensures var seen' := if active[n].severity.Rank() < cfg.minSeverity.Rank() then seen else seen + {active[n].key};
            forall k :: k in seen' <==> Raised(cfg, active, n + 1, k)
  {
  }

  lemma RaisedAreAlertable(cfg: Config, inputs: Inputs, seen: set<Key>)
    requires OneRowPerKey(inputs.active)
    requires forall k :: k in seen <==> Raised(cfg, inputs.active, |inputs.active|, k)
    ensures seen == AlertableKeys(cfg, inputs)
  {
  }

  class Notifier {
    const cfg: Config
    // The notification_state table.
    var states: Table
    // Every evaluated tick so far and whether its message went out.
    ghost var history: seq<Record>

    ghost predicate Valid()
      reads this
    {
      forall k :: Tracks(cfg, states, history, k)
    }

    constructor (cfg: Config)
      ensures Valid() && this.cfg == cfg && states == map[] && history == []
    {
      this.cfg := cfg;
      states := map[];
      history := [];
    }

    // What channels have received about an issue so far is a well-bracketed series of
    // periods, the last one open exactly while the issue has a row.
    lemma ChannelsSeePeriods(key: Key)
      requires Valid()
      requires forall i :: 0 <= i < |history| && history[i].delivered ==> key !in history[i].inputs.failing
      ensures Recognise(Letters(cfg, RunOf(history, key), |history|)) == Some(key in states)
    {
      NoticesFollowGrammar(cfg, RunOf(history, key), |history|);
      assert Tracks(cfg, states, history, key);
    }

    // Before a tick gives an issue up it has been away at every tick for resolveGrace,
    // unless a return of it was lost on the way.
    lemma AwayForGrace(inputs: Inputs, key: Key)
      requires Valid() && GivesUp(cfg, states, inputs, key)
      requires forall i :: 0 <= i < |history| ==> !LosesReturn(cfg, RunOf(history, key), i)
      ensures exists s :: 0 <= s < |history| && inputs.now - history[s].inputs.now >= cfg.resolveGrace && AwaySince(key, s)
      ensures !Alertable(cfg, SightOf(inputs, key))
    {
      var run := RunOf(history, key);
      var t := |history|;
      assert Tracks(cfg, states, history, key);
      var s := ClearingTick(cfg, run, t);
      ClearingTickFacts(cfg, run, t);
      QuietSinceClearing(cfg, run, t);
      forall i | s <= i < t
        ensures !Alertable(cfg, SightOf(history[i].inputs, key))
      {
        assert !AlertableAt(cfg, run, i);
      }
      assert AwaySince(key, s);
    }

    ghost predicate AwaySince(key: Key, s: nat)
      reads this
    {
      forall i :: s <= i < |history| ==> !Alertable(cfg, SightOf(history[i].inputs, key))
    }

    // Applies stored writes in order; a failing one leaves its row alone.
    method Apply(writes: seq<Pending>, failing: set<Key>)
      requires forall i, j :: 0 <= i < j < |writes| ==> writes[i].key != writes[j].key
      modifies this`states
      ensures Applied(old(states), states, writes, failing)
    {
      for i := 0 to |writes|
        invariant forall j :: 0 <= j < i ==>
          Lookup(states, writes[j].key) ==
          if writes[j].key in failing then Lookup(old(states), writes[j].key) else writes[j].write.Result()
        invariant forall k :: (forall j :: 0 <= j < i ==> writes[j].key != k) ==> Lookup(states, k) == Lookup(old(states), k)
      {
        var p := writes[i];
        if p.key !in failing {
          match p.write
          case Put(state) => states := states[p.key := state];
          case Forget => states := states - {p.key};
        }
      }
    }

    method EvaluateSuggestions(inputs: Inputs) returns (message: seq<Item>, delivered: bool)
      requires Valid() && OneRowPerKey(inputs.active)
      modifies this
      ensures Valid()
      ensures ItemsOf(cfg, old(states), inputs, message)
      ensures forall i, j :: 0 <= i < j < |message| ==> message[i].notice.severity.Rank() >= message[j].notice.severity.Rank()
      ensures delivered <==> message != [] && (inputs.accepts == [] || true in inputs.accepts)
      ensures TableStep(cfg, old(states), states, inputs, delivered)
      ensures history == old(history) + [Record(inputs, delivered)]
    {
      ghost var before := states;
      var items, onDelivered, always := RaiseActive(inputs);
      items, onDelivered, always := RetireGone(inputs, items, onDelivered, always);
      message, delivered := Settle(inputs, items, onDelivered, always);
      HistoryGrows(cfg, before, states, history, Record(inputs, delivered));
      history := history + [Record(inputs, delivered)];
      forall i, j | 0 <= i < j < |message|
        ensures message[i].notice.severity.Rank() >= message[j].notice.severity.Rank()
      {
        assert !MoreSevere(message[j], message[i]);
      }
    }

    // The message and the writes: some at once, the others only once it is out.
    method Settle(inputs: Inputs, items: seq<Item>, onDelivered: seq<Pending>, always: seq<Pending>)
      returns (message: seq<Item>, delivered: bool)
      requires Collected(cfg, states, inputs, Relevant(inputs), items, onDelivered, always)
      modifies this`states
      ensures ItemsOf(cfg, old(states), inputs, message) && Sorted(message, MoreSevere)
      ensures delivered <==> message != [] && Accepted(inputs.accepts)
      ensures TableStep(cfg, old(states), states, inputs, delivered)
    {
      ghost var before := states;
      Apply(always, inputs.failing);
      ghost var middle := states;
      delivered := false;
      message := Sort(items, MoreSevere);
      SamePopulation(items, message);
      if |items| > 0 {
        SortSorts(items, MoreSevere);
        delivered := Deliver(inputs.accepts);
        if delivered {
          DeliveredKeysDistinct(cfg, before, inputs, items, onDelivered, always);
          Apply(onDelivered, inputs.failing);
        }
      }
      WritesMakeStep(before, middle, states, inputs, items, onDelivered, always, delivered);
      ItemsCollected(before, inputs, items, onDelivered, always, message);
    }

    // The keys a tick has anything to decide about.
    ghost function Relevant(inputs: Inputs): set<Key>
      reads this
    {
      states.Keys + BySeverity(inputs.active).Keys
    }

    // The pass over the active suggestions.
    method RaiseActive(inputs: Inputs) returns (items: seq<Item>, onDelivered: seq<Pending>, always: seq<Pending>)
      requires OneRowPerKey(inputs.active)
      ensures Collected(cfg, states, inputs, AlertableKeys(cfg, inputs), items, onDelivered, always)
    {
      items, onDelivered, always := [], [], [];
      ghost var seen: set<Key> := {};
      for i := 0 to |inputs.active|
        invariant Collected(cfg, states, inputs, seen, items, onDelivered, always)
        invariant forall k :: k in seen <==> Raised(cfg, inputs.active, i, k)
      {
        var sug := inputs.active[i];
        assert SightOf(inputs, sug.key).active == Some(sug.severity);
        RaisedGrows(cfg, inputs.active, i, seen);
        if sug.severity.Rank() < cfg.minSeverity.Rank() {
          continue;
        }
        items, onDelivered, always := RaiseOne(inputs, sug, seen, items, onDelivered, always);
        seen := seen + {sug.key};
      }
      RaisedAreAlertable(cfg, inputs, seen);
    }

    method RaiseOne(inputs: Inputs, sug: Suggestion, ghost seen: set<Key>,
                    items0: seq<Item>, onDelivered0: seq<Pending>, always0: seq<Pending>)
      returns (items: seq<Item>, onDelivered: seq<Pending>, always: seq<Pending>)
      requires Collected(cfg, states, inputs, seen, items0, onDelivered0, always0) && sug.key !in seen
      requires SightOf(inputs, sug.key).active == Some(sug.severity) && sug.severity.Rank() >= cfg.minSeverity.Rank()
      ensures Collected(cfg, states, inputs, seen + {sug.key}, items, onDelivered, always)
    {
      items, onDelivered, always := items0, onDelivered0, always0;
      var key := sug.key;
      var next := IssueState(sug.severity, inputs.now, None);
      if key !in states {
        CollectAnnounce(cfg, states, inputs, seen, items, onDelivered, always, key, Notice(Opened, sug.severity, None), Put(next));
        items := items + [Item(key, Notice(Opened, sug.severity, None))];
        onDelivered := onDelivered + [Pending(key, Put(next))];
      } else if sug.severity.Rank() > states[key].severity.Rank() {
        var notice := Notice(Escalated, sug.severity, Some(states[key].severity));
        CollectAnnounce(cfg, states, inputs, seen, items, onDelivered, always, key, notice, Put(next));
        items := items + [Item(key, notice)];
        onDelivered := onDelivered + [Pending(key, Put(next))];
      } else if states[key].clearedAt.Some? {
        next := next.(notifiedAt := states[key].notifiedAt);
        CollectSilent(cfg, states, inputs, seen, items, onDelivered, always, key, Put(next));
        always := always + [Pending(key, Put(next))];
      } else if cfg.renotifyAfter > 0 && inputs.now - states[key].notifiedAt >= cfg.renotifyAfter {
        CollectAnnounce(cfg, states, inputs, seen, items, onDelivered, always, key, Notice(Reminder, sug.severity, None), Put(next));
        items := items + [Item(key, Notice(Reminder, sug.severity, None))];
        onDelivered := onDelivered + [Pending(key, Put(next))];
      } else if sug.severity != states[key].severity {
        next := next.(notifiedAt := states[key].notifiedAt);
        CollectSilent(cfg, states, inputs, seen, items, onDelivered, always, key, Put(next));
        always := always + [Pending(key, Put(next))];
      } else {
        CollectIdle(cfg, states, inputs, seen, items, onDelivered, always, key);
      }
    }

    // The pass over the stored states, in whatever order the map yields them.
    method RetireGone(inputs: Inputs, items0: seq<Item>, onDelivered0: seq<Pending>, always0: seq<Pending>)
      returns (items: seq<Item>, onDelivered: seq<Pending>, always: seq<Pending>)
      requires Collected(cfg, states, inputs, AlertableKeys(cfg, inputs), items0, onDelivered0, always0)
      ensures Collected(cfg, states, inputs, Relevant(inputs), items, onDelivered, always)
    {
      items, onDelivered, always := items0, onDelivered0, always0;
      var activeByKey := BySeverity(inputs.active);
      ghost var seen := AlertableKeys(cfg, inputs);
      var left := states.Keys;
      while left != {}
        invariant left <= states.Keys
        invariant Collected(cfg, states, inputs, seen, items, onDelivered, always)
        invariant seen <= Relevant(inputs)
        invariant forall k :: k in seen && !Alertable(cfg, SightOf(inputs, k)) ==> k !in left
        invariant forall k :: Alertable(cfg, SightOf(inputs, k)) ==> k in seen
        invariant states.Keys - left <= seen
        decreases |left|
      {
        var key :| key in left;
        left := left - {key};
        var st := states[key];
        if key in activeByKey && activeByKey[key].Rank() >= cfg.minSeverity.Rank() {
          continue;
        }
        if st.clearedAt.None? {
          var cleared := st.(clearedAt := Some(inputs.now));
          CollectSilent(cfg, states, inputs, seen, items, onDelivered, always, key, Put(cleared));
          always := always + [Pending(key, Put(cleared))];
        } else if inputs.now - st.clearedAt.value < cfg.resolveGrace {
          CollectIdle(cfg, states, inputs, seen, items, onDelivered, always, key);
        } else {
          var item: Option<Item> := None;
          if cfg.notifyResolved {
            if key in activeByKey {
              item := Some(Item(key, Notice(Downgraded, activeByKey[key], Some(st.severity))));
            } else if key in inputs.resolved {
              item := Some(Item(key, Notice(Resolved, st.severity, None)));
            }
          }
          if item.None? {
            CollectSilent(cfg, states, inputs, seen, items, onDelivered, always, key, Forget);
            always := always + [Pending(key, Forget)];
          } else {
            CollectAnnounce(cfg, states, inputs, seen, items, onDelivered, always, key, item.value.notice, Forget);
            items := items + [item.value];
            onDelivered := onDelivered + [Pending(key, Forget)];
          }
        }
        seen := seen + {key};
      }
      CollectRest(inputs, seen, items, onDelivered, always);
    }

    // Suggestions below the minimum severity that nothing is stored about decide nothing.
    lemma CollectRest(inputs: Inputs, seen: set<Key>, items: seq<Item>, onDelivered: seq<Pending>, always: seq<Pending>)
      requires Collected(cfg, states, inputs, seen, items, onDelivered, always)
      requires states.Keys <= seen <= Relevant(inputs)
      requires forall k :: Alertable(cfg, SightOf(inputs, k)) ==> k in seen
      ensures Collected(cfg, states, inputs, Relevant(inputs), items, onDelivered, always)
    {
    }

    lemma ItemsCollected(before: Table, inputs: Inputs, items: seq<Item>, onDelivered: seq<Pending>,
                         always: seq<Pending>, message: seq<Item>)
      requires Collected(cfg, before, inputs, before.Keys + BySeverity(inputs.active).Keys, items, onDelivered, always)
      requires multiset(items) == multiset(message)
      ensures ItemsOf(cfg, before, inputs, message)
    {
      SamePopulation(items, message);
      forall item | item in message
        ensures ActionFor(cfg, before, inputs, item.key).Announce?
        ensures ActionFor(cfg, before, inputs, item.key).notice == item.notice
      {
        assert item in items;
        var i :| 0 <= i < |items| && items[i] == item;
        assert Announces(cfg, before, inputs, before.Keys + BySeverity(inputs.active).Keys, items[i], onDelivered[i]);
      }
      forall i | 0 <= i < |message|
        ensures ActionFor(cfg, before, inputs, message[i].key).Announce?
        ensures ActionFor(cfg, before, inputs, message[i].key).notice == message[i].notice
      {
        assert message[i] in message;
      }
      forall k | ActionFor(cfg, before, inputs, k).Announce?
        ensures Item(k, ActionFor(cfg, before, inputs, k).notice) in message
      {
        assert k in before.Keys + BySeverity(inputs.active).Keys;
        assert Listed(ActionFor(cfg, before, inputs, k), k, items, onDelivered, always);
      }
      DistinctKeysSurvive(items, message);
    }

    lemma WritesMakeStep(before: Table, middle: Table, after: Table, inputs: Inputs, items: seq<Item>,
                         onDelivered: seq<Pending>, always: seq<Pending>, delivered: bool)
      requires Collected(cfg, before, inputs, before.Keys + BySeverity(inputs.active).Keys, items, onDelivered, always)
      requires Applied(before, middle, always, inputs.failing)
      requires if delivered then Applied(middle, after, onDelivered, inputs.failing) else after == middle
      ensures TableStep(cfg, before, after, inputs, delivered)
    {
      forall k
        ensures KeyStep(cfg, before, after, inputs, delivered, k)
      {
        WritesDecide(before, inputs, items, onDelivered, always, k);
      }
    }

    // What the two lists of pending writes do to one row.
    lemma WritesDecide(before: Table, inputs: Inputs, items: seq<Item>, onDelivered: seq<Pending>, always: seq<Pending>, k: Key)
      requires Collected(cfg, before, inputs, before.Keys + BySeverity(inputs.active).Keys, items, onDelivered, always)
      ensures match ActionFor(cfg, before, inputs, k)
              case Idle => (forall p :: p in always ==> p.key != k) && (forall p :: p in onDelivered ==> p.key != k)
              case Silent(write) => Pending(k, write) in always && (forall p :: p in onDelivered ==> p.key != k)
              case Announce(_, write) => Pending(k, write) in onDelivered && (forall p :: p in always ==> p.key != k)
    {
      forall p | p in onDelivered
        ensures ActionFor(cfg, before, inputs, p.key).Announce?
      {
        var i :| 0 <= i < |onDelivered| && onDelivered[i] == p;
        assert Announces(cfg, before, inputs, before.Keys + BySeverity(inputs.active).Keys, items[i], onDelivered[i]);
      }
      forall p | p in always
        ensures ActionFor(cfg, before, inputs, p.key).Silent?
      {
        var i :| 0 <= i < |always| && always[i] == p;
        assert Silences(cfg, before, inputs, before.Keys + BySeverity(inputs.active).Keys, always[i]);
      }
      if k in before.Keys + BySeverity(inputs.active).Keys {
        assert Listed(ActionFor(cfg, before, inputs, k), k, items, onDelivered, always);
      }
    }
  }

  // Rearranging items with distinct keys keeps the keys distinct.
  lemma DistinctKeysSurvive(items: seq<Item>, message: seq<Item>)
    requires multiset(items) == multiset(message)
    requires forall i, j :: 0 <= i < j < |items| ==> items[i].key != items[j].key
    ensures forall i, j :: 0 <= i < j < |message| ==> message[i].key != message[j].key
  {
    SamePopulation(items, message);
    RearrangedStaysDistinct(items, message);
    forall i, j | 0 <= i < j < |message|
      ensures message[i].key != message[j].key
    {
      assert message[i] in items && message[j] in items;
      var a :| 0 <= a < |items| && items[a] == message[i];
      var b :| 0 <= b < |items| && items[b] == message[j];
      assert a != b;
    }
  }
}
