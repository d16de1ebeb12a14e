/** The coordinator as an object (internal/collector/coordinator.go). Each method is one
    atomic section of some goroutine; run is the ghost record of the steps so far, so what
    is proved of runs holds of every coordinator. */
module Coordinator {
  import opened Common
  import opened CollectionProtocol

  class Coordinator {
    const collectors: seq<Collector>
    // How many tokens the channel holds.
    var cycle: nat
    var lastRun: map<string, int>
    var calls: seq<Call>
    ghost var run: seq<Step>

    ghost predicate Valid()
      reads this
    {
      && Possible(collectors, run, |run|)
      && StateAt(collectors, run, |run|) == View()
    }

    ghost function View(): State
      reads this
    {
      State(collectors, cycle, lastRun, calls)
    }

    constructor (registered: seq<Collector>)
      ensures Valid() && collectors == registered && run == []
    {
      collectors := registered;
      cycle, lastRun, calls, run := 1, map[], [], [];
    }

    ghost method Took(step: Step)
      requires Possible(collectors, run, |run|) && Enabled(StateAt(collectors, run, |run|), step)
      requires View() == Apply(StateAt(collectors, run, |run|), step)
      modifies this`run
      ensures Valid() && run == old(run) + [step]
    {
      RunExtends(collectors, run, step);
      run := run + [step];
    }

    method Arrive(kind: Kind) returns (id: nat)
      requires Valid()
      modifies this
      ensures Valid() && run == old(run) + [CollectionProtocol.Arrive(kind)] && id == |old(calls)|
    {
      id := |calls|;
      calls := calls + [Call(kind, false, Waiting)];
      Took(CollectionProtocol.Arrive(kind));
    }

    method Cancel(id: nat)
      requires Valid() && id < |calls|
      modifies this
      ensures Valid() && run == old(run) + [CollectionProtocol.Cancel(id)]
    {
      calls := calls[id := calls[id].(cancelled := true)];
      Took(CollectionProtocol.Cancel(id));
    }

    // The select a call starts with. When both a cancellation and the token are ready,
    // either may be chosen. Only CollectAll does not wait.
    method Enter(id: nat, preferDone: bool) returns (entered: bool)
      requires Valid() && id < |calls| && calls[id].phase.Waiting?
      requires calls[id].cancelled || cycle > 0 || calls[id].kind.All?
      modifies this
      ensures Valid()
      ensures entered ==> run == old(run) + [Take(id)]
      ensures !entered ==> run == old(run) + [if old(calls)[id].cancelled then GiveUp(id) else Refuse(id)]
      ensures !old(calls)[id].cancelled && old(cycle) > 0 ==> entered
    {
      if calls[id].cancelled && (preferDone || cycle == 0) {
        calls := calls[id := calls[id].(phase := Over(Cancelled))];
        Took(GiveUp(id));
        return false;
      }
      if cycle > 0 {
        cycle := cycle - 1;
        calls := calls[id := calls[id].(phase := Holding)];
        Took(Take(id));
        return true;
      }
      calls := calls[id := calls[id].(phase := Over(InProgress))];
      Took(Refuse(id));
      return false;
    }

    method GetDueCollectors(now: int) returns (due: seq<Collector>)
      ensures due == DueOf(collectors, lastRun, now)
    {
      due := [];
      for i := 0 to |collectors|
        invariant due == DueOf(collectors[..i], lastRun, now)
      {
        var coll := collectors[i];
        assert collectors[..i + 1][..i] == collectors[..i];
        if coll.name !in lastRun || now - lastRun[coll.name] >= coll.interval {
          due := due + [coll];
        }
      }
      assert collectors[..|collectors|] == collectors;
    }

    // The first collector registered under a name.
    method FindCollector(name: string) returns (target: Option<Collector>)
      ensures Named(collectors, name) == if target.Some? then [target.value] else []
    {
      for i := 0 to |collectors|
        invariant Named(collectors, name) == Named(collectors[i..], name)
      {
        if collectors[i].name == name {
          return Some(collectors[i]);
        }
      }
      return None;
    }

    // What a call does with the token before its workers run.
    method Begin(id: nat, now: int, snapshotOk: bool)
      requires Valid() && id < |calls| && calls[id].phase.Holding?
      modifies this
      ensures Valid() && run == old(run) + [CollectionProtocol.Begin(id, now, snapshotOk)]
    {
      var phase;
      match calls[id].kind {
        case One(name) =>
          var target := FindCollector(name);
          phase := if target.None? then Leaving(NotFound) else Running(Job([target.value], now, map[], {}));
        case _ =>
          var selected := collectors;
          if calls[id].kind.Due? {
            selected := GetDueCollectors(now);
          }
          var job := Job(selected, now, map[], {});
          if |selected| == 0 {
            phase := Leaving(Collected(job));
          } else if !snapshotOk {
            phase := Leaving(NoSnapshot);
          } else {
            phase := Running(job);
          }
      }
      calls := calls[id := calls[id].(phase := phase)];
      Took(CollectionProtocol.Begin(id, now, snapshotOk));
    }

    // The end of runCollector: an error goes into the result, a success into lastRun.
    method FinishWorker(id: nat, worker: nat, now: int, ok: bool)
      requires Valid() && Enabled(View(), Finish(id, worker, now, ok))
      modifies this
      ensures Valid() && run == old(run) + [Finish(id, worker, now, ok)]
    {
      var job := calls[id].phase.job;
      var name := job.selected[worker].name;
      job := job.(outcomes := job.outcomes[worker := ok]);
      if ok {
        lastRun := lastRun[name := now];
      } else {
        job := job.(errors := job.errors + {name});
      }
      calls := calls[id := calls[id].(phase := Running(job))];
      Took(Finish(id, worker, now, ok));
    }

    // The deferred send that gives the token back. It never blocks.
    method Release(id: nat)
      requires Valid() && id < |calls| && ReadyToLeave(calls[id])
      modifies this
      ensures Valid() && run == old(run) + [CollectionProtocol.Release(id)]
      ensures old(cycle) == 0 && cycle == 1
    {
      ReleaseNeverBlocks(collectors, run, |run|, id);
      CyclesNeverOverlap(collectors, run, |run|, id, id);
      var result := if calls[id].phase.Running? then Collected(calls[id].phase.job) else calls[id].phase.result;
      calls := calls[id := calls[id].(phase := Over(result))];
      cycle := cycle + 1;
      Took(CollectionProtocol.Release(id));
    }
  }
}
