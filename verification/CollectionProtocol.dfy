/** The token protocol of collection cycles (internal/collector/coordinator.go), as a state
    machine over the atomic steps of concurrent calls and their workers. */
module CollectionProtocol {
  import opened Common

  datatype Collector = Collector(name: string, interval: int)

  // Collect, CollectAll and RunCollector.
  datatype Kind = Due | All | One(name: string)

  // The collectors a cycle selected, and what its workers have recorded so far, by position.
  datatype Job = Job(selected: seq<Collector>, startedAt: int, outcomes: map<nat, bool>, errors: set<string>)

  datatype Result = Cancelled | InProgress | NotFound | NoSnapshot | Collected(job: Job)

  // A call waits for the token, holds it, runs its workers, and gives the token back.
  datatype Phase = Waiting | Holding | Running(job: Job) | Leaving(result: Result) | Over(result: Result)

  datatype Call = Call(kind: Kind, cancelled: bool, phase: Phase)

  datatype State = State(collectors: seq<Collector>, tokens: nat, lastRun: map<string, int>, calls: seq<Call>)

  datatype Step =
    | Arrive(kind: Kind)
    | Cancel(id: nat)
    | GiveUp(id: nat)
    | Refuse(id: nat)
    | Take(id: nat)
    | Begin(id: nat, now: int, snapshotOk: bool)
    | Finish(id: nat, worker: nat, now: int, ok: bool)
    | Release(id: nat)

  // The channel that carries the token has room for one.
  const CAPACITY := 1

  predicate Holds(c: Call)
  {
    c.phase.Holding? || c.phase.Running? || c.phase.Leaving?
  }

  predicate IsDue(lastRun: map<string, int>, c: Collector, now: int)
  {
    c.name !in lastRun || now - lastRun[c.name] >= c.interval
  }

  function DueOf(collectors: seq<Collector>, lastRun: map<string, int>, now: int): seq<Collector>
  {
    if collectors == [] then []
    else
      var last := collectors[|collectors| - 1];
      DueOf(collectors[..|collectors| - 1], lastRun, now) + if IsDue(lastRun, last, now) then [last] else []
  }

  function Named(collectors: seq<Collector>, name: string): seq<Collector>
  {
    if collectors == [] then [] else if collectors[0].name == name then [collectors[0]] else Named(collectors[1..], name)
  }

  function Selection(s: State, kind: Kind, now: int): seq<Collector>
  {
    match kind
    case Due => DueOf(s.collectors, s.lastRun, now)
    case All => s.collectors
    case One(name) => Named(s.collectors, name)
  }

  predicate WorkersDone(job: Job)
  {
    forall k :: 0 <= k < |job.selected| ==> k in job.outcomes
  }

  // What a call does once it has the token: it leaves without work, or starts its workers.
  function Begun(s: State, kind: Kind, now: int, snapshotOk: bool): Phase
  {
    var selected := Selection(s, kind, now);
    var job := Job(selected, now, map[], {});
    if kind.One? then (if selected == [] then Leaving(NotFound) else Running(job))
    else if selected == [] then Leaving(Collected(job))
    else if !snapshotOk then Leaving(NoSnapshot)
    else Running(job)
  }

  function Recorded(job: Job, worker: nat, ok: bool): Job
    requires worker < |job.selected|
  {
    job.(outcomes := job.outcomes[worker := ok], errors := if ok then job.errors else job.errors + {job.selected[worker].name})
  }

  predicate Enabled(s: State, step: Step)
  {
    match step
    case Arrive(_) => true
    case Cancel(id) => id < |s.calls|
    case GiveUp(id) => id < |s.calls| && s.calls[id].phase.Waiting? && s.calls[id].cancelled
    case Refuse(id) =>
      id < |s.calls| && s.calls[id].phase.Waiting? && s.calls[id].kind.All? && !s.calls[id].cancelled && s.tokens == 0
    case Take(id) => id < |s.calls| && s.calls[id].phase.Waiting? && s.tokens > 0
    case Begin(id, _, _) => id < |s.calls| && s.calls[id].phase.Holding?
    case Finish(id, worker, _, _) =>
      id < |s.calls| && s.calls[id].phase.Running? &&
      worker < |s.calls[id].phase.job.selected| && worker !in s.calls[id].phase.job.outcomes
    case Release(id) => id < |s.calls| && ReadyToLeave(s.calls[id]) && s.tokens < CAPACITY
  }

  predicate ReadyToLeave(c: Call)
  {
    c.phase.Leaving? || (c.phase.Running? && WorkersDone(c.phase.job))
  }

  function WithPhase(s: State, id: nat, phase: Phase): State
    requires id < |s.calls|
  {
    s.(calls := s.calls[id := s.calls[id].(phase := phase)])
  }

  function Apply(s: State, step: Step): State
    requires Enabled(s, step)
  {
    match step
    case Arrive(kind) => s.(calls := s.calls + [Call(kind, false, Waiting)])
    case Cancel(id) => s.(calls := s.calls[id := s.calls[id].(cancelled := true)])
    case GiveUp(id) => WithPhase(s, id, Over(Cancelled))
    case Refuse(id) => WithPhase(s, id, Over(InProgress))
    case Take(id) => WithPhase(s, id, Holding).(tokens := s.tokens - 1)
    case Begin(id, now, snapshotOk) => WithPhase(s, id, Begun(s, s.calls[id].kind, now, snapshotOk))
    case Finish(id, worker, now, ok) =>
      var job := s.calls[id].phase.job;
      var after := WithPhase(s, id, Running(Recorded(job, worker, ok)));
      if ok then after.(lastRun := s.lastRun[job.selected[worker].name := now]) else after
    case Release(id) =>
      var phase := s.calls[id].phase;
      WithPhase(s, id, Over(if phase.Running? then Collected(phase.job) else phase.result)).(tokens := s.tokens + 1)
  }

  // ----- Sums over calls -----

  function Total(calls: seq<Call>, f: Call -> nat): nat
  {
    if calls == [] then 0 else Total(calls[..|calls| - 1], f) + f(calls[|calls| - 1])
  }

  lemma {:induction false} TotalUpdate(calls: seq<Call>, i: nat, c: Call, f: Call -> nat)
    requires i < |calls|
    ensures Total(calls[i := c], f) == Total(calls, f) - f(calls[i]) + f(c)
  {
    var n := |calls| - 1;
    if i < n {
      TotalUpdate(calls[..n], i, c, f);
      assert calls[i := c][..n] == calls[..n][i := c];
    } else {
      assert calls[i := c][..n] == calls[..n];
    }
  }

  lemma TotalAppend(calls: seq<Call>, c: Call, f: Call -> nat)
    ensures Total(calls + [c], f) == Total(calls, f) + f(c)
  {
  }

  lemma {:induction false} TotalHas(calls: seq<Call>, i: nat, f: Call -> nat)
    requires i < |calls|
    ensures Total(calls, f) >= f(calls[i])
  {
    if i < |calls| - 1 {
      TotalHas(calls[..|calls| - 1], i, f);
    }
  }

  lemma {:induction false} TotalHasBoth(calls: seq<Call>, i: nat, j: nat, f: Call -> nat)
    requires i < j < |calls|
    ensures Total(calls, f) >= f(calls[i]) + f(calls[j])
  {
    var n := |calls| - 1;
    if j < n {
      TotalHasBoth(calls[..n], i, j, f);
    } else {
      TotalHas(calls[..n], i, f);
    }
  }

  lemma {:induction false} SomeHas(calls: seq<Call>, f: Call -> nat) returns (i: nat)
    requires Total(calls, f) > 0
    ensures i < |calls| && f(calls[i]) > 0
  {
    var n := |calls| - 1;
    if f(calls[n]) > 0 {
      i := n;
    } else {
      i := SomeHas(calls[..n], f);
    }
  }

  // ----- The invariant -----

  function HolderCount(c: Call): nat
  {
    if Holds(c) then 1 else 0
  }

  // Workers record outcomes only for their own positions, and the errors reported are
  // those of the collectors that failed.
  ghost predicate JobOk(job: Job)
  {
    && (forall k :: k in job.outcomes ==> k < |job.selected|)
    && (forall name :: name in job.errors <==> exists k :: Failed(job, k, name))
  }

  predicate Failed(job: Job, k: nat, name: string)
  {
    k < |job.selected| && k in job.outcomes && !job.outcomes[k] && job.selected[k].name == name
  }

  ghost predicate CallOk(c: Call)
  {
    && (c.phase.Running? ==> JobOk(c.phase.job))
    && (c.phase.Leaving? && c.phase.result.Collected? ==> JobOk(c.phase.result.job) && WorkersDone(c.phase.result.job))
    && (c.phase.Over? && c.phase.result.Collected? ==> JobOk(c.phase.result.job) && WorkersDone(c.phase.result.job))
  }

  ghost predicate Inv(s: State)
  {
    && s.tokens + Total(s.calls, HolderCount) == CAPACITY
    && forall i :: 0 <= i < |s.calls| ==> CallOk(s.calls[i])
  }

  lemma RecordedOk(job: Job, worker: nat, ok: bool)
    requires JobOk(job) && worker < |job.selected| && worker !in job.outcomes
    ensures JobOk(Recorded(job, worker, ok))
  {
    var job' := Recorded(job, worker, ok);
    assert forall k, name :: Failed(job', k, name) <==>
      Failed(job, k, name) || (k == worker && !ok && name == job.selected[worker].name);
    forall name
      ensures name in job'.errors <==> exists k :: Failed(job', k, name)
    {
      if name in job.errors {
        var k :| Failed(job, k, name);
        assert Failed(job', k, name);
      } else if name in job'.errors {
        assert Failed(job', worker, name);
      }
    }
  }

  // A call changes phase, and the tokens make up for whether it holds one.
  lemma PhaseKeepsInv(s: State, id: nat, phase: Phase, s': State)
    requires Inv(s) && id < |s.calls| && CallOk(s.calls[id].(phase := phase))
    requires s'.calls == WithPhase(s, id, phase).calls
    requires s'.tokens + HolderCount(s.calls[id].(phase := phase)) == s.tokens + HolderCount(s.calls[id])
    ensures Inv(s')
  {
    TotalUpdate(s.calls, id, s.calls[id].(phase := phase), HolderCount);
  }

  lemma BegunOk(s: State, kind: Kind, now: int, snapshotOk: bool)
    ensures var phase := Begun(s, kind, now, snapshotOk);
      && (phase.Running? || phase.Leaving?)
      && (phase.Running? ==> JobOk(phase.job))
      && (phase.Leaving? && phase.result.Collected? ==> JobOk(phase.result.job) && WorkersDone(phase.result.job))
  {
  }

  lemma ArriveKeepsInv(s: State, kind: Kind)
    requires Inv(s)
    ensures Inv(Apply(s, Arrive(kind)))
  {
    TotalAppend(s.calls, Call(kind, false, Waiting), HolderCount);
  }

  lemma CancelKeepsInv(s: State, id: nat)
    requires Inv(s) && Enabled(s, Cancel(id))
    ensures Inv(Apply(s, Cancel(id)))
  {
    TotalUpdate(s.calls, id, s.calls[id].(cancelled := true), HolderCount);
  }

  lemma EntryKeepsInv(s: State, step: Step)
    requires Inv(s) && Enabled(s, step) && (step.GiveUp? || step.Refuse? || step.Take?)
    ensures Inv(Apply(s, step))
  {
    var phase := if step.GiveUp? then Over(Cancelled) else if step.Refuse? then Over(InProgress) else Holding;
    PhaseKeepsInv(s, step.id, phase, Apply(s, step));
  }

  lemma BeginKeepsInv(s: State, step: Step)
    requires Inv(s) && Enabled(s, step) && step.Begin?
    ensures Inv(Apply(s, step))
  {
    var phase := Begun(s, s.calls[step.id].kind, step.now, step.snapshotOk);
    BegunOk(s, s.calls[step.id].kind, step.now, step.snapshotOk);
    PhaseKeepsInv(s, step.id, phase, Apply(s, step));
  }

  lemma FinishKeepsInv(s: State, step: Step)
    requires Inv(s) && Enabled(s, step) && step.Finish?
    ensures Inv(Apply(s, step))
  {
    var job := s.calls[step.id].phase.job;
    assert CallOk(s.calls[step.id]);
    RecordedOk(job, step.worker, step.ok);
    PhaseKeepsInv(s, step.id, Running(Recorded(job, step.worker, step.ok)), Apply(s, step));
  }

  lemma ReleaseKeepsInv(s: State, id: nat)
    requires Inv(s) && Enabled(s, Release(id))
    ensures Inv(Apply(s, Release(id)))
  {
    var phase := s.calls[id].phase;
    assert CallOk(s.calls[id]);
    PhaseKeepsInv(s, id, Over(if phase.Running? then Collected(phase.job) else phase.result), Apply(s, Release(id)));
  }

  lemma StepKeepsInv(s: State, step: Step)
    requires Inv(s) && Enabled(s, step)
    ensures Inv(Apply(s, step))
  {
    match step
    case Arrive(kind) => ArriveKeepsInv(s, kind);
    case Cancel(id) => CancelKeepsInv(s, id);
    case Begin(_, _, _) => BeginKeepsInv(s, step);
    case Finish(_, _, _, _) => FinishKeepsInv(s, step);
    case Release(id) => ReleaseKeepsInv(s, id);
    case _ => EntryKeepsInv(s, step);
  }

  // ----- Runs -----

  function Start(collectors: seq<Collector>): State
  {
    State(collectors, CAPACITY, map[], [])
  }

  // The state after the first n steps.
  function StateAt(collectors: seq<Collector>, run: seq<Step>, n: nat): State
    requires n <= |run| && Possible(collectors, run, n)
    decreases n, 1
  {
    if n == 0 then Start(collectors) else Apply(StateAt(collectors, run, n - 1), run[n - 1])
  }

  predicate Possible(collectors: seq<Collector>, run: seq<Step>, n: nat)
    requires n <= |run|
    decreases n, 0
  {
    n == 0 || (Possible(collectors, run, n - 1) && Enabled(StateAt(collectors, run, n - 1), run[n - 1]))
  }

  lemma {:induction false} PossibleBefore(collectors: seq<Collector>, run: seq<Step>, m: nat, n: nat)
    requires m <= n <= |run| && Possible(collectors, run, n)
    ensures Possible(collectors, run, m)
    decreases n
  {
    if m < n {
      PossibleBefore(collectors, run, m, n - 1);
    }
  }

  // A run goes on by one enabled step.
  lemma RunExtends(collectors: seq<Collector>, run: seq<Step>, step: Step)
    requires Possible(collectors, run, |run|) && Enabled(StateAt(collectors, run, |run|), step)
    ensures Possible(collectors, run + [step], |run| + 1)
    ensures StateAt(collectors, run + [step], |run| + 1) == Apply(StateAt(collectors, run, |run|), step)
  {
    SamePrefix(collectors, run, step, |run|);
  }

  lemma {:induction false} SamePrefix(collectors: seq<Collector>, run: seq<Step>, step: Step, n: nat)
    requires n <= |run| && Possible(collectors, run, n)
    ensures Possible(collectors, run + [step], n)
    ensures StateAt(collectors, run + [step], n) == StateAt(collectors, run, n)
  {
    if n > 0 {
      SamePrefix(collectors, run, step, n - 1);
      assert (run + [step])[n - 1] == run[n - 1];
    }
  }

  lemma {:induction false} RunKeepsInv(collectors: seq<Collector>, run: seq<Step>, n: nat)
    requires n <= |run| && Possible(collectors, run, n)
    ensures Inv(StateAt(collectors, run, n))
  {
    if n > 0 {
      RunKeepsInv(collectors, run, n - 1);
      StepKeepsInv(StateAt(collectors, run, n - 1), run[n - 1]);
    }
  }

  // However calls, cancellations and workers interleave, two cycles never overlap.
  lemma CyclesNeverOverlap(collectors: seq<Collector>, run: seq<Step>, n: nat, i: nat, j: nat)
    requires n <= |run| && Possible(collectors, run, n)
    requires var s := StateAt(collectors, run, n); i < |s.calls| && j < |s.calls| && Holds(s.calls[i]) && Holds(s.calls[j])
    ensures i == j && StateAt(collectors, run, n).tokens == 0
  {
    var s := StateAt(collectors, run, n);
    RunKeepsInv(collectors, run, n);
    TotalHas(s.calls, i, HolderCount);
    if i < j {
      TotalHasBoth(s.calls, i, j, HolderCount);
    } else if j < i {
      TotalHasBoth(s.calls, j, i, HolderCount);
    }
  }

  // A call that is ready to leave can always put the token back.
  lemma ReleaseNeverBlocks(collectors: seq<Collector>, run: seq<Step>, n: nat, id: nat)
    requires n <= |run| && Possible(collectors, run, n)
    requires id < |StateAt(collectors, run, n).calls| && ReadyToLeave(StateAt(collectors, run, n).calls[id])
    ensures Enabled(StateAt(collectors, run, n), Release(id))
  {
    CyclesNeverOverlap(collectors, run, n, id, id);
  }

  // CollectAll is told that a collection is in progress only while another call holds the
  // token.
  lemma RefusedByAnother(collectors: seq<Collector>, run: seq<Step>, n: nat, id: nat) returns (other: nat)
    requires n <= |run| && Possible(collectors, run, n) && Enabled(StateAt(collectors, run, n), Refuse(id))
    ensures other < |StateAt(collectors, run, n).calls| && other != id && Holds(StateAt(collectors, run, n).calls[other])
  {
    RunKeepsInv(collectors, run, n);
    other := SomeHas(StateAt(collectors, run, n).calls, HolderCount);
  }

  // ----- One outcome for every selected collector -----

  function JobOf(c: Call): Option<Job>
  {
    match c.phase
    case Running(job) => Some(job)
    case Leaving(Collected(job)) => Some(job)
    case Over(Collected(job)) => Some(job)
    case _ => None
  }

  ghost predicate HasOutcome(s: State, id: nat, worker: nat)
  {
    id < |s.calls| && JobOf(s.calls[id]).Some? && worker in JobOf(s.calls[id]).value.outcomes
  }

  predicate Finishes(step: Step, id: nat, worker: nat)
  {
    step.Finish? && step.id == id && step.worker == worker
  }

  // A step gives a worker its outcome exactly when it is that worker's end.
  lemma StepOutcome(s: State, step: Step, id: nat, worker: nat)
    requires Enabled(s, step)
    ensures HasOutcome(Apply(s, step), id, worker) <==> HasOutcome(s, id, worker) || Finishes(step, id, worker)
  {
    if step.Begin? && step.id == id {
      var phase := Begun(s, s.calls[id].kind, step.now, step.snapshotOk);
      assert phase.Running? ==> phase.job.outcomes == map[];
      assert phase.Leaving? && phase.result.Collected? ==> phase.result.job.outcomes == map[];
    }
  }

  lemma {:induction false} OutcomeMeansEnded(collectors: seq<Collector>, run: seq<Step>, n: nat, id: nat, worker: nat)
    requires n <= |run| && Possible(collectors, run, n)
    ensures HasOutcome(StateAt(collectors, run, n), id, worker) <==> exists i :: 0 <= i < n && Finishes(run[i], id, worker)
  {
    if n > 0 {
      OutcomeMeansEnded(collectors, run, n - 1, id, worker);
      StepOutcome(StateAt(collectors, run, n - 1), run[n - 1], id, worker);
    }
  }

  // A worker's outcome says how it ended.
  lemma {:induction false} OutcomeIsReported(collectors: seq<Collector>, run: seq<Step>, n: nat, id: nat, worker: nat)
    requires n <= |run| && Possible(collectors, run, n) && HasOutcome(StateAt(collectors, run, n), id, worker)
    ensures exists i :: 0 <= i < n && Finishes(run[i], id, worker)
                        && JobOf(StateAt(collectors, run, n).calls[id]).value.outcomes[worker] == run[i].ok
  {
    var before := StateAt(collectors, run, n - 1);
    StepOutcome(before, run[n - 1], id, worker);
    if !Finishes(run[n - 1], id, worker) {
      OutcomeIsReported(collectors, run, n - 1, id, worker);
      OutcomeStays(before, run[n - 1], id, worker);
    }
  }

  lemma OutcomeStays(s: State, step: Step, id: nat, worker: nat)
    requires Enabled(s, step) && HasOutcome(s, id, worker) && !Finishes(step, id, worker)
    ensures HasOutcome(Apply(s, step), id, worker)
    ensures JobOf(Apply(s, step).calls[id]).value.outcomes[worker] == JobOf(s.calls[id]).value.outcomes[worker]
  {
  }

  // Whatever order the workers end in, each position a finished cycle selected has one
  // outcome, recorded by exactly one step of the run.
  lemma OneOutcomeEach(collectors: seq<Collector>, run: seq<Step>, n: nat, id: nat, job: Job, worker: nat)
    requires n <= |run| && Possible(collectors, run, n)
    requires var s := StateAt(collectors, run, n); id < |s.calls| && s.calls[id].phase == Over(Collected(job))
    requires worker < |job.selected|
    ensures exists i :: 0 <= i < n && Finishes(run[i], id, worker)
                        && worker in job.outcomes && job.outcomes[worker] == run[i].ok
                        && forall j :: 0 <= j < n && Finishes(run[j], id, worker) ==> j == i
    ensures forall name :: name in job.errors <==> exists k :: Failed(job, k, name)
  {
    RunKeepsInv(collectors, run, n);
    var s := StateAt(collectors, run, n);
    assert CallOk(s.calls[id]);
    assert HasOutcome(s, id, worker);
    OutcomeMeansEnded(collectors, run, n, id, worker);
    OutcomeIsReported(collectors, run, n, id, worker);
    var i :| 0 <= i < n && Finishes(run[i], id, worker) && job.outcomes[worker] == run[i].ok;
    forall j | 0 <= j < n && Finishes(run[j], id, worker)
      ensures j == i
    {
      EndsOnce(collectors, run, n, id, worker, i, j);
    }
  }

  lemma EndsOnce(collectors: seq<Collector>, run: seq<Step>, n: nat, id: nat, worker: nat, i: nat, j: nat)
    requires n <= |run| && Possible(collectors, run, n) && i < n && j < n
    requires Finishes(run[i], id, worker) && Finishes(run[j], id, worker)
    ensures i == j
  {
    var later := if i < j then j else i;
    PossibleBefore(collectors, run, later + 1, n);
    PossibleBefore(collectors, run, later, n);
    OutcomeMeansEnded(collectors, run, later, id, worker);
    assert Enabled(StateAt(collectors, run, later), run[later]);
  }

  // ----- What Collect starts -----

  lemma {:induction false} DueAre(collectors: seq<Collector>, lastRun: map<string, int>, now: int, c: Collector)
    ensures c in DueOf(collectors, lastRun, now) <==> c in collectors && IsDue(lastRun, c, now)
  {
    if collectors != [] {
      var init, last := collectors[..|collectors| - 1], collectors[|collectors| - 1];
      DueAre(init, lastRun, now, c);
      assert c in collectors <==> c in init || c == last;
    }
  }

  // When a collector of this name last succeeded, in any call.
  ghost function LastSuccess(collectors: seq<Collector>, run: seq<Step>, n: nat, name: string): Option<int>
    requires n <= |run| && Possible(collectors, run, n)
  {
    if n == 0 then None
    else if run[n - 1].Finish? && run[n - 1].ok && RunBy(StateAt(collectors, run, n - 1), run[n - 1]).name == name
    then Some(run[n - 1].now)
    else LastSuccess(collectors, run, n - 1, name)
  }

  function RunBy(s: State, step: Step): Collector
    requires step.Finish? && Enabled(s, step)
  {
    s.calls[step.id].phase.job.selected[step.worker]
  }

  lemma {:induction false} LastRunIsLastSuccess(collectors: seq<Collector>, run: seq<Step>, n: nat, name: string)
    requires n <= |run| && Possible(collectors, run, n)
    ensures Lookup(StateAt(collectors, run, n).lastRun, name) == LastSuccess(collectors, run, n, name)
    ensures StateAt(collectors, run, n).collectors == collectors
  {
    if n > 0 {
      LastRunIsLastSuccess(collectors, run, n - 1, name);
    }
  }

  ghost predicate Rested(collectors: seq<Collector>, run: seq<Step>, n: nat, c: Collector, now: int)
    requires n <= |run| && Possible(collectors, run, n)
  {
    var last := LastSuccess(collectors, run, n, c.name);
    last.None? || now - last.value >= c.interval
  }

  // Collect starts a collector exactly when it never succeeded or its interval has passed
  // since its last success; failed attempts do not count.
  lemma CollectStartsWhatIsDue(collectors: seq<Collector>, run: seq<Step>, n: nat, c: Collector)
    requires n < |run| && Possible(collectors, run, n + 1)
    requires run[n].Begin? && StateAt(collectors, run, n).calls[run[n].id].kind.Due?
    ensures var job := JobOf(StateAt(collectors, run, n + 1).calls[run[n].id]);
      job.Some? ==> (c in job.value.selected <==> c in collectors && Rested(collectors, run, n, c, run[n].now))
    ensures JobOf(StateAt(collectors, run, n + 1).calls[run[n].id]).None? ==> !run[n].snapshotOk
  {
    var s := StateAt(collectors, run, n);
    LastRunIsLastSuccess(collectors, run, n, c.name);
    DueAre(s.collectors, s.lastRun, run[n].now, c);
  }

  // With nothing due the call is done, snapshot or not; otherwise it takes a snapshot to
  // start anything.
  lemma CollectNeedsSnapshot(collectors: seq<Collector>, run: seq<Step>, n: nat)
    requires n < |run| && Possible(collectors, run, n + 1)
    requires run[n].Begin? && StateAt(collectors, run, n).calls[run[n].id].kind.Due?
    ensures var phase := StateAt(collectors, run, n + 1).calls[run[n].id].phase;
            if forall c :: c in collectors ==> !Rested(collectors, run, n, c, run[n].now) then
              phase == Leaving(Collected(Job([], run[n].now, map[], {})))
            else if run[n].snapshotOk then phase.Running? && phase.job.startedAt == run[n].now && phase.job.outcomes == map[]
            else phase == Leaving(NoSnapshot)
  {
    var s := StateAt(collectors, run, n);
    LastRunIsLastSuccess(collectors, run, n, "");
    var due := DueOf(s.collectors, s.lastRun, run[n].now);
    forall c: Collector
      ensures c in due <==> c in collectors && Rested(collectors, run, n, c, run[n].now)
    {
      LastRunIsLastSuccess(collectors, run, n, c.name);
      DueAre(s.collectors, s.lastRun, run[n].now, c);
    }
    if due != [] {
      assert due[0] in due;
    }
  }

  // ----- What a call is told in the end -----

  // This call began its work at step i.
  predicate BeganAt(run: seq<Step>, i: int, id: nat)
  {
    0 <= i < |run| && run[i].Begin? && run[i].id == id
  }

  ghost predicate ResultTrue(collectors: seq<Collector>, run: seq<Step>, n: nat, id: nat, kind: Kind, cancelled: bool, result: Result)
  {
    match result
    case Cancelled => cancelled
    case InProgress => kind.All?
    case NotFound => kind.One? && forall c :: c in collectors ==> c.name != kind.name
    case NoSnapshot => !kind.One? && exists i :: i < n && BeganAt(run, i, id) && !run[i].snapshotOk
    case Collected(job) => exists i :: i < n && BeganAt(run, i, id) && run[i].now == job.startedAt
  }

  ghost predicate CallTrue(collectors: seq<Collector>, run: seq<Step>, n: nat, id: nat, c: Call)
  {
    match c.phase
    case Running(job) => ResultTrue(collectors, run, n, id, c.kind, c.cancelled, Collected(job))
    case Leaving(result) => ResultTrue(collectors, run, n, id, c.kind, c.cancelled, result)
    case Over(result) => ResultTrue(collectors, run, n, id, c.kind, c.cancelled, result)
    case _ => true
  }

  lemma TrueStays(collectors: seq<Collector>, run: seq<Step>, n: nat, id: nat, c: Call)
    requires CallTrue(collectors, run, n, id, c)
    ensures CallTrue(collectors, run, n + 1, id, c) && CallTrue(collectors, run, n + 1, id, c.(cancelled := true))
  {
  }

  lemma BegunIsTrue(collectors: seq<Collector>, run: seq<Step>, n: nat, s: State)
    requires n < |run| && s.collectors == collectors && Enabled(s, run[n]) && run[n].Begin?
    ensures CallTrue(collectors, run, n + 1, run[n].id, Apply(s, run[n]).calls[run[n].id])
  {
    var kind := s.calls[run[n].id].kind;
    assert BeganAt(run, n, run[n].id);
    if kind.One? {
      NamedIsFirst(collectors, kind.name);
    }
  }

  // Whatever a call is told is true: it was cancelled, another collection was running, no
  // such collector exists, no snapshot could be made, or its work was done.
  lemma {:induction false} ToldTheTruth(collectors: seq<Collector>, run: seq<Step>, n: nat, id: nat)
    requires n <= |run| && Possible(collectors, run, n) && id < |StateAt(collectors, run, n).calls|
    ensures CallTrue(collectors, run, n, id, StateAt(collectors, run, n).calls[id])
  {
    if n > 0 {
      var s, step := StateAt(collectors, run, n - 1), run[n - 1];
      LastRunIsLastSuccess(collectors, run, n - 1, "");
      if id < |s.calls| {
        ToldTheTruth(collectors, run, n - 1, id);
        TrueStays(collectors, run, n - 1, id, s.calls[id]);
        if step.Begin? && step.id == id {
          BegunIsTrue(collectors, run, n - 1, s);
        }
      }
    }
  }

  // A call leaves with what it has: the job its workers ended, or the result it was given.
  lemma ReleaseKeepsResult(s: State, id: nat)
    requires Enabled(s, Release(id))
    ensures var phase := s.calls[id].phase;
            Apply(s, Release(id)).calls[id].phase == Over(if phase.Running? then Collected(phase.job) else phase.result)
  {
  }

  // The first collector registered under this name.
  ghost predicate FirstNamed(collectors: seq<Collector>, name: string, c: Collector)
  {
    exists i :: 0 <= i < |collectors| && collectors[i] == c && c.name == name &&
                forall j :: 0 <= j < i ==> collectors[j].name != name
  }

  lemma {:induction false} NamedIsFirst(collectors: seq<Collector>, name: string)
    ensures Named(collectors, name) == [] <==> forall c :: c in collectors ==> c.name != name
    ensures Named(collectors, name) != [] ==>
      |Named(collectors, name)| == 1 && FirstNamed(collectors, name, Named(collectors, name)[0])
  {
    if collectors != [] && collectors[0].name != name {
      var rest := collectors[1..];
      NamedIsFirst(rest, name);
      assert forall c :: c in collectors <==> c in rest || c == collectors[0];
      if Named(rest, name) != [] {
        var c := Named(rest, name)[0];
        var i :| 0 <= i < |rest| && rest[i] == c && c.name == name && forall j :: 0 <= j < i ==> rest[j].name != name;
        assert collectors[i + 1] == c;
        assert forall j :: 0 < j < i + 1 ==> collectors[j] == rest[j - 1];
      }
    } else if collectors != [] {
      assert collectors[0] in collectors;
      assert FirstNamed(collectors, name, collectors[0]);
    }
  }

  // CollectAll starts all collectors there are, due or not; without a snapshot to collect
  // into it starts none.
  lemma CollectAllStartsAll(collectors: seq<Collector>, run: seq<Step>, n: nat)
    requires n < |run| && Possible(collectors, run, n + 1)
    requires run[n].Begin? && StateAt(collectors, run, n).calls[run[n].id].kind.All?
    ensures var phase := StateAt(collectors, run, n + 1).calls[run[n].id].phase;
            if collectors == [] then phase.Leaving? && phase.result.Collected? && phase.result.job.selected == []
            else if run[n].snapshotOk then phase == Running(Job(collectors, run[n].now, map[], {}))
            else phase == Leaving(NoSnapshot)
  {
    LastRunIsLastSuccess(collectors, run, n, "");
  }

  // RunCollector starts the first collector of its name, due or not, or finds none.
  lemma RunCollectorStartsOne(collectors: seq<Collector>, run: seq<Step>, n: nat, name: string)
    requires n < |run| && Possible(collectors, run, n + 1)
    requires run[n].Begin? && StateAt(collectors, run, n).calls[run[n].id].kind == One(name)
    ensures var phase := StateAt(collectors, run, n + 1).calls[run[n].id].phase;
            if exists c :: c in collectors && c.name == name then
              exists c :: FirstNamed(collectors, name, c) && phase == Running(Job([c], run[n].now, map[], {}))
            else phase == Leaving(NotFound)
  {
    LastRunIsLastSuccess(collectors, run, n, name);
    NamedIsFirst(collectors, name);
    if Named(collectors, name) != [] {
      var c := Named(collectors, name)[0];
      assert Named(collectors, name) == [c];
      assert FirstNamed(collectors, name, c);
    }
  }

  // ----- Every call ends -----

  // The workers of a job, among the first n, that have not ended.
  function Unfinished(job: Job, n: nat): nat
  {
    if n == 0 then 0 else Unfinished(job, n - 1) + if n - 1 in job.outcomes then 0 else 1
  }

  // The most steps a call can still take.
  function Work(c: Call, collectors: nat): nat
  {
    match c.phase
    case Waiting => collectors + 3
    case Holding => collectors + 2
    case Running(job) => Unfinished(job, |job.selected|) + 1
    case Leaving(_) => 1
    case Over(_) => 0
  }

  function WorkWith(collectors: nat): Call -> nat
  {
    c => Work(c, collectors)
  }

  function Measure(s: State): nat
  {
    Total(s.calls, WorkWith(|s.collectors|))
  }

  // Steps of the coordinator itself; calls arrive and are cancelled from outside.
  predicate Internal(step: Step)
  {
    !step.Arrive? && !step.Cancel?
  }

  lemma {:induction false} UnfinishedBound(job: Job, n: nat)
    ensures Unfinished(job, n) <= n
  {
    if n > 0 {
      UnfinishedBound(job, n - 1);
    }
  }

  lemma {:induction false} RecordedWork(job: Job, worker: nat, ok: bool, n: nat)
    requires worker < |job.selected| && worker !in job.outcomes
    ensures Unfinished(Recorded(job, worker, ok), n) == Unfinished(job, n) - if worker < n then 1 else 0
  {
    if n > 0 {
      RecordedWork(job, worker, ok, n - 1);
    }
  }

  lemma {:induction false} SelectionShort(s: State, kind: Kind, now: int)
    ensures |Selection(s, kind, now)| <= |s.collectors|
  {
    match kind
    case Due => DueShort(s.collectors, s.lastRun, now);
    case All =>
    case One(name) => NamedShort(s.collectors, name);
  }

  lemma {:induction false} DueShort(collectors: seq<Collector>, lastRun: map<string, int>, now: int)
    ensures |DueOf(collectors, lastRun, now)| <= |collectors|
  {
    if collectors != [] {
      DueShort(collectors[..|collectors| - 1], lastRun, now);
    }
  }

  lemma {:induction false} NamedShort(collectors: seq<Collector>, name: string)
    ensures |Named(collectors, name)| <= |collectors|
  {
    if collectors != [] {
      NamedShort(collectors[1..], name);
    }
  }

  lemma PhaseWork(s: State, id: nat, phase: Phase)
    requires id < |s.calls|
    ensures Measure(WithPhase(s, id, phase)) ==
            Measure(s) - Work(s.calls[id], |s.collectors|) + Work(s.calls[id].(phase := phase), |s.collectors|)
  {
    TotalUpdate(s.calls, id, s.calls[id].(phase := phase), WorkWith(|s.collectors|));
  }

  // Every internal step brings the end nearer.
  lemma StepsDecrease(s: State, step: Step)
    requires Enabled(s, step) && Internal(step)
    ensures Measure(Apply(s, step)) < Measure(s)
  {
    match step
    case GiveUp(id) => PhaseWork(s, id, Over(Cancelled));
    case Refuse(id) => PhaseWork(s, id, Over(InProgress));
    case Take(id) => PhaseWork(s, id, Holding);
    case Begin(id, now, snapshotOk) =>
      var selected := Selection(s, s.calls[id].kind, now);
      SelectionShort(s, s.calls[id].kind, now);
      UnfinishedBound(Job(selected, now, map[], {}), |selected|);
      PhaseWork(s, id, Begun(s, s.calls[id].kind, now, snapshotOk));
    case Finish(id, worker, now, ok) =>
      var job := s.calls[id].phase.job;
      RecordedWork(job, worker, ok, |job.selected|);
      PhaseWork(s, id, Running(Recorded(job, worker, ok)));
    case Release(id) =>
      var phase := s.calls[id].phase;
      PhaseWork(s, id, Over(if phase.Running? then Collected(phase.job) else phase.result));
  }

  predicate AllOver(s: State)
  {
    forall i :: 0 <= i < |s.calls| ==> s.calls[i].phase.Over?
  }

  // No reachable state is stuck before every call is over.
  lemma NeverStuck(collectors: seq<Collector>, run: seq<Step>, n: nat) returns (step: Step)
    requires n <= |run| && Possible(collectors, run, n) && !AllOver(StateAt(collectors, run, n))
    ensures Enabled(StateAt(collectors, run, n), step) && Internal(step)
  {
    var s := StateAt(collectors, run, n);
    RunKeepsInv(collectors, run, n);
    var id: nat :| id < |s.calls| && !s.calls[id].phase.Over?;
    if s.calls[id].phase.Waiting? {
      if s.tokens > 0 {
        return Take(id);
      }
      id := SomeHas(s.calls, HolderCount);
    }
    match s.calls[id].phase
    case Holding => return Begin(id, 0, true);
    case Leaving(_) =>
      ReleaseNeverBlocks(collectors, run, n, id);
      return Release(id);
    case Running(job) =>
      if WorkersDone(job) {
        ReleaseNeverBlocks(collectors, run, n, id);
        return Release(id);
      }
      var k: nat :| k < |job.selected| && k !in job.outcomes;
      return Finish(id, k, 0, true);
  }

  // While no more calls arrive, a run can only go on for so long; with NeverStuck, it goes
  // on until every call is over.
  lemma {:induction false} RunsEnd(collectors: seq<Collector>, run: seq<Step>, m: nat, n: nat)
    requires m <= n <= |run| && Possible(collectors, run, m) && Possible(collectors, run, n)
    requires forall i :: m <= i < n ==> Internal(run[i])
    ensures n - m + Measure(StateAt(collectors, run, n)) <= Measure(StateAt(collectors, run, m))
    decreases n
  {
    if m < n {
      RunsEnd(collectors, run, m, n - 1);
      LastStepDecreases(collectors, run, n);
    }
  }

  lemma LastStepDecreases(collectors: seq<Collector>, run: seq<Step>, n: nat)
    requires 0 < n <= |run| && Possible(collectors, run, n) && Internal(run[n - 1])
    ensures Measure(StateAt(collectors, run, n)) < Measure(StateAt(collectors, run, n - 1))
  {
    StepsDecrease(StateAt(collectors, run, n - 1), run[n - 1]);
  }

  // When every call is over, the token is back.
  lemma {:induction false} TokenIsBack(collectors: seq<Collector>, run: seq<Step>, n: nat)
    requires n <= |run| && Possible(collectors, run, n) && AllOver(StateAt(collectors, run, n))
    ensures StateAt(collectors, run, n).tokens == 1
  {
    var s := StateAt(collectors, run, n);
    RunKeepsInv(collectors, run, n);
    if Total(s.calls, HolderCount) > 0 {
      var id := SomeHas(s.calls, HolderCount);
    }
  }
}
