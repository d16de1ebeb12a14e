/** Whole runs of the notifier, seen from one issue: any sequence of evaluated ticks,
    any pattern of delivery failures and of failed state writes. */
module AlertRuns {
  import opened Common
  import opened AlertStep

  datatype Tick = Tick(sight: Sight, delivered: bool, stored: bool)

  type Run = seq<Tick>

  // The issue's row before tick n, starting from an empty table.
  function StateAt(cfg: Config, run: Run, n: nat): Option<IssueState>
    requires n <= |run|
  {
    if n == 0 then None
    else
      var tick := run[n - 1];
      Next(cfg, StateAt(cfg, run, n - 1), tick.sight, tick.delivered, tick.stored)
  }

  function ActionAt(cfg: Config, run: Run, i: nat): Action
    requires i < |run|
  {
    Decide(cfg, StateAt(cfg, run, i), run[i].sight)
  }

  predicate Sends(cfg: Config, run: Run, i: nat)
    requires i < |run|
  {
    ActionAt(cfg, run, i).Announce? && run[i].delivered
  }

  predicate AlertableAt(cfg: Config, run: Run, i: nat)
    requires i < |run|
  {
    Alertable(cfg, run[i].sight)
  }

  // Opened, Escalated and Reminder notices: the ones that report an issue as present.
  predicate IsAlert(event: Event)
  {
    event.Opened? || event.Escalated? || event.Reminder?
  }

  predicate SendsAlert(cfg: Config, run: Run, i: nat)
    requires i < |run|
  {
    Sends(cfg, run, i) && IsAlert(ActionAt(cfg, run, i).notice.event)
  }

  predicate Forgets(cfg: Config, run: Run, i: nat)
    requires i < |run|
  {
    var action := ActionAt(cfg, run, i);
    || (action.Silent? && action.write.Forget?)
    || (action.Announce? && action.write.Forget?)
  }

  // Every notice that reached a channel was also recorded.
  ghost predicate SendsAreStored(cfg: Config, run: Run)
  {
    forall i :: 0 <= i < |run| && Sends(cfg, run, i) ==> run[i].stored
  }

  // ----- The grammar of what a channel receives -----

  datatype Letter = Sent(event: Event) | Dropped

  function LetterOf(action: Action, delivered: bool, stored: bool): Option<Letter>
  {
    match action
    case Idle => None
    case Silent(write) => if write.Forget? && stored then Some(Dropped) else None
    case Announce(notice, _) => if delivered then Some(Sent(notice.event)) else None
  }

  function Letters(cfg: Config, run: Run, n: nat): seq<Letter>
    requires n <= |run|
  {
    if n == 0 then []
    else
      var before := Letters(cfg, run, n - 1);
      match LetterOf(ActionAt(cfg, run, n - 1), run[n - 1].delivered, run[n - 1].stored)
      case None => before
      case Some(letter) => before + [letter]
  }

  // One step of the recogniser of
  //   (Opened (Escalated | Reminder)* (Resolved | Downgraded | Dropped))*
  // and its prefixes. open says whether the last period still runs; None is rejection.
  function Advance(open: bool, letter: Letter): Option<bool>
  {
    match letter
    case Sent(Opened) => if open then None else Some(true)
    case Sent(Escalated) => if open then Some(true) else None
    case Sent(Reminder) => if open then Some(true) else None
    case _ => if open then Some(false) else None
  }

  function Recognise(word: seq<Letter>): Option<bool>
  {
    if word == [] then Some(false)
    else
      match Recognise(word[..|word| - 1])
      case None => None
      case Some(open) => Advance(open, word[|word| - 1])
  }

  lemma LetterMatchesStep(cfg: Config, st: Option<IssueState>, sight: Sight, delivered: bool, stored: bool)
    requires Decide(cfg, st, sight).Announce? && delivered ==> stored
    ensures var after := Next(cfg, st, sight, delivered, stored);
            match LetterOf(Decide(cfg, st, sight), delivered, stored)
            case None => after.Some? == st.Some?
            case Some(letter) => Advance(st.Some?, letter) == Some(after.Some?)
  {
  }

  // However deliveries fail, the notices a channel receives about an issue form
  // well-bracketed periods, and a period is open exactly while the issue is tracked.
  lemma {:induction false} NoticesFollowGrammar(cfg: Config, run: Run, n: nat)
    requires n <= |run| && SendsAreStored(cfg, run)
    ensures Recognise(Letters(cfg, run, n)) == Some(StateAt(cfg, run, n).Some?)
  {
    if n > 0 {
      var i := n - 1;
      var tick := run[i];
      NoticesFollowGrammar(cfg, run, i);
      assert Sends(cfg, run, i) ==> tick.stored;
      LetterMatchesStep(cfg, StateAt(cfg, run, i), tick.sight, tick.delivered, tick.stored);
      var before := Letters(cfg, run, i);
      match LetterOf(ActionAt(cfg, run, i), tick.delivered, tick.stored)
      case None =>
      case Some(letter) =>
        assert (before + [letter])[..|before|] == before;
    }
  }

  // ----- Spacing of alerts -----

  // The last tick before n that delivered an alert.
  function LastAlert(cfg: Config, run: Run, n: nat): (last: Option<nat>)
    requires n <= |run|
    ensures last.Some? ==> last.value < n && SendsAlert(cfg, run, last.value)
    ensures forall i :: (if last.Some? then last.value else -1) < i < n ==> !SendsAlert(cfg, run, i)
  {
    if n == 0 then None
    else if SendsAlert(cfg, run, n - 1) then Some(n - 1)
    else LastAlert(cfg, run, n - 1)
  }

  // The severity of the last alert before tick n.
  function Alerted(cfg: Config, run: Run, n: nat): Severity
    requires n <= |run| && LastAlert(cfg, run, n).Some?
  {
    ActionAt(cfg, run, LastAlert(cfg, run, n).value).notice.severity
  }

  ghost predicate TrackedDuring(cfg: Config, run: Run, from: nat, to: nat)
    requires to <= |run|
  {
    forall i :: from < i <= to ==> StateAt(cfg, run, i).Some?
  }

  ghost predicate SeenAt(cfg: Config, run: Run, i: nat, severity: Severity)
    requires i < |run|
  {
    AlertableAt(cfg, run, i) && run[i].sight.active == Some(severity)
  }

  // While an issue is tracked, notified_at is the time of its last delivered alert, it
  // has been tracked ever since, and the remembered severity was seen since then.
  lemma {:induction false} NotifiedAtIsLastAlert(cfg: Config, run: Run, n: nat)
    requires n <= |run| && SendsAreStored(cfg, run) && StateAt(cfg, run, n).Some?
    ensures var last, st := LastAlert(cfg, run, n), StateAt(cfg, run, n).value;
            && last.Some?
            && st.notifiedAt == run[last.value].sight.now
            && TrackedDuring(cfg, run, last.value, n)
            && exists m :: last.value <= m < n && SeenAt(cfg, run, m, st.severity)
  {
    var i := n - 1;
    var st := StateAt(cfg, run, n).value;
    if SendsAlert(cfg, run, i) {
      assert SeenAt(cfg, run, i, st.severity);
    } else {
      assert StateAt(cfg, run, i).Some?;
      NotifiedAtIsLastAlert(cfg, run, i);
      var before := StateAt(cfg, run, i).value;
      var last := LastAlert(cfg, run, i).value;
      assert st.notifiedAt == before.notifiedAt;
      if st.severity == before.severity {
        var m :| last <= m < i && SeenAt(cfg, run, m, before.severity);
        assert SeenAt(cfg, run, m, st.severity);
      } else {
        assert SeenAt(cfg, run, i, st.severity);
      }
    }
  }

  // Two consecutive alerts of one tracking period: the second is a reminder at least
  // renotifyAfter later, or an escalation above a severity seen in between.
  lemma {:induction false} AlertsAreSpaced(cfg: Config, run: Run, j: nat)
    requires j < |run| && SendsAreStored(cfg, run) && SendsAlert(cfg, run, j)
    ensures var notice, last := ActionAt(cfg, run, j).notice, LastAlert(cfg, run, j);
            if notice.event.Opened? then StateAt(cfg, run, j).None?
            else
              && last.Some?
              && TrackedDuring(cfg, run, last.value, j)
              && (notice.event.Reminder? ==>
                    0 < cfg.renotifyAfter <= run[j].sight.now - run[last.value].sight.now)
              && (notice.event.Escalated? ==>
                    && notice.previous.Some?
                    && notice.previous.value.Rank() < notice.severity.Rank()
                    && exists m :: last.value <= m < j && SeenAt(cfg, run, m, notice.previous.value))
              && (StateAt(cfg, run, j).value.severity.Rank() >= Alerted(cfg, run, j).Rank() ==>
                    || notice.severity.Rank() > Alerted(cfg, run, j).Rank()
                    || run[j].sight.now - run[last.value].sight.now >= cfg.renotifyAfter)
  {
    if StateAt(cfg, run, j).Some? {
      NotifiedAtIsLastAlert(cfg, run, j);
    }
  }

  // The tick saw the issue alertable, and the row knows.
  predicate Recorded(cfg: Config, run: Run, i: nat)
    requires i < |run|
  {
    && AlertableAt(cfg, run, i)
    && (ActionAt(cfg, run, i).Idle? || (run[i].stored && (ActionAt(cfg, run, i).Announce? ==> run[i].delivered)))
  }

  function LastRecorded(cfg: Config, run: Run, n: nat): (last: Option<nat>)
    requires n <= |run|
    ensures last.Some? ==> last.value < n && Recorded(cfg, run, last.value)
    ensures forall i :: (if last.Some? then last.value else -1) < i < n ==> !Recorded(cfg, run, i)
  {
    if n == 0 then None
    else if Recorded(cfg, run, n - 1) then Some(n - 1)
    else LastRecorded(cfg, run, n - 1)
  }

  // The severity a row remembers is the one last seen and recorded.
  lemma {:induction false} RememberedIsLastRecorded(cfg: Config, run: Run, n: nat)
    requires n <= |run| && StateAt(cfg, run, n).Some?
    ensures var last := LastRecorded(cfg, run, n);
            last.Some? && run[last.value].sight.active == Some(StateAt(cfg, run, n).value.severity)
  {
    if !Recorded(cfg, run, n - 1) {
      assert StateAt(cfg, run, n - 1).Some?;
      RememberedIsLastRecorded(cfg, run, n - 1);
    }
  }

  // What an alert about a tracked issue would be, at any severity it may be seen at next.
  predicate Alerts(cfg: Config, st: IssueState, severity: Severity, now: int)
  {
    var action := Decide(cfg, Some(st), Sight(now, Some(severity), false));
    action.Announce? && IsAlert(action.notice.event)
  }

  lemma AlertsExactly(cfg: Config, st: IssueState, severity: Severity, now: int)
    ensures Alerts(cfg, st, severity, now) <==>
      && severity.Rank() >= cfg.minSeverity.Rank()
      && (severity.Rank() > st.severity.Rank()
          || (st.clearedAt.None? && cfg.renotifyAfter > 0 && now - st.notifiedAt >= cfg.renotifyAfter))
  {
  }

  // Whatever is seen next, an alert exceeds this severity or comes late enough.
  ghost predicate RisesOrWaits(cfg: Config, st: IssueState, alerted: Severity, now: int)
  {
    forall severity :: Alerts(cfg, st, severity, now) ==>
      severity.Rank() > alerted.Rank() || now - st.notifiedAt >= cfg.renotifyAfter
  }

  lemma SpacingOfRow(cfg: Config, st: IssueState, alerted: Severity, now: int)
    requires alerted.Rank() >= cfg.minSeverity.Rank()
    ensures RisesOrWaits(cfg, st, alerted, now) <==>
      st.severity.Rank() >= alerted.Rank() || now - st.notifiedAt >= cfg.renotifyAfter
  {
    forall severity: Severity
      ensures Alerts(cfg, st, severity, now) ==>
        severity.Rank() > st.severity.Rank() || now - st.notifiedAt >= cfg.renotifyAfter
    {
      AlertsExactly(cfg, st, severity, now);
    }
    AlertsExactly(cfg, st, alerted, now);
  }

  lemma LastAlertFacts(cfg: Config, run: Run, n: nat)
    requires n <= |run| && SendsAreStored(cfg, run) && StateAt(cfg, run, n).Some?
    ensures LastAlert(cfg, run, n).Some? && Alerted(cfg, run, n).Rank() >= cfg.minSeverity.Rank()
    ensures StateAt(cfg, run, n).value.notifiedAt == run[LastAlert(cfg, run, n).value].sight.now
  {
    NotifiedAtIsLastAlert(cfg, run, n);
  }

  // The next alert of a period, whatever is seen, rises above the last one or comes at
  // least renotifyAfter after it, if and only if the row remembers no lower severity than
  // that alert's, or renotifyAfter has passed anyway. What the row remembers is the
  // severity last recorded.
  lemma SpacedExactly(cfg: Config, run: Run, n: nat, now: int) returns (last: nat, seen: nat)
    requires n <= |run| && SendsAreStored(cfg, run) && StateAt(cfg, run, n).Some?
    ensures LastAlert(cfg, run, n) == Some(last) && LastRecorded(cfg, run, n) == Some(seen)
    ensures var st, alerted := StateAt(cfg, run, n).value, ActionAt(cfg, run, last).notice.severity;
      && st.notifiedAt == run[last].sight.now
      && run[seen].sight.active == Some(st.severity)
      && (RisesOrWaits(cfg, st, alerted, now) <==>
            st.severity.Rank() >= alerted.Rank() || now - run[last].sight.now >= cfg.renotifyAfter)
  {
    LastAlertFacts(cfg, run, n);
    RememberedIsLastRecorded(cfg, run, n);
    last, seen := LastAlert(cfg, run, n).value, LastRecorded(cfg, run, n).value;
    SpacingOfRow(cfg, StateAt(cfg, run, n).value, Alerted(cfg, run, n), now);
  }

  predicate Escalates(cfg: Config, st: IssueState, severity: Severity, now: int)
  {
    var action := Decide(cfg, Some(st), Sight(now, Some(severity), false));
    action.Announce? && action.notice.event.Escalated?
  }

  // Escalations alone, which wait for nothing: each is a rise exactly while the row
  // remembers at least the last alert's severity.
  lemma RiseExactly(cfg: Config, run: Run, n: nat, now: int)
    requires n <= |run| && SendsAreStored(cfg, run) && StateAt(cfg, run, n).Some?
    ensures LastAlert(cfg, run, n).Some?
    ensures var st, alerted := StateAt(cfg, run, n).value, Alerted(cfg, run, n);
      (forall severity :: Escalates(cfg, st, severity, now) ==> severity.Rank() > alerted.Rank())
      <==> st.severity.Rank() >= alerted.Rank()
  {
    NotifiedAtIsLastAlert(cfg, run, n);
    var st, alerted := StateAt(cfg, run, n).value, Alerted(cfg, run, n);
    assert alerted.Rank() >= cfg.minSeverity.Rank();
    forall severity: Severity
      ensures Escalates(cfg, st, severity, now) <==> severity.Rank() >= cfg.minSeverity.Rank() && severity.Rank() > st.severity.Rank()
    {
      EscalatesExactly(cfg, st, severity, now);
    }
    if st.severity.Rank() < alerted.Rank() {
      assert Escalates(cfg, st, alerted, now);
    }
  }

  lemma EscalatesExactly(cfg: Config, st: IssueState, severity: Severity, now: int)
    ensures Escalates(cfg, st, severity, now) <==> severity.Rank() >= cfg.minSeverity.Rank() && severity.Rank() > st.severity.Rank()
  {
  }

  // A silent drop in between makes the second alert repeat the severity of the first, one
  // second later, with reminders an hour apart.
  lemma EscalationMayRepeatSeverity()
    ensures var cfg := Config(Warning, 3600, true, 60);
            var run := [Tick(Sight(0, Some(Critical), false), true, true),
                        Tick(Sight(1, Some(Warning), false), true, true),
                        Tick(Sight(2, Some(Critical), false), true, true)];
            && SendsAlert(cfg, run, 0) && SendsAlert(cfg, run, 2) && LastAlert(cfg, run, 2) == Some(0)
            && ActionAt(cfg, run, 0).notice == Notice(Opened, Critical, None)
            && ActionAt(cfg, run, 2).notice == Notice(Escalated, Critical, Some(Warning))
            && run[2].sight.now - run[0].sight.now < cfg.renotifyAfter
  {
    var cfg := Config(Warning, 3600, true, 60);
    var run := [Tick(Sight(0, Some(Critical), false), true, true),
                Tick(Sight(1, Some(Warning), false), true, true),
                Tick(Sight(2, Some(Critical), false), true, true)];
    assert StateAt(cfg, run, 0) == None;
    assert StateAt(cfg, run, 1) == Some(IssueState(Critical, 0, None));
    assert StateAt(cfg, run, 2) == Some(IssueState(Warning, 0, None));
  }

  // ----- Grace before an issue is announced as gone -----

  predicate ClearedAt(cfg: Config, run: Run, n: nat)
    requires n <= |run|
  {
    Cleared(StateAt(cfg, run, n))
  }

  // The tick that wrote the ClearedAt the issue's row holds before tick n.
  function ClearingTick(cfg: Config, run: Run, n: nat): (s: nat)
    requires n <= |run| && ClearedAt(cfg, run, n)
    ensures s < n
  {
    if ClearedAt(cfg, run, n - 1) then ClearingTick(cfg, run, n - 1) else n - 1
  }

  // The one way an alertable tick leaves ClearedAt in place: the issue came back, and
  // its escalation did not go out or its row was not written.
  predicate LosesReturn(cfg: Config, run: Run, i: nat)
    requires i < |run|
  {
    && ClearedAt(cfg, run, i)
    && AlertableAt(cfg, run, i)
    && !(run[i].stored && (ActionAt(cfg, run, i).Announce? ==> run[i].delivered))
  }

  ghost predicate QuietDuring(cfg: Config, run: Run, from: nat, to: nat)
    requires to <= |run|
  {
    forall i :: from <= i < to ==> !AlertableAt(cfg, run, i)
  }

  // What the clearing tick looked like, and that nothing has moved ClearedAt since.
  lemma {:induction false} ClearingTickFacts(cfg: Config, run: Run, n: nat)
    requires n <= |run| && ClearedAt(cfg, run, n)
    ensures var s := ClearingTick(cfg, run, n);
            && StateAt(cfg, run, n).value.clearedAt == Some(run[s].sight.now)
            && !AlertableAt(cfg, run, s)
            && StateAt(cfg, run, s).Some? && !ClearedAt(cfg, run, s)
            && forall i :: s < i <= n ==> ClearedAt(cfg, run, i)
  {
    var i := n - 1;
    if ClearedAt(cfg, run, i) {
      ClearingTickFacts(cfg, run, i);
    }
  }

  // Since ClearedAt was written the issue stayed away if and only if no return was lost.
  lemma {:induction false} QuietSinceClearing(cfg: Config, run: Run, n: nat)
    requires n <= |run| && ClearedAt(cfg, run, n)
    ensures var s := ClearingTick(cfg, run, n);
            QuietDuring(cfg, run, s, n) <==> forall i :: s <= i < n ==> !LosesReturn(cfg, run, i)
  {
    var s := ClearingTick(cfg, run, n);
    ClearingTickFacts(cfg, run, n);
    forall i | s < i < n
      ensures AlertableAt(cfg, run, i) <==> LosesReturn(cfg, run, i)
    {
      assert ClearedAt(cfg, run, i) && ClearedAt(cfg, run, i + 1);
    }
  }

  // The clearing tick opens the quiet streak: the tick before it was alertable, as
  // long as that tick's own write was stored.
  lemma {:induction false} ClearingStartsStreak(cfg: Config, run: Run, n: nat)
    requires n <= |run| && ClearedAt(cfg, run, n)
    requires ClearingTick(cfg, run, n) > 0 ==> run[ClearingTick(cfg, run, n) - 1].stored
    ensures var s := ClearingTick(cfg, run, n);
            s > 0 && AlertableAt(cfg, run, s - 1)
  {
    ClearingTickFacts(cfg, run, n);
    var s := ClearingTick(cfg, run, n);
    assert s > 0;
  }

  ghost predicate GraceHonoured(cfg: Config, run: Run, t: nat)
    requires t < |run|
  {
    exists s :: 0 <= s < t && run[t].sight.now - run[s].sight.now >= cfg.resolveGrace && QuietDuring(cfg, run, s, t + 1)
  }

  // An issue is announced as gone, or dropped, only after a quiet stretch of at least
  // resolveGrace, in every run that loses no return of a cleared issue.
  lemma GoneOnlyAfterGrace(cfg: Config, run: Run, t: nat)
    requires t < |run| && Forgets(cfg, run, t)
    requires forall i :: 0 <= i < t ==> !LosesReturn(cfg, run, i)
    ensures GraceHonoured(cfg, run, t)
  {
    var s := ClearingTick(cfg, run, t);
    ClearingTickFacts(cfg, run, t);
    QuietSinceClearing(cfg, run, t);
    assert QuietDuring(cfg, run, s, t + 1);
  }

  ghost predicate ClockRuns(run: Run)
  {
    forall i, j :: 0 <= i < j < |run| ==> run[i].sight.now <= run[j].sight.now
  }

  // The last tick that lies a full resolveGrace before tick t.
  ghost predicate GraceWindowStart(cfg: Config, run: Run, w: nat, t: nat)
    requires w < t < |run|
  {
    && run[t].sight.now - run[w].sight.now >= cfg.resolveGrace
    && forall i :: w < i < t ==> run[t].sight.now - run[i].sight.now < cfg.resolveGrace
  }

  lemma GraceWindowExists(cfg: Config, run: Run, t: nat) returns (w: nat)
    requires t < |run| && Forgets(cfg, run, t)
    ensures w < t && GraceWindowStart(cfg, run, w, t)
  {
    var s := ClearingTick(cfg, run, t);
    ClearingTickFacts(cfg, run, t);
    w := t - 1;
    while run[t].sight.now - run[w].sight.now < cfg.resolveGrace
      invariant s <= w < t
      invariant forall i :: w < i < t ==> run[t].sight.now - run[i].sight.now < cfg.resolveGrace
      decreases w
    {
      w := w - 1;
    }
  }

  // Exactly which runs honour the grace: those that lose no return within the window.
  lemma GraceHonouredExactly(cfg: Config, run: Run, w: nat, t: nat)
    requires w < t < |run| && Forgets(cfg, run, t)
    requires ClockRuns(run) && GraceWindowStart(cfg, run, w, t)
    ensures GraceHonoured(cfg, run, t) <==> forall i :: w <= i < t ==> !LosesReturn(cfg, run, i)
  {
    var s := ClearingTick(cfg, run, t);
    ClearingTickFacts(cfg, run, t);
    assert s <= w;
    forall i | s < i < t
      ensures AlertableAt(cfg, run, i) <==> LosesReturn(cfg, run, i)
    {
      assert ClearedAt(cfg, run, i) && ClearedAt(cfg, run, i + 1);
    }
    if forall i :: w <= i < t ==> !LosesReturn(cfg, run, i) {
      assert QuietDuring(cfg, run, w, t + 1);
    }
    if GraceHonoured(cfg, run, t) {
      var s' :| 0 <= s' < t && run[t].sight.now - run[s'].sight.now >= cfg.resolveGrace && QuietDuring(cfg, run, s', t + 1);
      assert s' <= w;
    }
  }

  // A lost escalation breaks it: the issue is back at tick 2, its escalation is not
  // delivered, and at tick 3 it is announced as resolved one minute after it was seen.
  lemma LostEscalationBreaksGrace()
    ensures var cfg := Config(Warning, 0, true, 60);
            var run := [Tick(Sight(0, Some(Warning), false), true, true),
                        Tick(Sight(1, None, true), true, true),
                        Tick(Sight(60, Some(Critical), false), false, true),
                        Tick(Sight(61, None, true), true, true)];
            && SendsAreStored(cfg, run)
            && LosesReturn(cfg, run, 2)
            && Sends(cfg, run, 3) && ActionAt(cfg, run, 3).notice == Notice(Resolved, Warning, None)
            && !GraceHonoured(cfg, run, 3)
  {
    var cfg := Config(Warning, 0, true, 60);
    var run := [Tick(Sight(0, Some(Warning), false), true, true),
                Tick(Sight(1, None, true), true, true),
                Tick(Sight(60, Some(Critical), false), false, true),
                Tick(Sight(61, None, true), true, true)];
    assert StateAt(cfg, run, 0) == None;
    assert StateAt(cfg, run, 1) == Some(IssueState(Warning, 0, None));
    assert StateAt(cfg, run, 2) == Some(IssueState(Warning, 0, Some(1)));
    assert StateAt(cfg, run, 3) == StateAt(cfg, run, 2);
    assert AlertableAt(cfg, run, 2);
  }

  // ----- What each notice says -----

  // The severity the row remembers: the one last seen and recorded.
  function RecordedSeverity(cfg: Config, run: Run, n: nat): (severity: Option<Severity>)
    requires n <= |run|
    ensures severity.Some? ==> severity.value.Rank() >= cfg.minSeverity.Rank()
  {
    var last := LastRecorded(cfg, run, n);
    if last.Some? then run[last.value].sight.active else None
  }

  // The issue is still there, below the minimum severity.
  predicate Lowered(cfg: Config, sight: Sight)
  {
    sight.active.Some? && sight.active.value.Rank() < cfg.minSeverity.Rank()
  }

  // The row was marked as gone a full resolveGrace before tick t.
  predicate GraceOver(cfg: Config, run: Run, t: nat)
    requires t < |run|
  {
    ClearedAt(cfg, run, t) && run[t].sight.now - run[ClearingTick(cfg, run, t)].sight.now >= cfg.resolveGrace
  }

  // What a tick announces about an issue it does not see alertable: nothing until the
  // grace is over; then that it was lowered, if it is still there, or resolved, if it is
  // among the resolved, each with the severity last recorded; in silence otherwise.
  lemma GoneNoticeExactly(cfg: Config, run: Run, t: nat)
    requires t < |run| && (run[t].sight.active.None? || Lowered(cfg, run[t].sight))
    ensures var sight, action := run[t].sight, ActionAt(cfg, run, t);
            if StateAt(cfg, run, t).None? then action == Idle
            else if !ClearedAt(cfg, run, t) then action == Silent(Put(StateAt(cfg, run, t).value.(clearedAt := Some(sight.now))))
            else if !GraceOver(cfg, run, t) then action == Idle
            else if cfg.notifyResolved && sight.active.Some? then
              action == Announce(Notice(Downgraded, sight.active.value, RecordedSeverity(cfg, run, t)), Forget)
            else if cfg.notifyResolved && sight.resolved then
              RecordedSeverity(cfg, run, t).Some? &&
              action == Announce(Notice(Resolved, RecordedSeverity(cfg, run, t).value, None), Forget)
            else action == Silent(Forget)
  {
    if StateAt(cfg, run, t).Some? {
      RememberedIsLastRecorded(cfg, run, t);
      if ClearedAt(cfg, run, t) {
        ClearingTickFacts(cfg, run, t);
      }
    }
  }

  // A channel hears that an issue is resolved only when it is gone, and that it was
  // lowered only when it is not; both name what was last recorded.
  lemma GoneNoticeMeans(cfg: Config, run: Run, t: nat)
    requires t < |run| && Sends(cfg, run, t)
    ensures var sight, notice := run[t].sight, ActionAt(cfg, run, t).notice;
            && (notice.event.Resolved? ==>
                  sight.active.None? && sight.resolved && Some(notice.severity) == RecordedSeverity(cfg, run, t) && notice.previous.None?)
            && (notice.event.Downgraded? ==>
                  Lowered(cfg, sight) && sight.active == Some(notice.severity)
                  && notice.previous.Some? && notice.previous == RecordedSeverity(cfg, run, t))
            && (notice.event.Resolved? || notice.event.Downgraded? ==> GraceOver(cfg, run, t) && cfg.notifyResolved)
  {
    if !AlertableAt(cfg, run, t) {
      GoneNoticeExactly(cfg, run, t);
      if StateAt(cfg, run, t).Some? {
        RememberedIsLastRecorded(cfg, run, t);
      }
    }
  }

  // What a tick announces about an issue it sees alertable: it is opened when it has no
  // row, escalated above the severity last recorded, and repeated renotifyAfter after the
  // last alert unless it had been marked as gone.
  lemma AlertNoticeExactly(cfg: Config, run: Run, t: nat, severity: Severity)
    requires t < |run| && SendsAreStored(cfg, run)
    requires run[t].sight.active == Some(severity) && severity.Rank() >= cfg.minSeverity.Rank()
    ensures var action, recorded, last := ActionAt(cfg, run, t), RecordedSeverity(cfg, run, t), LastAlert(cfg, run, t);
            if StateAt(cfg, run, t).None? then action.Announce? && action.notice == Notice(Opened, severity, None)
            else
              && recorded.Some? && last.Some?
              && if severity.Rank() > recorded.value.Rank() then
                   action.Announce? && action.notice == Notice(Escalated, severity, recorded)
                 else if !ClearedAt(cfg, run, t) && 0 < cfg.renotifyAfter <= run[t].sight.now - run[last.value].sight.now then
                   action.Announce? && action.notice == Notice(Reminder, severity, None)
                 else !action.Announce?
  {
    if StateAt(cfg, run, t).Some? {
      RememberedIsLastRecorded(cfg, run, t);
      NotifiedAtIsLastAlert(cfg, run, t);
    }
  }

  // ----- Nothing is lost on failed sends -----

  // A notice that keeps failing to go out keeps being raised, unchanged, for as long
  // as the suggestions stay the same.
  lemma {:induction false} NoticeSurvivesFailedSends(cfg: Config, run: Run, i: nat, j: nat)
    requires i <= j < |run| && ActionAt(cfg, run, i).Announce?
    requires forall k :: i <= k < j ==> !run[k].delivered
    requires forall k :: i < k <= j ==>
      run[k].sight == run[i].sight.(now := run[k].sight.now) && run[k - 1].sight.now <= run[k].sight.now
    ensures run[i].sight.now <= run[j].sight.now
    ensures ActionAt(cfg, run, j).Announce? && ActionAt(cfg, run, j).notice == ActionAt(cfg, run, i).notice
    ensures StateAt(cfg, run, j) == StateAt(cfg, run, i)
    decreases j
  {
    if i < j {
      NoticeSurvivesFailedSends(cfg, run, i, j - 1);
      FailedSendIsRaisedAgain(cfg, StateAt(cfg, run, j - 1), run[j - 1].sight, run[j - 1].stored, run[j].sight.now);
    }
  }
}
