/** What one notifier tick does about one issue (internal/notifier/notifier.go).

    Instants and durations are integers on one clock. An issue is identified by its
    rule and target; its delivery state is the row the notification_state table
    holds for it, if any. */
module AlertStep {
  import opened Common

  datatype Severity = Critical | Warning | Info | Other(name: string) {
    function Rank(): nat
    {
      match this
      case Critical => 3
      case Warning => 2
      case Info => 1
      case Other(_) => 0
    }
  }

  datatype Config = Config(
    minSeverity: Severity,
    renotifyAfter: int,
    notifyResolved: bool,
    resolveGrace: int)

  datatype IssueState = IssueState(severity: Severity, notifiedAt: int, clearedAt: Option<int>)

  datatype Event = Opened | Escalated | Reminder | Resolved | Downgraded

  datatype Notice = Notice(event: Event, severity: Severity, previous: Option<Severity>)

  // What a tick reads about one issue.
  datatype Sight = Sight(now: int, active: Option<Severity>, resolved: bool)

  datatype Write = Put(state: IssueState) | Forget {
    function Result(): Option<IssueState>
    {
      match this
      case Put(state) => Some(state)
      case Forget => None
    }
  }

  // Silent writes are always applied; an announced one only once the message is out.
  datatype Action = Idle | Silent(write: Write) | Announce(notice: Notice, write: Write)

  predicate Alertable(cfg: Config, sight: Sight)
  {
    sight.active.Some? && sight.active.value.Rank() >= cfg.minSeverity.Rank()
  }

  predicate Cleared(st: Option<IssueState>)
  {
    st.Some? && st.value.clearedAt.Some?
  }

  function DecideActive(cfg: Config, st: Option<IssueState>, severity: Severity, now: int): Action
  {
    var next := IssueState(severity, now, None);
    if st.None? then
      Announce(Notice(Opened, severity, None), Put(next))
    else if severity.Rank() > st.value.severity.Rank() then
      Announce(Notice(Escalated, severity, Some(st.value.severity)), Put(next))
    else if st.value.clearedAt.Some? then
      Silent(Put(next.(notifiedAt := st.value.notifiedAt)))
    else if cfg.renotifyAfter > 0 && now - st.value.notifiedAt >= cfg.renotifyAfter then
      Announce(Notice(Reminder, severity, None), Put(next))
    else if severity != st.value.severity then
      Silent(Put(next.(notifiedAt := st.value.notifiedAt)))
    else
      Idle
  }

  function DecideGone(cfg: Config, st: IssueState, sight: Sight): Action
  {
    if st.clearedAt.None? then
      Silent(Put(st.(clearedAt := Some(sight.now))))
    else if sight.now - st.clearedAt.value < cfg.resolveGrace then
      Idle
    else if cfg.notifyResolved && sight.active.Some? then
      Announce(Notice(Downgraded, sight.active.value, Some(st.severity)), Forget)
    else if cfg.notifyResolved && sight.resolved then
      Announce(Notice(Resolved, st.severity, None), Forget)
    else
      Silent(Forget)
  }

  function Decide(cfg: Config, st: Option<IssueState>, sight: Sight): Action
  {
    if Alertable(cfg, sight) then DecideActive(cfg, st, sight.active.value, sight.now)
    else if st.None? then Idle
    else DecideGone(cfg, st.value, sight)
  }

  // The row after the tick. delivered is shared by the whole message; stored says
  // whether this issue's own write went through.
  function Next(cfg: Config, st: Option<IssueState>, sight: Sight, delivered: bool, stored: bool): Option<IssueState>
  {
    match Decide(cfg, st, sight)
    case Idle => st
    case Silent(write) => if stored then write.Result() else st
    case Announce(_, write) => if delivered && stored then write.Result() else st
  }

  lemma SeveritiesAreOrdered(name: string)
    ensures Critical.Rank() > Warning.Rank() > Info.Rank() > Other(name).Rank()
  {
  }

  // After a tick whose message (if any) went out, the tracked uncleared issues are
  // exactly the alertable ones, each remembered at its current severity.
  lemma SuccessfulTickTracksAlertable(cfg: Config, st: Option<IssueState>, sight: Sight, delivered: bool)
    requires Decide(cfg, st, sight).Announce? ==> delivered
    ensures var after := Next(cfg, st, sight, delivered, true);
            && (after.Some? && !Cleared(after) <==> Alertable(cfg, sight))
            && (Alertable(cfg, sight) ==> after.value.severity == sight.active.value)
  {
  }

  // A notice whose delivery failed is raised again, word for word, by any later look
  // at the same suggestions.
  lemma FailedSendIsRaisedAgain(cfg: Config, st: Option<IssueState>, sight: Sight, stored: bool, later: int)
    requires Decide(cfg, st, sight).Announce?
    requires sight.now <= later
    ensures var after := Next(cfg, st, sight, false, stored);
            var again := Decide(cfg, after, sight.(now := later));
            after == st && again.Announce? && again.notice == Decide(cfg, st, sight).notice
  {
  }
}
