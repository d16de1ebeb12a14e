# PGAnalyzer: a verified model of its decision logic

PGAnalyzer collects PostgreSQL statistics, analyses them, keeps a table of suggestions and
alerts about them. This project models the parts that decide things, in Dafny 4.11, and
proves what they promise. `dafny verify dfyconfig.toml` checks everything.

| files | what they model |
|---|---|
| `AlertStep`, `AlertRuns`, `Notifier` | the alert state machine: one issue's step, whole runs of it under any pattern of failed sends and failed writes, and the batch over the stored table that refines it |
| `Redundancy`, `DuplicateIndexes` | when one index makes another redundant, and the two-pass choice of which to report |
| `Coverage`, `Suggester`, `SuggestionStore`, `AnalysisCycle` | which data domains an analysis really observed, the suggestions table, one suggest cycle with users dismissing suggestions between its statements, and the two together |
| `FilterSplit`, `FilterLaws`, `SqlReader`, `IndexColumns`, `Identifiers` | the filter scanner, where it and SQL's quoted names part, index columns read off a filter, and identifier quoting |
| `QueryPeriods`, `FixVerdict`, `SizeTrend` | deltas of counters that may be reset, verdicts on fixes, and the least-squares growth fit |
| `PlanCollector`, `IndexAdvice` | ranking queries, judging their scans, and merging proposals into recommendations |
| `CollectionProtocol`, `Coordinator` | the token protocol of collection cycles with concurrent calls and workers |
| `Common`, `Ordering`, `Sums` | optional values and joined keys, sorting, sums |

How to read the model. Where the code updates state step by step the model is a class or
a method with the same branches, and its contract ties it to a function or relation that
the lemmas are about. Reads, channels, hypopg, the planner and the clock are parameters
that may return anything. Instants and durations are integers on one clock;
milliseconds, time shares and sizes are exact reals; text is a sequence of Unicode
characters. One monitored instance is modelled. Index definitions come as lists of key
columns and attribute numbers instead of the space-separated text they are stored as.
Composite map keys are the joined strings the code uses, so what depends on a separator
being absent says so (`Common.JoinKeyInjective`, `Common.JoinKeyCollides`); only the
notifier's key, joined with a NUL that rule ids never hold, is a pair. Library sorts are
a stable insertion sort, and every result about them uses only that the outcome is a
sorted rearrangement.

## What the proofs found

The code falls short of what its comments or tests suggest in these places. Each is
modelled as the code is, with a concrete input and the exact condition where there is one.

- A read that comes back empty is taken for data. When the snapshot behind the cache ratio
  is gone the read returns nothing and no error (internal/analyzer/cache.go:47-49), database
  statistics stay usable, and the suggestion about the ratio is resolved; slow queries
  behave the same way (internal/analyzer/slow_queries.go:42-52). A size history shorter than
  a day gives no trend (internal/analyzer/risk.go:101-107), as after an outage longer than
  the trend window (`Coverage.LoneSizeSampleStaysUsable`), and the disk forecast is
  resolved (`AnalysisCycle.ShortSizeHistoryIsBlind`). Without an earlier snapshot to count
  evictions against they count as none (`AnalysisCycle.MissingBaselineIsBlind`), and without
  the connection peak the current figures decide (`AnalysisCycle.MissingPeakIsBlind`). Bloat
  stays usable unread when table statistics have no snapshot; the rule that reads it also
  requires table statistics, so bloat alone resolves nothing today.
  `Coverage.UsableHasDataExactly` says which usable domains have all their data behind them,
  `AnalysisCycle.RunAnalysis` names the rest as blind spots, and
  `AnalysisCycle.BlindSpotLooksLikeRecovery` shows that each of them matters.
- The same empty cache read ends the process when query statistics are usable: their
  details are written into a result that is not there (`Coverage.EmptyCacheReadCrashes`).
- A lost escalation breaks the grace period. When an issue comes back more severe than
  before while it is marked as gone, the escalation is tried first
  (internal/notifier/notifier.go:243-245), and if it is not delivered the clearing time
  stays. The issue can then be announced as resolved moments later
  (`AlertRuns.LostEscalationBreaksGrace`). `AlertRuns.GraceHonouredExactly` says which runs
  honour the grace.
- An escalation is a rise over the remembered severity, not over the last alert: a silent
  drop in between lets an alert repeat its severity within RenotifyAfter
  (`AlertRuns.EscalationMayRepeatSeverity`). `AlertRuns.SpacedExactly` says when the next
  alert is sure to be a rise or late enough.
- Two indexes can each be redundant with the other when an INCLUDE list repeats a column
  or overlaps the keys. If nothing else covers them, neither is reported
  (`DuplicateIndexes.RepeatedIncludeGoesUnreported`, `DuplicateIndexes.CompleteExactly`).
- Indexes are grouped, and table information is cached, under joined names. With a dot in a
  schema name an index can be reported as covered by another table's index
  (`DuplicateIndexes.DottedNamesMixTables`), and a scan can be judged by another table's
  indexes (`PlanCollector.SharedKeyMisleads`, `PlanCollector.OwnAnswersExactly`).
- The filter scanner does not see an OR directly behind an AND, because the two share a
  space (`FilterLaws.HiddenOrIsSplit`, `FilterLaws.RefusedExactly`), which PostgreSQL never
  prints, and it does not know names in double quotes (`SqlReader.NameIsCutApart`).
  `SqlReader.SplitsLikeSqlExactly` says which filters it splits right all the same.
- Samples of one instant may come back from sorting in either order, and the wrong order
  looks like a counter reset (`QueryPeriods.SwappedTiesOvercount`,
  `FixVerdict.TimesMustTellApart`).
- A query whose mean time was zero before a fix can never be called improved, and counts as
  regressed as soon as it takes any time (`FixVerdict.ZeroMeanRegresses`,
  `FixVerdict.VerdictIsEarned`).

## Model

| member | source | states |
|---|---|---|
| AlertStep.SuccessfulTickTracksAlertable | internal/notifier/notifier.go:228-294 | after a tick whose notice (if any) went out, an issue has an uncleared row exactly if it is alertable, at its current severity |
| AlertStep.FailedSendIsRaisedAgain | internal/notifier/notifier.go:223-311 | a failed send changes nothing, and any later look at the same suggestions raises the same notice |
| AlertRuns.LetterMatchesStep | internal/notifier/notifier.go:239-291 | one step moves the recogniser of the notice grammar exactly as it opens or closes the issue's row |
| AlertRuns.NoticesFollowGrammar | internal/notifier/notifier.go:228-311 | for any pattern of failed sends, the notices about an issue form a word of (Opened (Escalated or Reminder)* (Resolved or Downgraded or silently dropped))*, open exactly while it is tracked |
| AlertRuns.LastAlert | internal/notifier/notifier.go:228-258 | the last tick that delivered an Opened, Escalated or Reminder |
| AlertRuns.NotifiedAtIsLastAlert | internal/notifier/notifier.go:233-257 | notified_at is always the time of the last delivered alert of the current period, and the remembered severity was seen since |
| AlertRuns.AlertsAreSpaced | internal/notifier/notifier.go:239-257 | an alert opens a period, or is a reminder at least RenotifyAfter after the last alert, or rises above a severity seen since; it rises above the last alert or waits RenotifyAfter whenever the row remembers that alert's severity or more |
| AlertRuns.RememberedIsLastRecorded | internal/notifier/notifier.go:228-258 | the severity a row remembers is the one last seen whose write, if any, took effect |
| AlertRuns.SpacedExactly | internal/notifier/notifier.go:239-257 | every possible next alert is a strict rise over the last one or at least RenotifyAfter after it, if and only if the row remembers at least that alert's severity or RenotifyAfter has passed |
| AlertRuns.RiseExactly | internal/notifier/notifier.go:243-257 | for escalations alone, which wait for nothing: every possible one is a strict rise if and only if the row remembers at least the last alert's severity |
| AlertRuns.EscalationMayRepeatSeverity | internal/notifier/notifier.go:243-257 | a run in which an alert repeats the severity of the last one well within RenotifyAfter |
| AlertRuns.ClearingTickFacts | internal/notifier/notifier.go:260-269 | ClearedAt is the time of a non-alertable tick on a tracked issue, and has stood since |
| AlertRuns.QuietSinceClearing | internal/notifier/notifier.go:243-269 | since that tick the issue was never alertable if and only if no return of it was lost |
| AlertRuns.ClearingStartsStreak | internal/notifier/notifier.go:260-269 | the clearing tick is the first of its quiet streak: the tick before was alertable, if its write was stored |
| AlertRuns.GoneOnlyAfterGrace | internal/notifier/notifier.go:260-294 | an issue is announced as gone, or dropped, only after ResolveGrace without one alertable tick, in every run that loses no return |
| AlertRuns.GraceWindowExists | internal/notifier/notifier.go:270-272 | some tick lies a full ResolveGrace before the announcement |
| AlertRuns.GraceHonouredExactly | internal/notifier/notifier.go:228-294 | the grace was honoured if and only if no return was lost since the last tick that lies a full grace back |
| AlertRuns.LostEscalationBreaksGrace | internal/notifier/notifier.go:243-249 | a run whose undelivered escalation leads to a Resolved notice one tick after the issue was seen |
| AlertRuns.NoticeSurvivesFailedSends | internal/notifier/notifier.go:294-311 | a notice that keeps failing is raised unchanged for as long as the suggestions stay the same |
| AlertRuns.AlertNoticeExactly | internal/notifier/notifier.go:228-257 | over any run, what an alertable tick announces, to the word: opened without a row, escalated above the severity last recorded and naming it, repeated RenotifyAfter after the last alert, otherwise nothing |
| AlertRuns.GoneNoticeExactly | internal/notifier/notifier.go:260-294 | what any other tick does: mark the row, wait out the grace, then announce Downgraded for an issue still active and Resolved for one among the resolved, with the severity last recorded, and drop the row in silence otherwise |
| AlertRuns.GoneNoticeMeans | internal/notifier/notifier.go:275-290 | a channel hears Resolved only of an issue that is gone and resolved, Downgraded only of one still active below the minimum |
| AlertStep.SeveritiesAreOrdered | internal/notifier/message.go:87-97 | critical ranks above warning, info and anything else |
| Notifier.TickIsOrderFree | internal/notifier/notifier.go:260-311 | whatever order the state map yields, the items and the resulting table are the same |
| Notifier.FailedTickIsRetried | internal/notifier/notifier.go:223-311 | the tick after a failed one raises at least every item of it |
| Notifier.SuccessfulTickExactly | internal/notifier/notifier.go:193-311 | after a successful tick the uncleared rows are exactly the alertable active suggestions at their severities |
| Notifier.MessageExactly | internal/notifier/notifier.go:193-294 | in terms of the suggestions and the table alone: which notices a message holds about each issue, for each of the five events, and that it holds no others |
| Notifier.GivenUpExactly | internal/notifier/notifier.go:260-311 | a row is dropped if and only if its issue is not alertable, its grace is over, its write works, and its notice, if any, went out; failing writes and failed sends leave it alone |
| Notifier.Deliver | internal/notifier/notifier.go:163-182 | a message counts as sent if and only if some channel took it, or there was none to refuse it |
| Notifier.Notifier.ChannelsSeePeriods | internal/notifier/notifier.go:193-311 | what a notifier object has sent about any issue follows the grammar, open exactly while the issue has a row |
| Notifier.Notifier.AwayForGrace | internal/notifier/notifier.go:260-294 | what a notifier object gives up has been away at every tick for ResolveGrace, unless a return of it was lost |
| Notifier.Notifier.Apply | internal/notifier/notifier.go:296-309 | writes to distinct rows each take effect unless they fail |
| Notifier.Notifier.RaiseOne | internal/notifier/notifier.go:228-258 | one active suggestion adds exactly the item or write its step calls for |
| Notifier.Notifier.RaiseActive | internal/notifier/notifier.go:228-258 | so does the pass over all active suggestions |
| Notifier.Notifier.RetireGone | internal/notifier/notifier.go:260-294 | and the pass over the stored states, in any order |
| Notifier.Notifier.Settle | internal/notifier/notifier.go:296-311 | silent writes always, the others only once delivered: together one step of every issue |
| Notifier.Notifier.EvaluateSuggestions | internal/notifier/notifier.go:193-312 | the batch refines the per-issue step with one delivery flag, delivered if and only if there is a message and a channel took it, at most one item an issue, most severe first |
| Redundancy.RedundantIsServed | internal/analyzer/indexes.go:232-284 | a redundant index enforces nothing, and the retained one has its method, predicate and expressions, extends its keys and carries its columns |
| Redundancy.RedundantExactly | internal/analyzer/indexes.go:232-284 | an index is redundant with another if and only if it enforces nothing, is served by it, and is not the preferred one of two duplicates that could both go |
| Redundancy.BusierDuplicateStays | internal/analyzer/indexes.go:272-283 | of two duplicates the one with more scans stays, then the one whose name comes first |
| Redundancy.PreferredIsOrder | internal/analyzer/indexes.go:164-171 | most scans first, then by name, is a strict weak order |
| Redundancy.MutualExactly | internal/analyzer/indexes.go:232-284 | two indexes are redundant with each other if and only if they are a twisted pair: same keys and columns, different INCLUDE lists |
| Redundancy.WellFormedNeverTwisted | internal/analyzer/indexes.go:232-300 | duplicate-free INCLUDE lists disjoint from the keys are never twisted |
| Redundancy.RepeatedIncludeIsTwisted | internal/analyzer/indexes.go:232-300 | two indexes with a repeated INCLUDE column that are a twisted pair, each redundant with the other |
| Redundancy.DropsAsymmetric | internal/analyzer/indexes.go:232-284 | on well-formed indexes redundancy is asymmetric |
| Redundancy.DropsTransitive | internal/analyzer/indexes.go:232-284 | redundancy composes across prefixes, INCLUDE cover, exact duplicates, scan counts and names, whatever the last index enforces |
| DuplicateIndexes.RedundancyIsStrictOrder | internal/analyzer/indexes.go:232-300 | on well-formed indexes of one table it is a strict partial order |
| DuplicateIndexes.AllDropsAreSafe | internal/analyzer/indexes.go:150-228 | all reported indexes can be dropped together: each one's replacement is never itself reported, is filed under the same table and serves it |
| DuplicateIndexes.StrictlyDropsTransitive | internal/analyzer/indexes.go:232-284 | being redundant with an index that is not redundant in turn is transitive |
| DuplicateIndexes.RedundantReachesKept | internal/analyzer/indexes.go:173-186 | when every twisted index is also strictly redundant, every redundant index is covered by one that stays |
| DuplicateIndexes.CompleteExactly | internal/analyzer/indexes.go:173-225 | every redundant index is covered by a kept one, and so reported, if and only if every index of a twisted pair is also redundant with one that is not redundant with it |
| DuplicateIndexes.MutualPairUnreported | internal/analyzer/indexes.go:173-225 | two indexes of a table that are only redundant with each other are both redundant, and a correct report names neither |
| DuplicateIndexes.RepeatedIncludeGoesUnreported | internal/analyzer/indexes.go:150-228 | so it is with the two that repeat an INCLUDE column |
| DuplicateIndexes.ReportIsComplete | internal/analyzer/indexes.go:150-228 | without twisted pairs an index is reported exactly if it enforces nothing and some other index of its table serves it and is not the lesser duplicate, which is to say makes it redundant |
| DuplicateIndexes.ServedIsReported | internal/analyzer/indexes.go:150-228 | an index whose keys are a strict prefix of another that serves it, or that a unique one serves, is always reported |
| DuplicateIndexes.PrefixIsReported | internal/analyzer/indexes.go:241-268 | of an index on one column and one on two, the report is the first covered by the second |
| DuplicateIndexes.WellFormedIsUntwisted | internal/analyzer/indexes.go:232-300 | well-formed INCLUDE lists rule twisted pairs out |
| DuplicateIndexes.DottedNamesMixTables | internal/analyzer/indexes.go:159-160 | two tables share a key through a dotted schema name, and the one report possible calls an index of one covered by an index of the other |
| DuplicateIndexes.TableKeyIsTable | internal/analyzer/indexes.go:159-160 | the key an index is filed under names one table as long as schema names hold no dot |
| DuplicateIndexes.SameColumnSet | internal/analyzer/indexes.go:287-300 | the two lists hold the same columns equally often |
| DuplicateIndexes.CheckRedundant | internal/analyzer/indexes.go:232-284 | redundantWith decides the redundancy relation and exactness |
| DuplicateIndexes.FindOther | internal/analyzer/indexes.go:176-186 | some other index makes this one redundant |
| DuplicateIndexes.MarkRedundant | internal/analyzer/indexes.go:173-187 | the first pass marks exactly the names of redundant indexes |
| DuplicateIndexes.FindRetained | internal/analyzer/indexes.go:192-199 | the second pass finds the most preferred kept index that covers a candidate, if any does |
| DuplicateIndexes.ReportMarked | internal/analyzer/indexes.go:188-224 | the second pass reports every marked index that a kept one covers, once |
| DuplicateIndexes.ReportTable | internal/analyzer/indexes.go:163-225 | one table's issues, when its index names differ, are sound, without repeats, and silent only about indexes no kept one covers |
| DuplicateIndexes.GroupByTable | internal/analyzer/indexes.go:153-161 | indexes with definitions are filed by table, in order |
| DuplicateIndexes.DetectDuplicateIndexes | internal/analyzer/indexes.go:150-228 | the same for the whole report, in whatever order the tables come, when index names tell the indexes under each table key apart |
| FilterSplit.CheckWraps | internal/plans/plans.go:252-270 | the opening parenthesis closes at the end |
| FilterSplit.Strip | internal/plans/plans.go:244-249 | parentheses around the whole are removed until none wraps it |
| FilterSplit.WrappedBalanced | internal/plans/plans.go:244-270 | an expression in its own parentheses is balanced and quote-closed |
| FilterSplit.FirstSeparator | internal/plans/plans.go:213-231 | the first top-level AND or OR |
| FilterSplit.SplitStripped | internal/plans/plans.go:209-237 | the one-pass scanner computes the recursive cut at top-level separators, and refuses what is unbalanced |
| FilterSplit.Split | internal/plans/plans.go:203-237 | the same after the parentheses around the whole are removed |
| FilterLaws.SplitUndoesJoin | internal/plans/plans.go:203-237 | two or more terms, each in its own parentheses, joined by AND inside one more pair, split into exactly those terms |
| FilterLaws.JoinUndoesSplit | internal/plans/plans.go:203-237 | whenever any filter is split, its terms join back to the stripped filter, and each is balanced, quote-closed and free of top-level separators |
| FilterLaws.RefusedExactly | internal/plans/plans.go:201-237 | a filter is refused if and only if it is empty, unbalanced, or has a top-level OR that no AND right before it hides |
| FilterLaws.AndSeparates | internal/plans/plans.go:227-230 | a AND b is split into a and b |
| FilterLaws.OrRefuses | internal/plans/plans.go:225-226 | a OR b is refused |
| FilterLaws.TrimMeans | internal/plans/plans.go:204-204 | trimming removes blanks at both ends, all of them and nothing else |
| FilterLaws.HiddenOrIsSplit | internal/plans/plans.go:213-231 | a filter whose top-level OR is hidden, and how it is split |
| FilterLaws.QuotedNameIsSplit | internal/plans/plans.go:213-231 | a name in double quotes is split at the AND inside it |
| SqlReader.InStepExactly | internal/plans/plans.go:213-231 | the scanner keeps the depth and text state of a reader who knows quoted names if and only if no name holds a quote or a parenthesis |
| SqlReader.CutsAlikeExactly | internal/plans/plans.go:213-236 | over such names it cuts where the reader cuts, or both refuse, if and only if the reader refuses or no name outside parentheses holds an AND or an OR |
| SqlReader.SplitsLikeSqlExactly | internal/plans/plans.go:203-252 | the same for whole filters, wrapping parentheses and blanks included: harmless quoted names never change the result |
| SqlReader.NameIsCutApart | internal/plans/plans.go:213-231 | a name that the reader leaves whole is cut at the AND inside it |
| IndexColumns.IndexColumns | internal/plans/plans.go:119-151 | the first three equality columns in reading order and the first other range column, nothing usable passed over, none when the filter is refused |
| IndexColumns.CollectColumns | internal/plans/plans.go:125-142 | the pass over the terms keeps the first three equality columns and every range column that is not one of them |
| IndexColumns.ProposalIsDistinct | internal/plans/plans.go:119-151 | a proposal never repeats a column |
| Identifiers.LastDot | internal/plans/plans.go:187-199 | the last dot outside double quotes |
| Identifiers.LastUnquotedDot | internal/plans/plans.go:187-199 | the loop finds it |
| Identifiers.ColumnName | internal/plans/plans.go:177-185 | the qualifier and the quotes are dropped |
| Identifiers.UndoubleDouble | internal/plans/ddl.go:55-57 | undoubling quotes undoes doubling them |
| Identifiers.QuotedNameReadsBack | internal/plans/ddl.go:55-57 | any name comes back from its quoted form, dots and quotes included (section 5.2 of ISO/IEC 9075-2, delimited identifiers) |
| Identifiers.QualifiedNameReadsBack | internal/plans/plans.go:177-199 | so does the column of any quoted qualified reference |
| Identifiers.BareNameReadsBack | internal/plans/plans.go:177-199 | a name without quotes and dots comes back as it is |
| Identifiers.BareColumnReadsBack | internal/plans/plans.go:177-199 | so does such a column behind a bare or a quoted table |
| Identifiers.QuotingIsInjective | internal/plans/ddl.go:55-57 | different names never share a quoted form |
| SizeTrend.DenominatorPositive | internal/analyzer/risk.go:119-122 | two different sampling times make the denominator positive |
| SizeTrend.FitIsOptimal | internal/analyzer/risk.go:108-128 | the slope with its intercept has no larger squared error than any other line |
| SizeTrend.CollinearIsExact | internal/analyzer/risk.go:108-128 | samples on a line give that line's slope |
| SizeTrend.AscendingNumerator | internal/analyzer/risk.go:108-128 | sizes that never fall over time give a non-negative numerator (Chebyshev's sum inequality) |
| SizeTrend.Accumulate | internal/analyzer/risk.go:108-118 | the loop accumulates the four sums |
| SizeTrend.FitSizeTrend | internal/analyzer/risk.go:98-129 | a trend is returned exactly if the history is long enough; the zero-denominator exit is never taken |
| SizeTrend.GrowthRate | internal/analyzer/risk.go:98-129 | for every long enough history the rate is the optimal, collinear-exact slope, never negative when sizes never shrink |
| SizeTrend.LongEnoughMeans | internal/analyzer/risk.go:18-20 | a trend takes two samples that lie 24 hours apart |
| SizeTrend.TwoSamplesRate | internal/analyzer/risk.go:109-128 | two samples some days apart give the difference in bytes over those days |
| QueryPeriods.ComputePeriod | internal/verify/verify.go:208-246 | the walk computes the sums of deltas between the baseline and the last sample |
| QueryPeriods.PeriodsAddUp | internal/verify/verify.go:203-246 | calls over (from, mid] plus calls over (mid, to] are the calls over (from, to], resets or not |
| QueryPeriods.PeriodTelescopes | internal/verify/verify.go:203-246 | on any samples in order of which no two in a row look like a reset, a period counts the last sample minus the baseline, and its mean divides the difference in time |
| QueryPeriods.DeltaBounded | internal/verify/verify.go:226-233 | one delta never exceeds what was executed between its samples, and equals it without a reset |
| QueryPeriods.NeverOvercounts | internal/verify/verify.go:203-246 | for any history of executions, resets and samples, calls and total never exceed what was executed, and equal it without a reset |
| QueryPeriods.DeltaExactly | internal/verify/verify.go:226-233 | one delta is what was executed since the previous sample or the last reset, whichever is later, less the previous counters when a reset cannot be told from the samples |
| QueryPeriods.PeriodExactly | internal/verify/verify.go:203-246 | for any history, resets or not: the calls a period counts and the time its mean divides are the sums of that; with every reset visible nothing is lost |
| QueryPeriods.MeanMeans | internal/verify/verify.go:240-244 | the mean times the calls is the time |
| QueryPeriods.SamplesInOrder | internal/verify/verify.go:172-174 | samples of one history come in order of time |
| QueryPeriods.SwappedTiesOvercount | internal/verify/verify.go:172-174 | two samples of one instant, exchanged, count 14 calls where 4 were made |
| FixVerdict.SortRestores | internal/verify/verify.go:172-174 | sorting puts any arrangement of the samples back in the order taken, if samples of one instant are alike |
| FixVerdict.TimesMustTellApart | internal/verify/verify.go:172-174 | and only then: a sorted arrangement is determined if and only if samples of one instant are alike |
| FixVerdict.Compare | internal/verify/verify.go:172-201 | the verdict is about the periods of the sorted samples |
| FixVerdict.VerdictIsEarned | internal/verify/verify.go:172-201 | without resets in the windows, exactly which real calls and mean times lead to which verdict |
| FixVerdict.VerdictAcrossResets | internal/verify/verify.go:172-200 | the same across resets, about what the two windows have seen executed |
| FixVerdict.VerdictWithoutSamples | internal/verify/verify.go:172-200 | no samples or calls before means no data; no samples after means stopped once the window is over, and pending until then |
| FixVerdict.ZeroMeanRegresses | internal/verify/verify.go:188-196 | a history whose calls took no time before the fix and a tenth of a millisecond after it is called regressed |
| FixVerdict.Overall | internal/verify/verify.go:250-261 | the overall verdict is one of the verdicts, and none of higher priority is among them |
| SuggestionStore.ApplyKeepsTable | internal/storage/sqlite/storage.go:1328-1465 | every statement keeps rows unique per rule and target, resolved_at set on resolved rows and null on active ones |
| SuggestionStore.RunKeepsTable | internal/storage/sqlite/storage.go:1328-1465 | so does any interleaving of upserts, resolutions and dismissals |
| SuggestionStore.DismissedIsAbsorbing | internal/storage/sqlite/storage.go:1328-1465 | in any interleaving rows are never lost or renamed, and dismissed is final |
| SuggestionStore.StepResolves | internal/storage/sqlite/storage.go:1452-1465 | a row becomes resolved only by a resolution that finds it active |
| SuggestionStore.ResolvedAtIsLastResolution | internal/storage/sqlite/storage.go:1328-1465 | a resolved row shows the time of the resolution that found it active, and nothing has brought it back since |
| SuggestionStore.RowShowsItsHistory | internal/storage/sqlite/storage.go:1328-1368 | over any run of statements a row carries the severity and last-seen time of the last upsert of its key, the first-seen time of the one that inserted it, and the time of the last dismissal that found it |
| SuggestionStore.Store.UpsertSuggestion | internal/storage/sqlite/storage.go:1328-1369 | update, or insert when nothing was updated; a resolved row comes back, a dismissed one does not |
| SuggestionStore.Store.ResolveSuggestion | internal/storage/sqlite/storage.go:1452-1465 | only an active row moves |
| SuggestionStore.Store.DismissSuggestions | internal/storage/sqlite/storage.go:1436-1450 | the named rows become dismissed |
| SuggestionStore.Store.GetSuggestionsByStatus | internal/storage/sqlite/storage.go:1372-1408 | each row of a status once and no other, most severe first and the most recently seen first among equals |
| Suggester.Gather | internal/suggester/suggester.go:95-119 | what was emitted, which rules may resolve, what they could not see, and which were skipped |
| Suggester.EligibleIs | internal/suggester/suggester.go:164-171 | the code's test for resolving means: the rule ran on usable data and its target was in sight |
| Suggester.KeysMatch | internal/suggester/suggester.go:212-214 | a suggestion's key is among those emitted if and only if its rule and target are, for colon-free rule ids |
| Suggester.ActiveByKey | internal/suggester/suggester.go:123-135 | every active row is found under its key |
| Suggester.UpsertOne | internal/suggester/suggester.go:145-161 | storing one suggestion, with dismissals just before it and a statement that may fail |
| Suggester.UpsertAll | internal/suggester/suggester.go:137-162 | storing all of them |
| Suggester.IsGone | internal/suggester/suggester.go:167-171 | which rows are to be resolved |
| Suggester.ResolveGone | internal/suggester/suggester.go:164-180 | the resolutions, in whatever order the map yields them |
| Suggester.Suggest | internal/suggester/suggester.go:77-183 | whatever users dismiss and whichever statements fail, every row carries the times and the severity its last statement gave it, dismissed is final and a row is resolved only if it was active, not emitted, and could have been; without errors every row ends exactly where its dismissal, emission and eligibility put it |
| Suggester.ActiveExactly | internal/suggester/suggester.go:77-183 | after an error-free cycle a key is active if and only if it is not dismissed and was emitted, or was active and could not be judged |
| Suggester.ReportedIsStored | internal/suggester/suggester.go:137-162 | after such a cycle every reported key is in the table with the severity it was last reported with, seen now |
| Suggester.GoneExactly | internal/suggester/suggester.go:164-180 | what a cycle resolves, in terms of rules, coverage and prefixes: active, not reported, and the rule of its id ran on present and fresh domains and named no prefix of its target |
| Common.JoinKeyInjective | internal/suggester/suggester.go:212-214 | two pairs share a joined key only if they are the same, while the left parts avoid the separator |
| Common.JoinKeyCollides | internal/suggester/suggester.go:212-214 | with a separator in the left part they can collide |
| Coverage.FindObserved | internal/analyzer/main.go:71-77 | when the domain's own collector last succeeded in the snapshot |
| Coverage.Analysis.ResolveDomain | internal/analyzer/main.go:51-91 | one domain's coverage, unobserved unless both lookups gave evidence |
| Coverage.Analysis.ResolveDomains | internal/analyzer/main.go:46-94 | the same for every domain |
| Coverage.ResolvedUsable | internal/analyzer/main.go:46-94 | a resolved domain is usable if and only if its collector succeeded within the staleness budget |
| Coverage.ResolvedExactly | internal/analyzer/main.go:66-91 | on numbers: the first success of the own collector gives time and age, and the domain is usable by age alone, up to the interval times the factor, three by default, or at any age without an interval |
| Coverage.UnresolvedExactly | internal/analyzer/main.go:51-79 | a domain is covered if and only if both lookups worked and its collector succeeded |
| Coverage.BudgetMeans | internal/analyzer/analyzer.go:273-283 | the staleness budget in terms of interval and factor |
| Coverage.Analysis.Invalidate | internal/analyzer/main.go:102-106 | invalidation only marks one domain stale |
| Coverage.Analysis.ReadDocument | internal/analyzer/main.go:207-296 | a failed or missing document invalidates its domain and nothing else |
| Coverage.Analysis.AnalyzeQueries | internal/analyzer/main.go:136-165 | slow queries and cache ratios invalidate exactly the domains whose reads failed, unless an empty cache read ends the process |
| Coverage.Analysis.AnalyzeRelations | internal/analyzer/main.go:167-198 | failed table, bloat and index reads invalidate exactly their domains, empty ones none; a bloat failure alone leaves table statistics usable |
| Coverage.Analysis.ReadRisk | internal/analyzer/risk.go:61-94 | outage risk is invalidated exactly when its document is missing, it or the size history cannot be read, or tables cannot be compared behind a trend; a history too short for a trend spoils nothing |
| Coverage.Analysis.ReadSettings | internal/analyzer/settings.go:27-66 | settings are invalidated exactly when their document is missing or a read fails; a missing baseline spoils nothing |
| Coverage.Analysis.AnalyzeOperational | internal/analyzer/main.go:207-298 | all operational reads likewise; a failed connection peak does not count |
| Coverage.Analysis.Analyze | internal/analyzer/main.go:115-203 | an analysis marks stale exactly the domains that a failed read or an incomplete document spoils, or ends the process exactly when query details have no cache result to go into |
| Coverage.UsableExactly | internal/analyzer/main.go:115-298 | a domain is usable afterwards if and only if it was resolved fresh and no read invalidated it; invalidation is never undone |
| Coverage.UsableHasDataExactly | internal/analyzer/main.go:115-298 | a usable domain was read with all its data if and only if none of its reads came back empty or too short, bloat was read at all, and the connection peak did not fail |
| Coverage.DataIsUsable | internal/analyzer/main.go:115-298 | a fresh domain read with data is always usable |
| Coverage.EmptyCacheReadStaysUsable | internal/analyzer/cache.go:47-49 | the cache read finds no snapshot, all else is complete, and database statistics stay usable |
| Coverage.EmptyCacheReadCrashes | internal/analyzer/main.go:155-162 | with query statistics usable too, the same empty read ends the process |
| Coverage.CrashMeans | internal/analyzer/main.go:154-162 | it takes both snapshots and query statistics that were fresh and read |
| Coverage.LoneSizeSampleStaysUsable | internal/analyzer/risk.go:83-87 | with a single size sample in the window there is no trend, and outage risk stays usable |
| Coverage.UnreadBloatStaysUsable | internal/analyzer/main.go:167-186 | bloat stays usable unread when table statistics were never observed, whatever the reads would return |
| AnalysisCycle.UsableIsTrusted | internal/analyzer/analyzer.go:101-116 | the domains usable after an analysis are exactly those in sight, fresh and read with data, and the blind spots; none is both |
| AnalysisCycle.UsableRules | internal/analyzer/analyzer.go:107-116 | a rule is evaluated exactly if each of its domains is one or the other |
| AnalysisCycle.GoneIsCleared | internal/suggester/suggester.go:164-180 | what the cycle resolves was not reported by a rule that succeeded on domains all in sight, or with a blind spot among them |
| AnalysisCycle.BlindSpotLooksLikeRecovery | internal/suggester/suggester.go:164-180 | every blind spot matters: a rule that reads it and finds nothing has its active suggestions resolved without data |
| AnalysisCycle.EmptyCacheReadIsBlind | internal/suggester/rules/cache.go:43-46 | an empty cache read makes database statistics a blind spot |
| AnalysisCycle.EmptySlowQueryReadIsBlind | internal/analyzer/slow_queries.go:42-52 | an empty slow-query read makes query statistics one |
| AnalysisCycle.ShortSizeHistoryIsBlind | internal/suggester/rules/disk_growth.go:51-53 | a size history too short for a trend makes outage risk one |
| AnalysisCycle.MissingBaselineIsBlind | internal/suggester/rules/stat_statements.go:70-76 | settings without a baseline for evictions are one |
| AnalysisCycle.MissingPeakIsBlind | internal/suggester/rules/connection_saturation.go:50-57 | activity without its connection peak is one |
| AnalysisCycle.RunAnalysis | internal/scheduler/loops.go:297-312 | no recovery from missing data, end to end, up to blind spots: a row becomes resolved only on data from fresh domains or through a named blind spot, exactly the rules without either are skipped, and an analysis that ends the process changes nothing |
| AnalysisCycle.OldDataResolvesNothing | internal/analyzer/analyzer.go:273-283 | a tick resolves nothing of a rule that requires a domain last seen longer ago than its interval and factor allow |
| AnalysisCycle.NoBlindSpots | internal/scheduler/loops.go:297-312 | when no rule depends on a blind spot, only on data |
| PlanCollector.RankQueries | internal/collector/plans/plans.go:224-237 | the loop, the sort and the cut give the ranked queries, and the total time of all |
| PlanCollector.RankedIsTop | internal/collector/plans/plans.go:224-236 | the ranked queries are the busiest explainable ones: those passed over took no longer, and only for want of room |
| PlanCollector.RankedTime | internal/collector/plans/plans.go:224-236 | the queries kept took some time each, and together no more than the total |
| PlanCollector.CacheKeyInjective | internal/collector/plans/plans.go:264-265 | the joined key of the table cache determines schema, table and columns when none holds the separator behind it |
| PlanCollector.OwnAnswersExactly | internal/collector/plans/plans.go:264-275 | scans looked up one after the other are all judged by their own tables, whatever the catalog says, if and only if no two of them share a key for different targets |
| PlanCollector.AllNamesApart | internal/collector/plans/plans.go:264-265 | names without the separator behind them keep all keys of a run apart |
| PlanCollector.SharedKeyMisleads | internal/collector/plans/plans.go:264-274 | with a dot in a schema name a scan is judged by another table, and an index that exists is proposed |
| PlanCollector.Judge.ReadTable | internal/collector/plans/plans.go:264-275 | the answer is the cached one under the key or a new one, and the scan's own table's while no two scans looked up share a key for different targets |
| PlanCollector.Judge.CheckTable | internal/collector/plans/plans.go:317-340 | a proposal passes exactly if the table it is judged by was read and is big, the filter is selective, and no index starts with its columns |
| PlanCollector.TurnedDownMeans | internal/collector/plans/plans.go:317-340 | each reason against the numbers: unreadable, too few rows, more than a fifth of them selected, already indexed |
| PlanCollector.Judge.JudgeScan | internal/collector/plans/plans.go:280-304 | a fresh scan's proposal survives exactly if it passes and hypopg does not object |
| PlanCollector.Judge.Recheck | internal/collector/plans/plans.go:308-313 | a reused scan's proposal survives exactly if it had and still passes |
| PlanCollector.FindingFor | internal/collector/plans/plans.go:126-147 | a finding reuses an error-free plan of the same text younger than a day, or plans anew; its surviving proposals all pass now, while no two scans looked up share a key for different targets |
| PlanCollector.FindingMeans | internal/collector/plans/plans.go:126-147 | a plan is reused exactly if it is of the same text, younger than a day and free of errors |
| PlanCollector.Collect | internal/collector/plans/plans.go:107-151 | a report holds such findings for the top queries, with their shares of the total |
| PlanCollector.ReportShares | internal/collector/plans/plans.go:125-134 | the shares of a report are non-negative and sum to at most one |
| PlanCollector.FullReportShares | internal/collector/plans/plans.go:222-236 | they sum to exactly one when every query that took time is explainable and there is room for all |
| PlanCollector.RecommendedFromReport | internal/collector/plans/plans.go:107-151 | end to end, on a report whose proposals all pass: what is recommended is not the leading part of any index its table already had, and its TimeShare lies between 0 and 1 |
| PlanCollector.NeverAlreadyIndexed | internal/collector/plans/plans.go:317-340 | no recommendation made from a report is the leading part of an index its table already had |
| IndexAdvice.HasPrefix | internal/plans/ddl.go:60-70 | the key columns start with all of prefix |
| IndexAdvice.HasQuery | internal/analyzer/index_advice.go:138-145 | the query is listed |
| IndexAdvice.FindTarget | internal/analyzer/index_advice.go:100-106 | the first recommendation that serves a proposal, if any does |
| IndexAdvice.AddProposal | internal/analyzer/index_advice.go:99-126 | merging one proposal keeps everything a recommendation list promises |
| IndexAdvice.MergeTable | internal/analyzer/index_advice.go:93-132 | so does a whole table, longest proposals first |
| IndexAdvice.GroupByTable | internal/analyzer/index_advice.go:77-90 | the surviving proposals, each under its table |
| IndexAdvice.RecommendIndexes | internal/analyzer/index_advice.go:72-136 | per recommendation: a proposal's columns, each query once, for a scan it serves, TimeShare their sum, Validated exactly on their evidence, busiest first; every surviving proposal is served and its query listed |
| IndexAdvice.RecommendedExactly | internal/analyzer/index_advice.go:72-136 | the recommended columns of a table are exactly its prefix-maximal proposals |
| IndexAdvice.RecommendationMeans | internal/analyzer/index_advice.go:72-136 | in the report's own terms: each recommendation is an index a kept scan asked for, and lists kept scans of its table that it serves, with their filters and validation |
| IndexAdvice.AskedIsServed | internal/analyzer/index_advice.go:72-136 | every kept scan is served by a recommendation that lists its query |
| IndexAdvice.ServesItsTable | internal/analyzer/index_advice.go:84-88 | proposals are merged only into indexes of their own table, while schema names hold no dot |
| IndexAdvice.TimeShareBounded | internal/analyzer/index_advice.go:114-125 | every TimeShare lies between 0 and 1, for any report whose shares are non-negative and sum to at most one |
| CollectionProtocol.StepKeepsInv | internal/collector/coordinator.go:165-388 | every atomic step keeps tokens plus holders at one, and the reported errors those of the collectors that failed |
| CollectionProtocol.CyclesNeverOverlap | internal/collector/coordinator.go:165-388 | in any interleaving of calls, cancellations and workers, two cycles never overlap |
| CollectionProtocol.ReleaseNeverBlocks | internal/collector/coordinator.go:165-388 | a call that is done can always put the token back |
| CollectionProtocol.RefusedByAnother | internal/collector/coordinator.go:275-283 | CollectAll reports a collection in progress only while another call holds the token |
| CollectionProtocol.OutcomeMeansEnded | internal/collector/coordinator.go:119-139 | a worker has an outcome if and only if its end is in the run |
| CollectionProtocol.OneOutcomeEach | internal/collector/coordinator.go:207-231 | in any finishing order each collector a finished cycle selected has one outcome, recorded once and as it ended, and the errors are those of the failed ones |
| CollectionProtocol.LastRunIsLastSuccess | internal/collector/coordinator.go:136-139 | lastRun is the time of the last success in any call; failures leave it alone |
| CollectionProtocol.CollectStartsWhatIsDue | internal/collector/coordinator.go:186-193 | Collect starts a collector if and only if it never succeeded or its interval has passed since its last success |
| CollectionProtocol.CollectNeedsSnapshot | internal/collector/coordinator.go:186-205 | with nothing due the call is done; otherwise it takes a snapshot to start |
| CollectionProtocol.CollectAllStartsAll | internal/collector/coordinator.go:265-300 | CollectAll starts every registered collector, due or not |
| CollectionProtocol.RunCollectorStartsOne | internal/collector/coordinator.go:361-388 | RunCollector starts the first collector of its name, or finds none |
| CollectionProtocol.ToldTheTruth | internal/collector/coordinator.go:165-388 | whatever a call is told holds of the run: cancelled, another collection, no such collector, no snapshot, or the job it began |
| CollectionProtocol.StepsDecrease | internal/collector/coordinator.go:165-388 | every step of the coordinator itself brings the end nearer |
| CollectionProtocol.NeverStuck | internal/collector/coordinator.go:165-388 | no reachable state is stuck before every call is over |
| CollectionProtocol.RunsEnd | internal/collector/coordinator.go:165-388 | without new calls a run is no longer than the work left |
| CollectionProtocol.TokenIsBack | internal/collector/coordinator.go:165-388 | when every call is over the token is back in its channel |
| Coordinator.Coordinator.Enter | internal/collector/coordinator.go:165-171 | the opening select takes the token, gives up when cancelled, or refuses a CollectAll, and nothing else |
| Coordinator.Coordinator.GetDueCollectors | internal/collector/coordinator.go:246-263 | the loop selects the due collectors in order |
| Coordinator.Coordinator.FindCollector | internal/collector/coordinator.go:373-383 | the first collector of a name |
| Coordinator.Coordinator.Begin | internal/collector/coordinator.go:172-205 | selection, early returns and the snapshot, as one step of the protocol |
| Coordinator.Coordinator.FinishWorker | internal/collector/coordinator.go:119-139 | an error goes into the result, a success into lastRun |
| Coordinator.Coordinator.Release | internal/collector/coordinator.go:171-171 | the deferred send finds the channel empty |

## Left out

- Suggester.Suggest: does not state the result counters (new, updated, resolved, errors); it returns the skipped rules and the table.
- SuggestionStore.Store.UpsertSuggestion: models the UPDATE and the INSERT as one step, and of the columns only those that carry identity, severity, status and times.
- DuplicateIndexes.DetectDuplicateIndexes: promises nothing about indexes of one name under one table key, which takes two tables whose joined keys collide.
- Suggester.KeysMatch: requires colon-free rule ids, as all registered rules have; with a colon keys can collide (`Common.JoinKeyCollides`).
- IndexColumns.IndexColumns: takes how one term is read (the comparison regexes and parseTerm) as an arbitrary function.
- FilterLaws.SplitUndoesJoin: asks for terms in their own parentheses, as PostgreSQL prints them; without them an AND inside a term would split.
- PlanCollector.RankQueries: takes the execution times as given; choosing the snapshots they come from, and failing when there are none, is not modelled.
- PlanCollector.FindingFor: takes the previous report and the planner's answers as given; storing the explained plan and its cost are not modelled.
- Coordinator.Coordinator.FinishWorker: treats recording the outcome and updating lastRun or the errors as one step; nothing else reads them while the token is held.
- CollectionProtocol.StepKeepsInv: the registered collectors do not change during a run.
- AnalysisCycle.RunAnalysis: an empty list inside a document (blocked or long-running queries, fastest-growing tables) counts as an answer; failed checks inside a document, and domains a rule reads without requiring them, appear only in what the rule reports and declares unobserved.
- SqlReader.SplitsLikeSqlExactly: speaks of filters whose quoted names hold no quote or parenthesis; over others only the state is compared (`SqlReader.InStepExactly`), and both read backslashes as ordinary characters.
- Coverage.Analysis.Analyze: reads fail, come back empty or return data; what the sub-analyzers compute from the data is not modelled. After an analysis that ends the process only the table of suggestions is spoken of.
- QueryPeriods.NeverOvercounts: a reset between two samples is seen only if a counter went down, so periods with resets can undercount; the bound and the equality without resets are proved.
- The list of error messages an analysis carries, and its length.
- Floating-point rounding, int64 overflow and time zones.
- checkCollection, the digest and its schedule, titles, links, message rendering and number formatting.
- The unused-index pass: a kept duplicate may still be reported as unused, so drop safety is among duplicate issues only.
- AnalyzeWithTimeRange, the individual rules' thresholds, and what growing tables and the connection peak amount to.
- Reading of samples by Verify, its summary texts, and cleaning up old resolved suggestions.
- SQL text, pgx calls, HTTP handlers, configuration, metrics, logging, schedulers and timers.
