/** The verdict on a fix: one query's execution before and after it
    (internal/verify/verify.go). */
module FixVerdict {
  import opened Common
  import opened Ordering
  import opened QueryPeriods

  const IMPROVED_RATIO := 0.8
  const REGRESSED_RATIO := 1.2
  const MIN_AFTER_SPAN := 3_600_000_000_000 // one hour in nanoseconds
  const MIN_CALLS := 10

  datatype Verdict = Improved | Regressed | Unchanged | Stopped | Pending | NoData

  datatype Outcome = Outcome(before: Option<Period>, after: Option<Period>, verdict: Verdict)

  predicate Earlier(a: Sample, b: Sample)
  {
    a.at < b.at
  }

  lemma EarlierIsOrder()
    ensures StrictWeakOrder(Earlier)
  {
  }

  // after / before as a float division: 0/0 compares false with every bound, and a
  // positive mean over 0 exceeds them all.
  predicate RatioAtMost(after: real, before: real, bound: real)
  {
    before != 0.0 && after / before <= bound
  }

  predicate RatioAtLeast(after: real, before: real, bound: real)
  {
    if before != 0.0 then after / before >= bound else after > 0.0
  }

  method Compare(samples0: seq<Sample>, before: (int, int), after: (int, int), afterComplete: bool)
    returns (out: Outcome)
    ensures var sorted := Sort(samples0, Earlier);
            out == Outcome(PeriodOf(sorted, before.0, before.1), PeriodOf(sorted, after.0, after.1),
                           VerdictOf(PeriodOf(sorted, before.0, before.1), PeriodOf(sorted, after.0, after.1), afterComplete))
  {
    var samples := Sort(samples0, Earlier);
    EarlierIsOrder();
    SortSorts(samples0, Earlier);
    var b := ComputePeriod(samples, before.0, before.1);
    var a := ComputePeriod(samples, after.0, after.1);
    var verdict;
    if b.None? || b.value.calls == 0 {
      verdict := NoData;
    } else if afterComplete && (a.None? || a.value.calls == 0) {
      verdict := Stopped;
    } else if a.None? || a.value.to - a.value.from < MIN_AFTER_SPAN || a.value.calls < MIN_CALLS {
      verdict := Pending;
    } else if RatioAtMost(a.value.mean, b.value.mean, IMPROVED_RATIO) {
      verdict := Improved;
    } else if RatioAtLeast(a.value.mean, b.value.mean, REGRESSED_RATIO) {
      verdict := Regressed;
    } else {
      verdict := Unchanged;
    }
    return Outcome(b, a, verdict);
  }

  predicate EnoughAfter(after: Option<Period>)
  {
    after.Some? && after.value.to - after.value.from >= MIN_AFTER_SPAN && after.value.calls >= MIN_CALLS
  }

  function VerdictOf(before: Option<Period>, after: Option<Period>, afterComplete: bool): Verdict
  {
    if CallsOf(before) == 0 then NoData
    else if afterComplete && CallsOf(after) == 0 then Stopped
    else if !EnoughAfter(after) then Pending
    else if RatioAtMost(after.value.mean, before.value.mean, IMPROVED_RATIO) then Improved
    else if RatioAtLeast(after.value.mean, before.value.mean, REGRESSED_RATIO) then Regressed
    else Unchanged
  }

  ghost predicate TiesAgree(taken: seq<Sample>)
  {
    forall i, j :: 0 <= i < j < |taken| && taken[i].at == taken[j].at ==> taken[i] == taken[j]
  }

  // Storage returns samples newest first. Sorting puts any arrangement of them back into
  // the order they were taken in, as long as samples of one instant are alike.
  lemma SortRestores(taken: seq<Sample>, stored: seq<Sample>)
    requires InOrder(taken) && TiesAgree(taken)
    requires multiset(stored) == multiset(taken)
    ensures Sort(stored, Earlier) == taken
  {
    EarlierIsOrder();
    SortSorts(stored, Earlier);
    SortedUnique(taken, Sort(stored, Earlier), Earlier);
  }

  lemma SwapKeepsPopulation<T>(s: seq<T>, i: nat, j: nat)
    requires i < j < |s|
    ensures multiset(s[i := s[j]][j := s[i]]) == multiset(s)
  {
  }

  // And only then: two different samples of one instant can come back exchanged.
  lemma TimesMustTellApart(taken: seq<Sample>)
    requires InOrder(taken)
    ensures TiesAgree(taken) <==>
      forall stored :: multiset(stored) == multiset(taken) && Sorted(stored, Earlier) ==> stored == taken
  {
    if TiesAgree(taken) {
      forall stored | multiset(stored) == multiset(taken) && Sorted(stored, Earlier)
        ensures stored == taken
      {
        SortedUnique(taken, stored, Earlier);
      }
    } else {
      var i: nat, j: nat :| i < j < |taken| && taken[i].at == taken[j].at && taken[i] != taken[j];
      var stored := taken[i := taken[j]][j := taken[i]];
      SwapKeepsPopulation(taken, i, j);
      assert stored[i] != taken[i];
      assert Sorted(stored, Earlier);
    }
  }

  // The counters were sampled over the window and not reset inside it.
  ghost predicate Truthful(h: seq<Event>, window: (int, int))
  {
    Sampled(h, window.0, window.1) && BaseSeen(h, window.0, window.1).resets == LastSeen(h, window.0, window.1).resets
  }

  // What was really executed over the window.
  ghost function CallsDone(h: seq<Event>, window: (int, int)): int
    requires Truthful(h, window)
  {
    LastSeen(h, window.0, window.1).doneCalls - BaseSeen(h, window.0, window.1).doneCalls
  }

  ghost function MsDone(h: seq<Event>, window: (int, int)): real
    requires Truthful(h, window)
  {
    LastSeen(h, window.0, window.1).doneMs - BaseSeen(h, window.0, window.1).doneMs
  }

  // The time between a window's baseline and its last sample.
  ghost function SampledSpan(h: seq<Event>, window: (int, int)): int
    requires Sampled(h, window.0, window.1)
  {
    var samples := Samples(h, |h|);
    samples[UpTo(samples, window.1) - 1].at - samples[BaselineIndex(UpTo(samples, window.0))].at
  }

  // What each verdict says about the calls and mean times before (bc, bm) and after (ac,
  // am). A mean of zero before allows no ratio: such a query is never called improved,
  // and regressed as soon as it takes any time at all.
  ghost predicate Earned(v: Verdict, bc: int, ac: int, bm: real, am: real, afterComplete: bool, span: int)
  {
    var enough := span >= 3_600_000_000_000 && ac >= 10;
    && (v == NoData <==> bc == 0)
    && (v == Stopped <==> bc > 0 && afterComplete && ac == 0)
    && (v == Pending <==> bc > 0 && !(afterComplete && ac == 0) && !enough)
    && (v == Improved <==> bc > 0 && enough && bm > 0.0 && am <= 0.8 * bm)
    && (v == Regressed <==> bc > 0 && enough && am > 0.0 && am >= 1.2 * bm)
  }

  // Without resets inside the two windows a verdict is about what really happened: a query
  // is called improved exactly if at least ten calls, seen over at least an hour, really
  // took at most 0.8 times the mean before, regressed if they took at least 1.2 times it.
  lemma VerdictIsEarned(h: seq<Event>, before: (int, int), after: (int, int), afterComplete: bool)
    requires RealHistory(h) && Truthful(h, before) && Truthful(h, after)
    ensures var samples := Samples(h, |h|);
            var verdict := VerdictOf(PeriodOf(samples, before.0, before.1), PeriodOf(samples, after.0, after.1), afterComplete);
            var bc, ac := CallsDone(h, before), CallsDone(h, after);
            Earned(verdict, bc, ac, Mean(MsDone(h, before), bc), Mean(MsDone(h, after), ac), afterComplete, SampledSpan(h, after))
  {
    var b := WindowIsTrue(h, before);
    var a := WindowIsTrue(h, after);
    VerdictMeaning(b, a, afterComplete);
  }

  lemma WindowIsTrue(h: seq<Event>, window: (int, int)) returns (p: Period)
    requires RealHistory(h) && Truthful(h, window)
    ensures PeriodOf(Samples(h, |h|), window.0, window.1) == Some(p)
    ensures p.calls == CallsDone(h, window) >= 0
    ensures p.mean == Mean(MsDone(h, window), CallsDone(h, window)) >= 0.0
    ensures p.to - p.from == SampledSpan(h, window)
  {
    var total;
    p, total := NeverOvercounts(h, window.0, window.1);
    MeanNonNegative(MsDone(h, window), CallsDone(h, window));
  }

  lemma VerdictMeaning(b: Period, a: Period, afterComplete: bool)
    requires b.calls >= 0 && b.mean >= 0.0 && a.calls >= 0 && a.mean >= 0.0
    ensures Earned(VerdictOf(Some(b), Some(a), afterComplete), b.calls, a.calls, b.mean, a.mean, afterComplete, a.to - a.from)
  {
    RatioMeaning(a.mean, b.mean);
    if b.mean > 0.0 && a.mean <= IMPROVED_RATIO * b.mean {
      NotBoth(a.mean, b.mean);
    }
  }

  // A ratio is not at once small enough to be an improvement and large enough not to be.
  lemma NotBoth(after: real, before: real)
    requires before > 0.0 && after <= IMPROVED_RATIO * before
    ensures after < REGRESSED_RATIO * before
  {
  }

  lemma MeanNonNegative(total: real, calls: int)
    requires total >= 0.0
    ensures Mean(total, calls) >= 0.0
  {
  }

  lemma RatioMeaning(after: real, before: real)
    requires after >= 0.0 && before >= 0.0
    ensures RatioAtMost(after, before, IMPROVED_RATIO) <==> before > 0.0 && after <= IMPROVED_RATIO * before
    ensures RatioAtLeast(after, before, REGRESSED_RATIO) <==> after > 0.0 && after >= REGRESSED_RATIO * before
  {
    if before != 0.0 {
      TimesDenominator(after, before, IMPROVED_RATIO);
      TimesDenominator(after, before, REGRESSED_RATIO);
    }
  }

  lemma TimesDenominator(a: real, b: real, k: real)
    requires b > 0.0
    ensures a / b <= k <==> a <= k * b
    ensures a / b >= k <==> a >= k * b
  {
  }

  // A window without samples counts as one without calls: nothing before means no data;
  // nothing after means stopped once the window is over, and pending until then.
  lemma VerdictWithoutSamples(h: seq<Event>, before: (int, int), after: (int, int), afterComplete: bool)
    requires RealHistory(h) && (!Sampled(h, before.0, before.1) || !Sampled(h, after.0, after.1))
    ensures var samples := Samples(h, |h|);
            var b := PeriodOf(samples, before.0, before.1);
            var verdict := VerdictOf(b, PeriodOf(samples, after.0, after.1), afterComplete);
            verdict == if b.None? || b.value.calls == 0 then NoData else if afterComplete then Stopped else Pending
  {
  }

  // What the deltas of a window have seen executed, less what resets nobody can see have
  // taken from them.
  ghost function CallsSeen(h: seq<Event>, window: (int, int)): int
    requires Sampled(h, window.0, window.1)
  {
    var lo, hi := UpTo(Samples(h, |h|), window.0), UpTo(Samples(h, |h|), window.1);
    SeenCalls(h, lo, hi) - LostCalls(h, lo, hi)
  }

  ghost function MsSeen(h: seq<Event>, window: (int, int)): real
    requires Sampled(h, window.0, window.1)
  {
    var lo, hi := UpTo(Samples(h, |h|), window.0), UpTo(Samples(h, |h|), window.1);
    SeenMs(h, lo, hi) - LostMs(h, lo, hi)
  }

  // Across resets the verdict is about what the two windows have seen.
  lemma {:induction false} VerdictAcrossResets(h: seq<Event>, before: (int, int), after: (int, int), afterComplete: bool)
    requires RealHistory(h) && Sampled(h, before.0, before.1) && Sampled(h, after.0, after.1)
    ensures var samples := Samples(h, |h|);
            var verdict := VerdictOf(PeriodOf(samples, before.0, before.1), PeriodOf(samples, after.0, after.1), afterComplete);
            var bc, ac := CallsSeen(h, before), CallsSeen(h, after);
            Earned(verdict, bc, ac, Mean(MsSeen(h, before), bc), Mean(MsSeen(h, after), ac), afterComplete, SampledSpan(h, after))
  {
    var b := SampledPeriod(h, before);
    var a := SampledPeriod(h, after);
    VerdictMeaning(b, a, afterComplete);
  }

  lemma {:induction false} SampledPeriod(h: seq<Event>, window: (int, int)) returns (p: Period)
    requires RealHistory(h) && Sampled(h, window.0, window.1)
    ensures PeriodOf(Samples(h, |h|), window.0, window.1) == Some(p)
    ensures p.calls == CallsSeen(h, window) && p.mean == Mean(MsSeen(h, window), p.calls)
    ensures p.to - p.from == SampledSpan(h, window) && p.calls >= 0 && p.mean >= 0.0
  {
    var total;
    p, total := PeriodExactly(h, window.0, window.1);
    assert total == MsSeen(h, window);
    PeriodNonNegative(h, window, p);
  }

  lemma {:induction false} PeriodNonNegative(h: seq<Event>, window: (int, int), p: Period)
    requires RealHistory(h) && Sampled(h, window.0, window.1)
    requires PeriodOf(Samples(h, |h|), window.0, window.1) == Some(p)
    ensures p.to - p.from == SampledSpan(h, window) && p.calls >= 0 && p.mean >= 0.0
  {
    var q, total := NeverOvercounts(h, window.0, window.1);
    MeanNonNegative(total, q.calls);
  }

  // Ten calls that took no measurable time, then ten that took a tenth of a millisecond
  // each, sampled at intervals of t.
  function ZeroMeanHistory(t: int): seq<Event>
  {
    [Take(0), Execute(10, 0.0), Take(t), Execute(10, 1.0), Take(2 * t)]
  }

  function ZeroMeanSamples(t: int): seq<Sample>
  {
    [Sample(0, 0, 0.0), Sample(t, 10, 0.0), Sample(2 * t, 20, 1.0)]
  }

  lemma ZeroMeanSampled(h: seq<Event>, t: int)
    requires h == ZeroMeanHistory(t) && t > 0
    ensures Samples(h, |h|) == ZeroMeanSamples(t)
  {
    assert |h| == 5 && h[0] == Take(0) && h[1] == Execute(10, 0.0) && h[2] == Take(t) && h[3] == Execute(10, 1.0);
    var s0, s1, s2 := Server(0, 0.0, 0, 0.0, 0), Server(10, 0.0, 10, 0.0, 0), Server(20, 1.0, 20, 1.0, 0);
    EventStep(h, 0, s0, []);
    EventStep(h, 1, s0, [Sample(0, 0, 0.0)]);
    EventStep(h, 2, s1, [Sample(0, 0, 0.0)]);
    EventStep(h, 3, s1, [Sample(0, 0, 0.0), Sample(t, 10, 0.0)]);
    EventStep(h, 4, s2, [Sample(0, 0, 0.0), Sample(t, 10, 0.0)]);
    assert ZeroMeanSamples(t) == [Sample(0, 0, 0.0), Sample(t, 10, 0.0)] + [Sample(2 * t, 20, 1.0)];
  }

  lemma ZeroMeanIsReal(h: seq<Event>, t: int)
    requires h == ZeroMeanHistory(t) && t > 0
    ensures RealHistory(h)
  {
    assert |h| == 5 && h[0] == Take(0) && h[1] == Execute(10, 0.0) && h[2] == Take(t) && h[3] == Execute(10, 1.0);
  }

  lemma EventStep(h: seq<Event>, n: nat, s: Server, samples: seq<Sample>)
    requires n < |h| && After(h, n) == s && Samples(h, n) == samples
    ensures After(h, n + 1) == QueryPeriods.Apply(s, h[n])
    ensures Samples(h, n + 1) == if h[n].Take? then samples + [Sample(h[n].at, s.calls, s.total)] else samples
  {
  }

  lemma ThreeSamples(samples: seq<Sample>, t: int)
    requires |samples| == 3 && samples[0].at == 0 && samples[1].at == t && samples[2].at == 2 * t && t > 0
    ensures UpTo(samples, 0) == 1 && UpTo(samples, t) == 2 && UpTo(samples, 2 * t) == 3
  {
    assert InOrder(samples);
  }

  lemma OneDelta(samples: seq<Sample>, k: nat)
    requires 0 < k < |samples|
    ensures SumCalls(samples, k, k + 1) == DeltaCalls(samples[k - 1], samples[k])
    ensures SumTotal(samples, k, k + 1) == DeltaTotal(samples[k - 1], samples[k])
  {
  }

  lemma ZeroMeanPeriods(samples: seq<Sample>, t: int)
    requires samples == ZeroMeanSamples(t) && t > 0
    ensures PeriodOf(samples, 0, t) == Some(Period(0, t, 10, 0.0))
    ensures PeriodOf(samples, t, 2 * t) == Some(Period(t, 2 * t, 10, 0.1))
  {
    ThreeSamples(samples, t);
    OneDelta(samples, 1);
    OneDelta(samples, 2);
  }

  // A query that took no time before the fix counts as regressed.
  lemma ZeroMeanRegresses(h: seq<Event>, t: int, afterComplete: bool)
    requires h == ZeroMeanHistory(t) && t >= MIN_AFTER_SPAN
    ensures RealHistory(h)
    ensures VerdictOf(PeriodOf(Samples(h, |h|), 0, t), PeriodOf(Samples(h, |h|), t, 2 * t), afterComplete) == Regressed
  {
    ZeroMeanIsReal(h, t);
    ZeroMeanSampled(h, t);
    ZeroMeanPeriods(Samples(h, |h|), t);
  }

  // ----- Several queries -----

  // A suggestion takes the most telling verdict among its queries: a regression first.
  function Priority(v: Verdict): nat
  {
    match v
    case Regressed => 5
    case Improved => 4
    case Unchanged => 3
    case Stopped => 2
    case Pending => 1
    case NoData => 0
  }

  method Overall(verdicts: seq<Verdict>) returns (v: Verdict)
    ensures v in verdicts || (v == NoData && verdicts == [])
    ensures forall w :: w in verdicts ==> Priority(w) <= Priority(v)
    ensures Regressed in verdicts ==> v == Regressed
    ensures v == Improved ==> Regressed !in verdicts
    ensures v == Unchanged ==> Regressed !in verdicts && Improved !in verdicts
    ensures v == Stopped ==> forall w :: w in verdicts ==> w in {Stopped, Pending, NoData}
    ensures v == Pending ==> forall w :: w in verdicts ==> w in {Pending, NoData}
    ensures v == NoData ==> forall w :: w in verdicts ==> w == NoData
  {
    var counts: map<Verdict, nat> := map[];
    for i := 0 to |verdicts|
      invariant forall w :: w in counts <==> w in verdicts[..i]
      invariant forall w :: w in counts ==> counts[w] > 0
    {
      assert verdicts[..i + 1] == verdicts[..i] + [verdicts[i]];
      var w := verdicts[i];
      counts := counts[w := (if w in counts then counts[w] else 0) + 1];
    }
    assert verdicts[..|verdicts|] == verdicts;
    var order := [Regressed, Improved, Unchanged, Stopped, Pending];
    assert order[0] == Regressed && order[1] == Improved && order[2] == Unchanged && order[3] == Stopped && order[4] == Pending;
    for i := 0 to |order|
      invariant forall w :: w in verdicts ==> Priority(w) <= 5 - i
    {
      assert forall w :: Priority(w) == 5 - i <==> w == order[i];
      if order[i] in counts && counts[order[i]] > 0 {
        return order[i];
      }
    }
    assert forall w :: Priority(w) == 0 <==> w == NoData;
    if verdicts != [] {
      assert verdicts[0] in verdicts && Priority(verdicts[0]) == 0;
    }
    return NoData;
  }
}
