/** Execution between two instants, read off samples of cumulative counters that may be
    reset (internal/verify/verify.go). Times in milliseconds are exact reals. */
module QueryPeriods {
  import opened Common

  datatype Sample = Sample(at: int, calls: int, total: real)

  // mean is the mean milliseconds per call, 0 without calls.
  datatype Period = Period(from: int, to: int, calls: int, mean: real)

  ghost predicate InOrder(samples: seq<Sample>)
  {
    forall i, j :: 0 <= i < j < |samples| ==> samples[i].at <= samples[j].at
  }

  predicate LooksReset(prev: Sample, s: Sample)
  {
    s.calls - prev.calls < 0 || s.total - prev.total < 0.0
  }

  function DeltaCalls(prev: Sample, s: Sample): int
  {
    if LooksReset(prev, s) then s.calls else s.calls - prev.calls
  }

  function DeltaTotal(prev: Sample, s: Sample): real
  {
    if LooksReset(prev, s) then s.total else s.total - prev.total
  }

  // The deltas that end at samples lo..hi. The first sample of all has no predecessor
  // and is only a baseline.
  function SumCalls(samples: seq<Sample>, lo: nat, hi: nat): int
    requires lo <= hi <= |samples|
  {
    if lo == hi then 0
    else SumCalls(samples, lo, hi - 1) + if hi == 1 then 0 else DeltaCalls(samples[hi - 2], samples[hi - 1])
  }

  function SumTotal(samples: seq<Sample>, lo: nat, hi: nat): real
    requires lo <= hi <= |samples|
  {
    if lo == hi then 0.0
    else SumTotal(samples, lo, hi - 1) + if hi == 1 then 0.0 else DeltaTotal(samples[hi - 2], samples[hi - 1])
  }

  // How many samples were taken at or before t.
  function UpTo(samples: seq<Sample>, t: int): (n: nat)
    ensures n <= |samples|
    ensures InOrder(samples) ==> forall i :: 0 <= i < |samples| ==> (samples[i].at <= t <==> i < n)
  {
    if samples == [] || samples[|samples| - 1].at <= t then |samples| else UpTo(samples[..|samples| - 1], t)
  }

  lemma {:induction false} UpToMonotone(samples: seq<Sample>, t: int, t': int)
    requires InOrder(samples) && t <= t'
    ensures UpTo(samples, t) <= UpTo(samples, t')
  {
    var n := UpTo(samples, t);
    if n > 0 {
      assert samples[n - 1].at <= t';
    }
  }

  // The sample a period starts from: the last one at or before from, or failing that the
  // first one inside.
  function BaselineIndex(lo: nat): nat
  {
    if lo > 0 then lo - 1 else 0
  }

  function Mean(total: real, calls: int): real
  {
    if calls > 0 then total / calls as real else 0.0
  }

  // Milliseconds per call; 0 without calls.
  lemma MeanMeans(total: real, calls: int)
    ensures calls > 0 ==> Mean(total, calls) * calls as real == total
    ensures calls <= 0 ==> Mean(total, calls) == 0.0
  {
  }

  function PeriodOf(samples: seq<Sample>, from: int, to: int): Option<Period>
  {
    var lo, hi := UpTo(samples, from), UpTo(samples, to);
    if hi <= lo then None
    else
      var calls := SumCalls(samples, lo, hi);
      Some(Period(samples[BaselineIndex(lo)].at, samples[hi - 1].at, calls,
                  Mean(SumTotal(samples, lo, hi), calls)))
  }

  method ComputePeriod(samples: seq<Sample>, from: int, to: int) returns (p: Option<Period>)
    requires InOrder(samples)
    ensures p == PeriodOf(samples, from, to)
  {
    ghost var lo, hi := UpTo(samples, from), UpTo(samples, to);
    var prev: Option<Sample> := None;
    p := None;
    var i := 0;
    while i < |samples|
      invariant 0 <= i <= hi
      invariant prev == if i == 0 then None else Some(samples[i - 1])
      invariant i <= lo ==> p == None
      invariant i > lo ==> p.Some? && p.value == Period(samples[BaselineIndex(lo)].at, samples[i - 1].at,
                                                        SumCalls(samples, lo, i), SumTotal(samples, lo, i))
      decreases |samples| - i
    {
      var s := samples[i];
      if s.at > to {
        break;
      }
      if s.at <= from {
        prev := Some(s);
        i := i + 1;
        continue;
      }
      if p.None? {
        p := Some(Period(if prev.Some? then prev.value.at else s.at, s.at, 0, 0.0));
      }
      var q := p.value;
      if prev.Some? {
        var calls, total := s.calls - prev.value.calls, s.total - prev.value.total;
        if calls < 0 || total < 0.0 {
          calls, total := s.calls, s.total;
        }
        // the total is summed here and divided below
        q := q.(calls := q.calls + calls, mean := q.mean + total);
      }
      p := Some(q.(to := s.at));
      prev := Some(s);
      i := i + 1;
    }
    assert i == hi;
    if p.None? {
      return None;
    }
    var q := p.value;
    if q.calls > 0 {
      q := q.(mean := q.mean / q.calls as real);
    } else {
      q := q.(mean := 0.0);
    }
    p := Some(q);
  }

  // ----- Periods add up -----

  lemma {:induction false} SumsSplit(samples: seq<Sample>, lo: nat, mid: nat, hi: nat)
    requires lo <= mid <= hi <= |samples|
    ensures SumCalls(samples, lo, mid) + SumCalls(samples, mid, hi) == SumCalls(samples, lo, hi)
    ensures SumTotal(samples, lo, mid) + SumTotal(samples, mid, hi) == SumTotal(samples, lo, hi)
    decreases hi
  {
    if mid < hi {
      SumsSplit(samples, lo, mid, hi - 1);
    }
  }

  function CallsOf(p: Option<Period>): int
  {
    if p.Some? then p.value.calls else 0
  }

  // Cutting a period at any instant loses no call and counts none twice, resets or not.
  lemma PeriodsAddUp(samples: seq<Sample>, from: int, mid: int, to: int)
    requires InOrder(samples) && from <= mid <= to
    ensures CallsOf(PeriodOf(samples, from, mid)) + CallsOf(PeriodOf(samples, mid, to)) ==
            CallsOf(PeriodOf(samples, from, to))
  {
    UpToMonotone(samples, from, mid);
    UpToMonotone(samples, mid, to);
    SumsSplit(samples, UpTo(samples, from), UpTo(samples, mid), UpTo(samples, to));
  }

  // As long as no two samples in a row look like a reset, what was counted is the last
  // sample minus the baseline.
  lemma {:induction false} SumsTelescope(samples: seq<Sample>, lo: nat, hi: nat)
    requires lo < hi <= |samples|
    requires forall k :: BaselineIndex(lo) < k < hi ==> !LooksReset(samples[k - 1], samples[k])
    ensures SumCalls(samples, lo, hi) == samples[hi - 1].calls - samples[BaselineIndex(lo)].calls
    ensures SumTotal(samples, lo, hi) == samples[hi - 1].total - samples[BaselineIndex(lo)].total
    decreases hi
  {
    if lo < hi - 1 {
      SumsTelescope(samples, lo, hi - 1);
    }
  }

  lemma PeriodTelescopes(samples: seq<Sample>, from: int, to: int)
    requires InOrder(samples) && PeriodOf(samples, from, to).Some?
    requires var lo, hi := UpTo(samples, from), UpTo(samples, to);
             forall k :: BaselineIndex(lo) < k < hi ==> !LooksReset(samples[k - 1], samples[k])
    ensures var base, last := samples[BaselineIndex(UpTo(samples, from))], samples[UpTo(samples, to) - 1];
            PeriodOf(samples, from, to) == Some(Period(base.at, last.at, last.calls - base.calls,
                                                       Mean(last.total - base.total, last.calls - base.calls)))
  {
    SumsTelescope(samples, UpTo(samples, from), UpTo(samples, to));
  }

  // ----- What was really executed -----

  // The life of one query's counters.
  datatype Event =
    | Execute(calls: nat, ms: real)
    | Reset
    | Take(at: int)

  // Counters as the server shows them, what has really been executed since the start,
  // and how often the counters were reset.
  datatype Server = Server(calls: int, total: real, doneCalls: int, doneMs: real, resets: nat)

  ghost predicate RealHistory(h: seq<Event>)
  {
    && (forall i :: 0 <= i < |h| && h[i].Execute? ==> h[i].ms >= 0.0)
    && (forall i, j :: 0 <= i < j < |h| && h[i].Take? && h[j].Take? ==> h[i].at <= h[j].at)
  }

  function Apply(s: Server, e: Event): Server
  {
    match e
    case Execute(calls, ms) =>
      s.(calls := s.calls + calls, total := s.total + ms, doneCalls := s.doneCalls + calls, doneMs := s.doneMs + ms)
    case Reset => s.(calls := 0, total := 0.0, resets := s.resets + 1)
    case Take(_) => s
  }

  function After(h: seq<Event>, n: nat): Server
    requires n <= |h|
  {
    if n == 0 then Server(0, 0.0, 0, 0.0, 0) else Apply(After(h, n - 1), h[n - 1])
  }

  // The server at each sample taken during the first n events.
  function Observed(h: seq<Event>, n: nat): seq<Server>
    requires n <= |h|
  {
    if n == 0 then []
    else Observed(h, n - 1) + if h[n - 1].Take? then [After(h, n - 1)] else []
  }

  function Samples(h: seq<Event>, n: nat): (samples: seq<Sample>)
    requires n <= |h|
    ensures |samples| == |Observed(h, n)|
  {
    if n == 0 then []
    else Samples(h, n - 1) + if h[n - 1].Take? then [Sample(h[n - 1].at, After(h, n - 1).calls, After(h, n - 1).total)] else []
  }

  // Between two moments of one server: nothing runs backwards, the counters never show
  // more than was executed in between, and show exactly that without a reset.
  ghost predicate Later(a: Server, b: Server)
  {
    && 0 <= a.calls && 0.0 <= a.total && 0 <= b.calls && 0.0 <= b.total
    && a.doneCalls <= b.doneCalls && a.doneMs <= b.doneMs && a.resets <= b.resets
    && (a.resets == b.resets ==>
          b.calls - a.calls == b.doneCalls - a.doneCalls && b.total - a.total == b.doneMs - a.doneMs)
    && (a.resets < b.resets ==> b.calls <= b.doneCalls - a.doneCalls && b.total <= b.doneMs - a.doneMs)
  }

  lemma {:induction false} ServerMovesOn(h: seq<Event>, m: nat, n: nat)
    requires m <= n <= |h| && RealHistory(h)
    ensures Later(After(h, m), After(h, n))
    decreases n
  {
    if m < n {
      ServerMovesOn(h, m, n - 1);
    } else if n > 0 {
      ServerMovesOn(h, n - 1, n - 1);
    }
  }

  // Every sample is the server's counters at some event, and samples come in order.
  lemma {:induction false} ObservedAt(h: seq<Event>, n: nat, k: nat) returns (m: nat)
    requires n <= |h| && k < |Observed(h, n)|
    ensures m < n && h[m].Take?
    ensures Observed(h, n)[k] == After(h, m)
    ensures Samples(h, n)[k] == Sample(h[m].at, After(h, m).calls, After(h, m).total)
    ensures |Observed(h, m)| == k
  {
    if k < |Observed(h, n - 1)| {
      m := ObservedAt(h, n - 1, k);
    } else {
      m := n - 1;
    }
  }

  lemma {:induction false} ObservedGrows(h: seq<Event>, m: nat, n: nat)
    requires m <= n <= |h|
    ensures |Observed(h, m)| <= |Observed(h, n)|
    decreases n
  {
    if m < n {
      ObservedGrows(h, m, n - 1);
    }
  }

  lemma ConsecutiveSamples(h: seq<Event>, k: nat, l: nat)
    requires RealHistory(h) && k <= l < |Observed(h, |h|)|
    ensures Later(Observed(h, |h|)[k], Observed(h, |h|)[l])
    ensures Samples(h, |h|)[k].at <= Samples(h, |h|)[l].at
  {
    var m := ObservedAt(h, |h|, k);
    var n := ObservedAt(h, |h|, l);
    if n < m {
      ObservedGrows(h, n + 1, m);
    }
    ServerMovesOn(h, m, n);
  }

  lemma SamplesInOrder(h: seq<Event>)
    requires RealHistory(h)
    ensures InOrder(Samples(h, |h|))
  {
    forall i, j | 0 <= i < j < |Samples(h, |h|)|
      ensures Samples(h, |h|)[i].at <= Samples(h, |h|)[j].at
    {
      ConsecutiveSamples(h, i, j);
    }
  }

  // One delta: never more than was executed between its samples, all of it without a reset.
  lemma DeltaBounded(h: seq<Event>, k: nat)
    requires RealHistory(h) && 0 < k < |Observed(h, |h|)|
    ensures var a, b, s, t := Observed(h, |h|)[k - 1], Observed(h, |h|)[k], Samples(h, |h|)[k - 1], Samples(h, |h|)[k];
            && 0 <= DeltaCalls(s, t) <= b.doneCalls - a.doneCalls
            && 0.0 <= DeltaTotal(s, t) <= b.doneMs - a.doneMs
            && (a.resets == b.resets ==>
                  DeltaCalls(s, t) == b.doneCalls - a.doneCalls && DeltaTotal(s, t) == b.doneMs - a.doneMs)
  {
    ConsecutiveSamples(h, k - 1, k);
    var m := ObservedAt(h, |h|, k - 1);
    var n := ObservedAt(h, |h|, k);
  }

  lemma {:induction false} SumsBounded(h: seq<Event>, lo: nat, hi: nat)
    requires RealHistory(h) && lo < hi <= |Observed(h, |h|)|
    ensures var base, last, samples := Observed(h, |h|)[BaselineIndex(lo)], Observed(h, |h|)[hi - 1], Samples(h, |h|);
            && 0 <= SumCalls(samples, lo, hi) <= last.doneCalls - base.doneCalls
            && 0.0 <= SumTotal(samples, lo, hi) <= last.doneMs - base.doneMs
            && (base.resets == last.resets ==>
                  && SumCalls(samples, lo, hi) == last.doneCalls - base.doneCalls
                  && SumTotal(samples, lo, hi) == last.doneMs - base.doneMs)
    decreases hi
  {
    var samples := Samples(h, |h|);
    if hi > 1 {
      DeltaBounded(h, hi - 1);
      if lo < hi - 1 {
        SumsBounded(h, lo, hi - 1);
        ConsecutiveSamples(h, BaselineIndex(lo), hi - 2);
        ConsecutiveSamples(h, hi - 2, hi - 1);
      }
    }
  }

  // ----- What a period counts across resets -----

  // What events lo..hi execute.
  function CallsIn(h: seq<Event>, lo: nat, hi: nat): int
    requires lo <= hi <= |h|
  {
    if lo == hi then 0 else CallsIn(h, lo, hi - 1) + if h[hi - 1].Execute? then h[hi - 1].calls else 0
  }

  function MsIn(h: seq<Event>, lo: nat, hi: nat): real
    requires lo <= hi <= |h|
  {
    if lo == hi then 0.0 else MsIn(h, lo, hi - 1) + if h[hi - 1].Execute? then h[hi - 1].ms else 0.0
  }

  // Where the counters last started from zero.
  function LastReset(h: seq<Event>, n: nat): (start: nat)
    requires n <= |h|
    ensures start <= n
    ensures start > 0 ==> h[start - 1].Reset?
    ensures forall i :: start <= i < n ==> !h[i].Reset?
  {
    if n == 0 then 0 else if h[n - 1].Reset? then n else LastReset(h, n - 1)
  }

  lemma {:induction false} CountersSinceReset(h: seq<Event>, n: nat)
    requires n <= |h|
    ensures After(h, n).calls == CallsIn(h, LastReset(h, n), n)
    ensures After(h, n).total == MsIn(h, LastReset(h, n), n)
  {
    if n > 0 {
      CountersSinceReset(h, n - 1);
    }
  }

  lemma {:induction false} InSplits(h: seq<Event>, lo: nat, mid: nat, hi: nat)
    requires lo <= mid <= hi <= |h|
    ensures CallsIn(h, lo, mid) + CallsIn(h, mid, hi) == CallsIn(h, lo, hi)
    ensures MsIn(h, lo, mid) + MsIn(h, mid, hi) == MsIn(h, lo, hi)
    decreases hi
  {
    if mid < hi {
      InSplits(h, lo, mid, hi - 1);
    }
  }

  // Without a reset in between, the counters have grown by what was executed.
  lemma {:induction false} SameStart(h: seq<Event>, m: nat, n: nat)
    requires m <= n <= |h| && LastReset(h, n) <= m
    ensures LastReset(h, m) == LastReset(h, n)
    ensures After(h, n).calls - After(h, m).calls == CallsIn(h, m, n)
    ensures After(h, n).total - After(h, m).total == MsIn(h, m, n)
    decreases n
  {
    if m < n {
      SameStart(h, m, n - 1);
    }
  }

  // The event that took sample k.
  function TakenAt(h: seq<Event>, n: nat, k: nat): (m: nat)
    requires n <= |h| && k < |Observed(h, n)|
    ensures m < n && h[m].Take? && Observed(h, n)[k] == After(h, m)
    ensures Samples(h, n)[k] == Sample(h[m].at, After(h, m).calls, After(h, m).total)
    ensures |Observed(h, m)| == k
  {
    if k < |Observed(h, n - 1)| then TakenAt(h, n - 1, k) else n - 1
  }

  lemma TakenInOrder(h: seq<Event>, k: nat)
    requires 0 < k < |Observed(h, |h|)|
    ensures TakenAt(h, |h|, k - 1) < TakenAt(h, |h|, k)
  {
    var m, n := TakenAt(h, |h|, k - 1), TakenAt(h, |h|, k);
    if n <= m {
      ObservedGrows(h, n, m);
    }
  }

  // Where delta k starts to count: at the previous sample, or at a reset since.
  function CountsFrom(h: seq<Event>, k: nat): (from: nat)
    requires 0 < k < |Observed(h, |h|)|
    ensures from <= TakenAt(h, |h|, k)
  {
    TakenInOrder(h, k);
    var m, start := TakenAt(h, |h|, k - 1), LastReset(h, TakenAt(h, |h|, k));
    if start > m then start else m
  }

  // A reset between two samples that cannot be told from them: both counters have caught
  // up since.
  predicate HiddenReset(h: seq<Event>, k: nat)
    requires 0 < k < |Observed(h, |h|)|
  {
    && LastReset(h, TakenAt(h, |h|, k)) > TakenAt(h, |h|, k - 1)
    && Samples(h, |h|)[k - 1].calls <= Samples(h, |h|)[k].calls
    && Samples(h, |h|)[k - 1].total <= Samples(h, |h|)[k].total
  }

  // A delta is what was executed since the previous sample or the last reset, whichever is
  // later; behind a hidden reset the previous sample's counters are missing from it.
  lemma DeltaExactly(h: seq<Event>, k: nat)
    requires RealHistory(h) && 0 < k < |Observed(h, |h|)|
    ensures var s, t, from, at := Samples(h, |h|)[k - 1], Samples(h, |h|)[k], CountsFrom(h, k), TakenAt(h, |h|, k);
            && DeltaCalls(s, t) == CallsIn(h, from, at) - (if HiddenReset(h, k) then s.calls else 0)
            && DeltaTotal(s, t) == MsIn(h, from, at) - (if HiddenReset(h, k) then s.total else 0.0)
  {
    var m, n := TakenAt(h, |h|, k - 1), TakenAt(h, |h|, k);
    TakenInOrder(h, k);
    if LastReset(h, n) <= m {
      SameStart(h, m, n);
      InNonNegative(h, m, n);
    } else {
      CountersSinceReset(h, n);
    }
  }

  lemma {:induction false} InNonNegative(h: seq<Event>, lo: nat, hi: nat)
    requires RealHistory(h) && lo <= hi <= |h|
    ensures CallsIn(h, lo, hi) >= 0 && MsIn(h, lo, hi) >= 0.0
    decreases hi
  {
    if lo < hi {
      InNonNegative(h, lo, hi - 1);
    }
  }

  // What the deltas that end at samples lo..hi have seen executed, and what the hidden
  // resets among them have lost.
  function SeenCalls(h: seq<Event>, lo: nat, hi: nat): int
    requires lo <= hi <= |Observed(h, |h|)|
  {
    if lo == hi then 0
    else SeenCalls(h, lo, hi - 1) + if hi == 1 then 0 else CallsIn(h, CountsFrom(h, hi - 1), TakenAt(h, |h|, hi - 1))
  }

  function SeenMs(h: seq<Event>, lo: nat, hi: nat): real
    requires lo <= hi <= |Observed(h, |h|)|
  {
    if lo == hi then 0.0
    else SeenMs(h, lo, hi - 1) + if hi == 1 then 0.0 else MsIn(h, CountsFrom(h, hi - 1), TakenAt(h, |h|, hi - 1))
  }

  function LostCalls(h: seq<Event>, lo: nat, hi: nat): int
    requires lo <= hi <= |Observed(h, |h|)|
  {
    if lo == hi then 0
    else LostCalls(h, lo, hi - 1) + if hi > 1 && HiddenReset(h, hi - 1) then Samples(h, |h|)[hi - 2].calls else 0
  }

  function LostMs(h: seq<Event>, lo: nat, hi: nat): real
    requires lo <= hi <= |Observed(h, |h|)|
  {
    if lo == hi then 0.0
    else LostMs(h, lo, hi - 1) + if hi > 1 && HiddenReset(h, hi - 1) then Samples(h, |h|)[hi - 2].total else 0.0
  }

  ghost predicate NoneHidden(h: seq<Event>, lo: nat, hi: nat)
    requires lo <= hi <= |Observed(h, |h|)|
  {
    forall k :: lo <= k < hi && k > 0 ==> !HiddenReset(h, k)
  }

  lemma {:induction false} SumsExactly(h: seq<Event>, lo: nat, hi: nat)
    requires RealHistory(h) && lo <= hi <= |Observed(h, |h|)|
    ensures SumCalls(Samples(h, |h|), lo, hi) == SeenCalls(h, lo, hi) - LostCalls(h, lo, hi)
    ensures SumTotal(Samples(h, |h|), lo, hi) == SeenMs(h, lo, hi) - LostMs(h, lo, hi)
    decreases hi
  {
    if lo < hi {
      SumsExactly(h, lo, hi - 1);
      if hi > 1 {
        DeltaExactly(h, hi - 1);
      }
    }
  }

  lemma {:induction false} NothingLost(h: seq<Event>, lo: nat, hi: nat)
    requires lo <= hi <= |Observed(h, |h|)| && NoneHidden(h, lo, hi)
    ensures LostCalls(h, lo, hi) == 0 && LostMs(h, lo, hi) == 0.0
    decreases hi
  {
    if lo < hi {
      NothingLost(h, lo, hi - 1);
    }
  }

  lemma PeriodIs(samples: seq<Sample>, from: int, to: int) returns (p: Period, total: real)
    requires UpTo(samples, from) < UpTo(samples, to)
    ensures PeriodOf(samples, from, to) == Some(p) && p.mean == Mean(total, p.calls)
    ensures p.calls == SumCalls(samples, UpTo(samples, from), UpTo(samples, to))
    ensures total == SumTotal(samples, UpTo(samples, from), UpTo(samples, to))
  {
    p, total := PeriodOf(samples, from, to).value, SumTotal(samples, UpTo(samples, from), UpTo(samples, to));
  }

  // For any history, resets or not: the calls a period counts and the milliseconds its mean
  // divides are those its deltas have seen, less those lost to hidden resets.
  lemma {:induction false} PeriodExactly(h: seq<Event>, from: int, to: int) returns (p: Period, total: real)
    requires RealHistory(h) && Sampled(h, from, to)
    ensures PeriodOf(Samples(h, |h|), from, to) == Some(p) && p.mean == Mean(total, p.calls)
    ensures var lo, hi := UpTo(Samples(h, |h|), from), UpTo(Samples(h, |h|), to);
            && p.calls == SeenCalls(h, lo, hi) - LostCalls(h, lo, hi)
            && total == SeenMs(h, lo, hi) - LostMs(h, lo, hi)
            && (NoneHidden(h, lo, hi) ==> LostCalls(h, lo, hi) == 0 && LostMs(h, lo, hi) == 0.0)
  {
    p, total := PeriodIs(Samples(h, |h|), from, to);
    SumsExactly(h, UpTo(Samples(h, |h|), from), UpTo(Samples(h, |h|), to));
    if NoneHidden(h, UpTo(Samples(h, |h|), from), UpTo(Samples(h, |h|), to)) {
      NothingLost(h, UpTo(Samples(h, |h|), from), UpTo(Samples(h, |h|), to));
    }
  }

  ghost predicate Sampled(h: seq<Event>, from: int, to: int)
  {
    UpTo(Samples(h, |h|), from) < UpTo(Samples(h, |h|), to)
  }

  // The server at a period's baseline sample, and at its last sample.
  ghost function BaseSeen(h: seq<Event>, from: int, to: int): Server
    requires Sampled(h, from, to)
  {
    Observed(h, |h|)[BaselineIndex(UpTo(Samples(h, |h|), from))]
  }

  ghost function LastSeen(h: seq<Event>, from: int, to: int): Server
    requires Sampled(h, from, to)
  {
    Observed(h, |h|)[UpTo(Samples(h, |h|), to) - 1]
  }

  // For any history of executions, resets and samples, a period's calls, and the total
  // time its mean divides, never exceed what was really executed between its baseline
  // and its last sample, and are exactly that when no reset happened in between.
  lemma NeverOvercounts(h: seq<Event>, from: int, to: int) returns (p: Period, total: real)
    requires RealHistory(h) && Sampled(h, from, to)
    ensures PeriodOf(Samples(h, |h|), from, to) == Some(p)
    ensures p.mean == Mean(total, p.calls)
    ensures total == SumTotal(Samples(h, |h|), UpTo(Samples(h, |h|), from), UpTo(Samples(h, |h|), to))
    ensures var base, last := BaseSeen(h, from, to), LastSeen(h, from, to);
            && 0 <= p.calls <= last.doneCalls - base.doneCalls
            && 0.0 <= total <= last.doneMs - base.doneMs
            && (base.resets == last.resets ==> p.calls == last.doneCalls - base.doneCalls && total == last.doneMs - base.doneMs)
  {
    var samples := Samples(h, |h|);
    var lo, hi := UpTo(samples, from), UpTo(samples, to);
    SumsBounded(h, lo, hi);
    p, total := PeriodOf(samples, from, to).value, SumTotal(samples, lo, hi);
  }

  // Samples of one instant read back in the wrong order look like a reset: two samples
  // at time 1 count 14 calls where 4 were executed.
  lemma SwappedTiesOvercount()
    ensures var taken := [Sample(0, 8, 8.0), Sample(1, 10, 10.0), Sample(1, 12, 12.0)];
            var swapped := [Sample(0, 8, 8.0), Sample(1, 12, 12.0), Sample(1, 10, 10.0)];
            && InOrder(taken) && InOrder(swapped) && multiset(taken) == multiset(swapped)
            && SumCalls(taken, 1, 3) == 4 && SumCalls(swapped, 1, 3) == 14
  {
    var taken := [Sample(0, 8, 8.0), Sample(1, 10, 10.0), Sample(1, 12, 12.0)];
    var swapped := [Sample(0, 8, 8.0), Sample(1, 12, 12.0), Sample(1, 10, 10.0)];
    assert SumCalls(taken, 1, 2) == 2;
    assert SumCalls(swapped, 1, 2) == 4;
    assert multiset(taken) == multiset(swapped);
  }
}
