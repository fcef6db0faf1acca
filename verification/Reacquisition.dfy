/** When the estimator refuses, acquires and reacquires, in numbers. */
module Reacquisition {
  import opened Arithmetic
  import opened Clock
  import opened ClockRuns

  // ---------------------------------------------------------------- one observation

  /** The sample an exchange stands for: midpoint, offset, path delay and duration. */
  function Point(e: Exchange): Sample {
    Sample((e.t1 + e.t4) as real / 2.0,
           (e.t2 - e.t1 + e.t3 - e.t4) as real / 2.0,
           (e.t4 - e.t1 - (e.t3 - e.t2)) as real,
           (e.t4 - e.t1) as real)
  }

  function Points(es: seq<Exchange>): (r: seq<Sample>)
    ensures |r| == |es| && forall i :: 0 <= i < |es| ==> r[i] == Point(es[i])
  {
    if es == [] then [] else Points(es[..|es| - 1]) + [Point(es[|es| - 1])]
  }

  /** Ordered and in range, at most half a second long with a path delay of at most half a second,
      and later than the latest observation. */
  predicate Usable(st: EstimatorState, e: Exchange) {
    && e.t1 <= e.t4 <= 0x7fff_ffff_ffff_ffff && e.t2 <= e.t3 <= 0x7fff_ffff_ffff_ffff
    && e.t4 - e.t1 <= 500_000_000 && 0 <= e.t4 - e.t1 - (e.t3 - e.t2) <= 500_000_000
    && (st.lastObserved.Some? ==> Point(e).local > st.lastObserved.value)
  }

  /** The samples of the last 32 seconds. */
  function Recent(samples: seq<Sample>, local: real): seq<Sample> {
    if samples == [] then []
    else (if local - samples[0].local <= 32_000_000_000.0 then [samples[0]] else []) + Recent(samples[1..], local)
  }

  /** More than 20 ms slower than the fastest of eight or more recent samples, or further from a converged
      mapping than its uncertainty at receipt, half the path delay and 5 ms. */
  predicate Suspect(st: EstimatorState, e: Exchange) {
    var p, kept, m := Point(e), Recent(st.samples, Point(e).local), st.mapping;
    || (|kept| >= 8 && exists x <- kept :: p.delay > x.delay + 20_000_000.0)
    || (&& kept != [] && m.converged && m.uncertainty.Within?
        && AbsR(p.offset - (m.offsetNs + ((e.t1 + e.t4) / 2 - m.referenceNs) as real * m.drift))
           > m.uncertainty.ns + Monus(e.t4, m.lastSampleNs) as real / 1000.0 + p.delay / 2.0 + 5_000_000.0)
  }

  /** Offset, carried along the drift, within a quarter of the first sample's delay or 2 ms of the
      first one's; delay within a quarter or 5 ms; at most five seconds later. */
  predicate Alike(first: Sample, p: Sample, drift: real) {
    var phase := p.offset - first.offset - (p.local - first.local) * drift;
    && (AbsR(phase) <= first.delay / 4.0 || AbsR(phase) <= 2_000_000.0)
    && (AbsR(p.delay - first.delay) <= first.delay / 4.0 || AbsR(p.delay - first.delay) <= 5_000_000.0)
    && p.local - first.local <= 5_000_000_000.0
  }

  lemma PointIsSample(e: Exchange)
    requires e.t1 <= e.t4
    ensures SampleOf(e) == Point(e) && Midpoint(e) == Point(e).local
    ensures MaxI(Midpoint(e).Floor, 0) == (e.t1 + e.t4) / 2
  {
    HalfStep(e.t1, e.t4 - e.t1, (e.t4 - e.t1) / 2, (e.t4 - e.t1) % 2);
    assert (e.t1 + e.t4) as real == 2.0 * e.t1 as real + (e.t4 - e.t1) as real;
    assert e.t1 + (e.t4 - e.t1) / 2 == (e.t1 + e.t4) / 2;
  }

  lemma {:induction false} EvictedIsRecent(samples: seq<Sample>, local: real)
    requires Increasing(samples)
    ensures Evicted(samples, local) == Recent(samples, local)
  {
    hide Increasing;
    if samples != [] {
      SuffixIncreasing(samples, 1);
      if local - samples[0].local <= 32_000_000_000.0 {
        LaterRecent(samples, local);
        AllRecent(samples, local);
      } else {
        EvictedIsRecent(samples[1..], local);
      }
    }
  }

  lemma LaterRecent(samples: seq<Sample>, local: real)
    requires Increasing(samples) && samples != [] && local - samples[0].local <= 32_000_000_000.0
    ensures forall x <- samples :: local - x.local <= 32_000_000_000.0
  {
    forall x <- samples ensures local - x.local <= 32_000_000_000.0 {
      var i :| 0 <= i < |samples| && samples[i] == x;
      assert i > 0 ==> samples[0].local < samples[i].local;
    }
  }

  lemma {:induction false} AllRecent(samples: seq<Sample>, local: real)
    requires forall x <- samples :: local - x.local <= 32_000_000_000.0
    ensures Recent(samples, local) == samples
  {
    if samples != [] {
      assert samples == [samples[0]] + samples[1..];
      AllRecent(samples[1..], local);
    }
  }

  lemma {:induction false} AboveFastest(samples: seq<Sample>, d: real)
    requires samples != []
    ensures d > MinDelay(samples) + 20_000_000.0 <==> exists x <- samples :: d > x.delay + 20_000_000.0
  {
    if |samples| > 1 {
      assert samples == [samples[0]] + samples[1..];
      AboveFastest(samples[1..], d);
    }
  }

  lemma UsableIff(st: EstimatorState, e: Exchange)
    ensures Usable(st, e) <==> WellTimed(e) && (st.lastObserved.Some? ==> Midpoint(e) > st.lastObserved.value)
  {
    if e.t1 <= e.t4 {
      PointIsSample(e);
      hide Midpoint;
    }
  }

  lemma DelayGate(kept: seq<Sample>, s: Sample)
    ensures RejectedDelay(kept, s) <==> |kept| >= 8 && exists x <- kept :: s.delay > x.delay + 20_000_000.0
  {
    if kept != [] {
      AboveFastest(kept, s.delay);
    }
  }

  lemma KeptIsRecent(st: EstimatorState, local: real)
    requires ValidEstimator(st)
    ensures Evicted(st.samples, local) == Recent(st.samples, local)
  {
    hide Recent, Evicted, Increasing, WithinHistory, ValidMapping;
    EvictedIsRecent(st.samples, local);
  }

  lemma SuspectIff(st: EstimatorState, e: Exchange)
    requires e.t1 <= e.t4
    ensures var kept := Recent(st.samples, Point(e).local);
            Suspect(st, e) <==> || RejectedDelay(kept, SampleOf(e))
                                || RejectedOffset(kept, st.mapping, SampleOf(e), e.t4)
  {
    hide Midpoint, SampleOf, Point, Recent, RejectedDelay;
    PointIsSample(e);
    var kept, s := Recent(st.samples, Point(e).local), SampleOf(e);
    DelayGate(kept, s);
    OffsetGate(st.mapping, s, e);
    assert s == Point(e);
  }

  lemma OffsetGate(m: ClockMapping, s: Sample, e: Exchange)
    requires s.local == Midpoint(e) && MaxI(Midpoint(e).Floor, 0) == (e.t1 + e.t4) / 2
    ensures m.UncertaintyAt(e.t4).Grow(s.delay / 2.0 + 5_000_000.0).Exceeded(
              AbsR(s.offset - m.OffsetAt(MaxI(s.local.Floor, 0))))
       <==> && m.uncertainty.Within?
            && AbsR(s.offset - (m.offsetNs + ((e.t1 + e.t4) / 2 - m.referenceNs) as real * m.drift))
               > m.uncertainty.ns + Monus(e.t4, m.lastSampleNs) as real / 1000.0 + s.delay / 2.0 + 5_000_000.0
  {
    hide Midpoint;
    var mid := (e.t1 + e.t4) / 2;
    assert mid as real - m.referenceNs as real == (mid - m.referenceNs) as real;
  }

  lemma AlikeIff(first: Sample, p: Sample, drift: real)
    ensures Alike(first, p, drift) <==> SameRegime(first, p, drift)
  {
    var phase := p.offset - first.offset - (p.local - first.local) * drift;
    hide AbsR;
  }

  /** The most recent so many samples. */
  function LatestOf(samples: seq<Sample>, most: nat): seq<Sample> {
    if |samples| <= most then samples else samples[|samples| - most..]
  }

  /** What an observation does, in every case: nothing, join the history, join or restart the
      quarantine, or replace the history with a quarantine of eight or more spanning half a second. */
  lemma ObserveExactly(st: EstimatorState, e: Exchange)
    requires ValidEstimator(st)
    ensures var p, o := Point(e), Observe(st, e);
            var kept := Recent(st.samples, p.local);
            var held := if st.recovery != [] && Alike(st.recovery[0], p, st.mapping.drift) then st.recovery else [];
            var q := LatestOf(held + [p], 16);
            if !Usable(st, e) then o == Outcome(st, false)
            else
              && o.state.lastObserved == Some(p.local)
              && if !Suspect(st, e) then
                   && o.accepted && o.state.samples == LatestOf(kept + [p], 128) && o.state.recovery == []
                   && o.state.mapping.acceptedObservations
                      == (if kept == [] then 1 else MinI(st.mapping.acceptedObservations + 1, U64_MAX))
                 else if |q| >= 8 && p.local - q[0].local >= 500_000_000.0 then
                   && o.accepted && o.state.samples == q && o.state.recovery == []
                   && o.state.mapping.acceptedObservations == |q|
                 else
                   && !o.accepted && o.state.samples == kept && o.state.recovery == q
                   && o.state.mapping == st.mapping
  {
    UsableIff(st, e);
    hide Usable, Suspect, Alike, SameRegime, RejectedDelay, RejectedOffset, Fit, ValidEstimator, WellTimed, Recent,
      Evicted, Point, SampleOf, Midpoint;
    if Usable(st, e) {
      EarlierFirst(e);
      PointIsSample(e);
      KeptIsRecent(st, Midpoint(e));
      SuspectIff(st, e);
      if st.recovery != [] {
        AlikeIff(st.recovery[0], Point(e), st.mapping.drift);
      }
    }
  }

  lemma EarlierFirst(e: Exchange)
    requires WellTimed(e)
    ensures e.t1 <= e.t4
  {
  }

  // ---------------------------------------------------------------- a changed path or clock

  /** Refused so far: the exchanges arrive one after the other at an estimator that is not yet
      recovering, and each is usable and suspect when it comes. */
  ghost predicate SuspectRun(st: EstimatorState, xs: seq<Exchange>) {
    xs == []
    || (var front, last := xs[..|xs| - 1], xs[|xs| - 1];
        SuspectRun(st, front) && Usable(Observed(st, front), last) && Suspect(Observed(st, front), last))
  }

  /** The estimator after some more exchanges. */
  function Observed(st: EstimatorState, xs: seq<Exchange>): EstimatorState {
    if xs == [] then st else Observe(Observed(st, xs[..|xs| - 1]), xs[|xs| - 1]).state
  }

  lemma {:induction false} ObservedValid(st: EstimatorState, xs: seq<Exchange>)
    requires ValidEstimator(st)
    ensures ValidEstimator(Observed(st, xs))
  {
    if xs != [] {
      ObservedValid(st, xs[..|xs| - 1]);
      ObserveKeepsValid(Observed(st, xs[..|xs| - 1]), xs[|xs| - 1]);
    }
  }

  /** Eight or more, spanning half a second or more. */
  predicate Enough(xs: seq<Exchange>) {
    |xs| >= 8 && Point(xs[|xs| - 1]).local - Point(xs[0]).local >= 500_000_000.0
  }

  ghost predicate AllAlike(xs: seq<Exchange>, drift: real) {
    forall x <- xs :: Alike(Point(xs[0]), Point(x), drift)
  }

  /** One more refused observation that resembles those kept aside. */
  lemma SuspectStep(st: EstimatorState, e: Exchange)
    requires ValidEstimator(st) && Usable(st, e) && Suspect(st, e) && |st.recovery| <= 15
    requires st.recovery != [] ==> Alike(st.recovery[0], Point(e), st.mapping.drift)
    ensures var o, q := Observe(st, e), st.recovery + [Point(e)];
            && (o.accepted <==> |q| >= 8 && Point(e).local - q[0].local >= 500_000_000.0)
            && (o.accepted ==> o.state.samples == q && o.state.recovery == []
                               && o.state.mapping.acceptedObservations == |q|)
            && (!o.accepted ==> o.state.recovery == q && o.state.mapping == st.mapping)
  {
    hide Observe, Point, Usable, Suspect, Alike, Recent, ValidEstimator;
    ObserveExactly(st, e);
  }

  /** Observations that are refused one after another but resemble the first, in offset, delay and
      time, are kept aside with the mapping untouched until there are eight spanning half a second;
      exactly then the last one is accepted, and they alone become the history. */
  lemma {:induction false} Reacquires(st: EstimatorState, xs: seq<Exchange>)
    requires ValidEstimator(st) && st.recovery == [] && 1 <= |xs| <= 16
    requires SuspectRun(st, xs) && AllAlike(xs, st.mapping.drift)
    requires forall k :: 1 <= k < |xs| ==> !Enough(xs[..k])
    ensures var o := Observe(Observed(st, xs[..|xs| - 1]), xs[|xs| - 1]);
            && (o.accepted <==> Enough(xs))
            && (o.accepted ==> o.state.samples == Points(xs) && o.state.recovery == []
                               && o.state.mapping.acceptedObservations == |xs|)
            && (!o.accepted ==> o.state.recovery == Points(xs) && o.state.mapping == st.mapping)
  {
    hide Observe, Point, Usable, Suspect, Alike, Recent, ValidEstimator;
    var front, last := xs[..|xs| - 1], xs[|xs| - 1];
    ObservedValid(st, front);
    assert xs[0] in xs && last in xs;
    if front != [] {
      FrontRefused(st, xs);
      Reacquires(st, front);
      assert !Enough(xs[..|front|]);
    }
    SuspectStep(Observed(st, front), last);
  }

  lemma FrontRefused(st: EstimatorState, xs: seq<Exchange>)
    requires |xs| > 1 && SuspectRun(st, xs) && AllAlike(xs, st.mapping.drift)
    requires forall k :: 1 <= k < |xs| ==> !Enough(xs[..k])
    ensures var front := xs[..|xs| - 1];
            && SuspectRun(st, front) && AllAlike(front, st.mapping.drift)
            && forall k :: 1 <= k < |front| ==> !Enough(front[..k])
  {
    hide Observe, Point, Usable, Suspect, Alike, Enough;
    var front := xs[..|xs| - 1];
    forall k | 1 <= k < |front| ensures !Enough(front[..k]) {
      assert front[..k] == xs[..k];
    }
    forall x <- front ensures Alike(Point(front[0]), Point(x), st.mapping.drift) {
      assert x in xs && front[0] == xs[0];
    }
  }

  lemma {:induction false} RunContinued(before: seq<Exchange>, xs: seq<Exchange>)
    ensures Run(before + xs) == Observed(Run(before), xs)
    decreases |xs|
  {
    hide Observe;
    if xs == [] {
      assert before + xs == before;
    } else {
      var front := xs[..|xs| - 1];
      RunContinued(before, front);
      assert (before + xs)[..|before + xs| - 1] == before + front;
    }
  }

  /** Over runs: from any history whose last exchange was not refused, a changed path or clock is
      taken over with the eighth exchange, or the first one after it to span half a second. */
  lemma RunReacquires(before: seq<Exchange>, xs: seq<Exchange>)
    requires Run(before).recovery == [] && 8 <= |xs| <= 16
    requires SuspectRun(Run(before), xs) && AllAlike(xs, Run(before).mapping.drift)
    requires Enough(xs) && forall k :: 1 <= k < |xs| ==> !Enough(xs[..k])
    ensures Run(before + xs).samples == Points(xs) && Run(before + xs).recovery == []
    ensures Run(before + xs).mapping.lastSampleNs == xs[|xs| - 1].t4
  {
    hide Observe, Point, Usable, Suspect, Alike, Recent, ValidEstimator, Enough;
    RunsStayValid(before);
    RunContinued(before, xs);
    Reacquires(Run(before), xs);
    ObservedValid(Run(before), xs[..|xs| - 1]);
    ObserveKeepsValid(Observed(Run(before), xs[..|xs| - 1]), xs[|xs| - 1]);
  }

  // ---------------------------------------------------------------- first acquisition and spikes

  /** An exchange slower by more than 20 ms than the fastest of eight or more recent samples never
      moves the mapping by itself. */
  lemma SpikeRefused(st: EstimatorState, e: Exchange, x: Sample)
    requires ValidEstimator(st) && Usable(st, e) && |st.recovery| < 7
    requires |Recent(st.samples, Point(e).local)| >= 8 && x in Recent(st.samples, Point(e).local)
    requires Point(e).delay > x.delay + 20_000_000.0
    ensures !Observe(st, e).accepted && Observe(st, e).state.mapping == st.mapping
  {
    hide Observe, Point, Usable, Alike, Recent, ValidEstimator;
    ObserveExactly(st, e);
  }

  /** Exchanges that come one after the other within 32 s, their path delays within 20 ms. */
  ghost predicate Steady(es: seq<Exchange>) {
    && (forall i :: 0 <= i < |es| ==> Usable(Run(es[..i]), es[i]))
    && (forall x, y :: x in es && y in es ==> Point(x).delay <= Point(y).delay + 20_000_000.0)
    && (forall x, y :: x in es && y in es ==> Point(x).local <= Point(y).local + 32_000_000_000.0)
  }

  /** Twelve or more, spanning half a second or more. */
  predicate Locks(es: seq<Exchange>) {
    |es| >= 12 && Point(es[|es| - 1]).local - Point(es[0]).local >= 500_000_000.0
  }

  lemma {:induction false} ConvergedIff(st: EstimatorState, e: Exchange)
    requires Observe(st, e).accepted
    ensures var o := Observe(st, e).state;
            o.samples != []
            && (o.mapping.converged
                <==> |o.samples| >= 12 && o.samples[|o.samples| - 1].local - o.samples[0].local >= 500_000_000.0)
  {
    hide FittedDrift, FittedOffset, Residual, TightestBound, Quarantined, RejectedDelay, RejectedOffset, Evicted;
  }

  /** A steady start: every exchange is accepted, and the estimate converges exactly with the
      twelfth, or the first one after it to span half a second. */
  lemma {:induction false} Acquires(es: seq<Exchange>)
    requires 1 <= |es| <= 128 && Steady(es) && forall k :: 1 <= k < |es| ==> !Locks(es[..k])
    ensures var st := Run(es);
            && st.samples == Points(es) && st.recovery == [] && st.lastObserved == Some(Point(es[|es| - 1]).local)
            && st.mapping.lastSampleNs == es[|es| - 1].t4 && st.mapping.acceptedObservations == |es|
            && (st.mapping.converged <==> Locks(es))
  {
    hide Observe, Point, Usable, Suspect, Alike, ValidEstimator, Recent, Steady;
    var front, last := es[..|es| - 1], es[|es| - 1];
    var st := Run(front);
    RunsStayValid(front);
    FrontSteady(es);
    if front != [] {
      Acquires(front);
      assert !Locks(es[..|front|]);
    }
    SteadyStep(st, es);
  }

  /** One more exchange of a steady start. */
  lemma SteadyStep(st: EstimatorState, es: seq<Exchange>)
    requires es != [] && |es| <= 128 && Steady(es) && st == Run(es[..|es| - 1]) && ValidEstimator(st)
    requires st.samples == Points(es[..|es| - 1]) && !st.mapping.converged
    requires |es| > 1 ==> st.mapping.acceptedObservations == |es| - 1
    ensures var o := Observe(st, es[|es| - 1]).state;
            && o.samples == Points(es) && o.recovery == [] && o.lastObserved == Some(Point(es[|es| - 1]).local)
            && o.mapping.lastSampleNs == es[|es| - 1].t4 && o.mapping.acceptedObservations == |es|
            && (o.mapping.converged <==> Locks(es))
  {
    hide Observe, Point, Usable, Suspect, Alike, ValidEstimator, Recent, Steady, Run;
    var front, last := es[..|es| - 1], es[|es| - 1];
    SteadyLast(es);
    NotSuspect(st, front, last);
    PointsNear(front, last);
    TrustedStep(st, last);
    assert Points(es) == st.samples + [Point(last)];
    assert Points(es)[0] == Point(es[0]) && Points(es)[|es| - 1] == Point(last);
  }

  lemma PointsNear(front: seq<Exchange>, last: Exchange)
    requires forall x <- front :: Point(last).local <= Point(x).local + 32_000_000_000.0
    ensures forall x <- Points(front) :: Point(last).local - x.local <= 32_000_000_000.0
  {
    hide Point;
    forall x <- Points(front) ensures Point(last).local - x.local <= 32_000_000_000.0 {
      var i :| 0 <= i < |Points(front)| && Points(front)[i] == x;
      assert front[i] in front;
    }
  }

  /** A usable exchange that nothing speaks against, with all of the history still recent. */
  lemma TrustedStep(st: EstimatorState, e: Exchange)
    requires ValidEstimator(st) && Usable(st, e) && !Suspect(st, e) && |st.samples| < 128
    requires forall x <- st.samples :: Point(e).local - x.local <= 32_000_000_000.0
    ensures var o, all := Observe(st, e).state, st.samples + [Point(e)];
            && o.samples == all && o.recovery == [] && o.lastObserved == Some(Point(e).local)
            && o.mapping.lastSampleNs == e.t4
            && (st.mapping.acceptedObservations == |st.samples| || st.samples == [] ==>
                  o.mapping.acceptedObservations == |all|)
            && (o.mapping.converged
                <==> |all| >= 12 && all[|all| - 1].local - all[0].local >= 500_000_000.0)
  {
    hide Observe, Point, Usable, Suspect, Alike, ValidEstimator, Recent;
    AllRecent(st.samples, Point(e).local);
    ObserveExactly(st, e);
    ConvergedIff(st, e);
    ObserveKeepsValid(st, e);
  }

  lemma SteadyLast(es: seq<Exchange>)
    requires es != [] && Steady(es)
    ensures var front, last := es[..|es| - 1], es[|es| - 1];
            && Usable(Run(front), last)
            && forall x <- front ::
                 && Point(last).delay <= Point(x).delay + 20_000_000.0
                 && Point(last).local <= Point(x).local + 32_000_000_000.0
  {
    hide Point, Usable, Run;
    assert es[|es| - 1] in es && forall x <- es[..|es| - 1] :: x in es;
  }

  lemma FrontSteady(es: seq<Exchange>)
    requires |es| >= 1 && Steady(es) && forall k :: 1 <= k < |es| ==> !Locks(es[..k])
    ensures var front := es[..|es| - 1];
            Steady(front) && forall k :: 1 <= k < |front| ==> !Locks(front[..k])
  {
    hide Observe, Point, Usable, Locks;
    var front := es[..|es| - 1];
    forall k | 1 <= k < |front| ensures !Locks(front[..k]) {
      assert front[..k] == es[..k];
    }
    forall i | 0 <= i < |front| ensures Usable(Run(front[..i]), front[i]) {
      assert front[..i] == es[..i];
    }
    assert forall x :: x in front ==> x in es;
  }

  lemma NotSuspect(st: EstimatorState, front: seq<Exchange>, last: Exchange)
    requires st.samples == Points(front) && !st.mapping.converged
    requires forall x <- front :: Point(last).delay <= Point(x).delay + 20_000_000.0
    ensures !Suspect(st, last)
  {
    hide Point, AbsR;
    var kept := Recent(st.samples, Point(last).local);
    forall x <- kept ensures Point(last).delay <= x.delay + 20_000_000.0 {
      RecentSubset(st.samples, Point(last).local, x);
      var i :| 0 <= i < |st.samples| && st.samples[i] == x;
      assert front[i] in front;
    }
  }

  lemma {:induction false} RecentSubset(samples: seq<Sample>, local: real, x: Sample)
    requires x in Recent(samples, local)
    ensures x in samples
  {
    if local - samples[0].local > 32_000_000_000.0 || x != samples[0] {
      RecentSubset(samples[1..], local, x);
    }
  }
}
