/** A run of genuine exchanges that ends with the reported uncertainty missing the true offset. */
module ClockReach {
  import opened Arithmetic
  import opened Clock
  import opened ClockRuns
  import opened ClockFit

  /** Sixteen instants 300 ms apart, the last one 32 s before `at`. */
  function Instant(at: nat, k: nat): (x: nat)
    requires at >= 36_500_000_000
  {
    at - 36_500_000_000 + 300_000_000 * k
  }

  /** What the clock that turns at `at` is ahead by at such an instant: a whole number. */
  function Ahead(k: nat): nat
    requires k <= 16
  {
    18_250_000 - 150_000 * k
  }

  /** An exchange answered at once, with exact stamps. */
  function Ping(at: nat, k: nat): Exchange
    requires at >= 36_500_000_000 && k < 16
  {
    Exchange(Instant(at, k), Instant(at, k) + Ahead(k), Instant(at, k) + Ahead(k), Instant(at, k))
  }

  function Point(at: nat, k: nat): Sample
    requires at >= 36_500_000_000 && k < 16
  {
    Sample(Instant(at, k) as real, Ahead(k) as real, 0.0, 0.0)
  }

  function Pings(at: nat, n: nat): (es: seq<Exchange>)
    requires at >= 36_500_000_000 && n <= 16
    ensures |es| == n
  {
    if n == 0 then [] else Pings(at, n - 1) + [Ping(at, n - 1)]
  }

  function Points(at: nat, n: nat): (s: seq<Sample>)
    requires at >= 36_500_000_000 && n <= 16
    ensures |s| == n && forall k: nat :: k < n ==> s[k] == Point(at, k)
  {
    if n == 0 then [] else Points(at, n - 1) + [Point(at, n - 1)]
  }

  lemma PingIsGenuine(at: nat, k: nat)
    requires 36_500_000_000 <= at <= I64_MAX && k < 16
    ensures var e := Ping(at, k);
            && WellTimed(e) && SampleOf(e) == Point(at, k) && Midpoint(e) == Instant(at, k) as real
            && Genuine(Turning(at), e, 0.0) && CoveredByFloor(SampleOf(e), 0.0)
            && Turning(at)(Instant(at, k) as real) == Ahead(k) as real
  {
    var e, x, theta := Ping(at, k), Instant(at, k) as real, Turning(at);
    assert Delay(e) == 0 && Offset(e) == Ahead(k) as real;
    assert AbsR(x - at as real) == (at - Instant(at, k)) as real;
    assert theta(x) == Ahead(k) as real;
    assert HappenedAt(theta, e, x, x, 0.0);
  }

  lemma {:induction false} PingsGenuine(at: nat, n: nat)
    requires 36_500_000_000 <= at <= I64_MAX && n <= 16
    ensures DriftsSlowly(Turning(at))
    ensures forall e <- Pings(at, n) :: WellTimed(e) && Genuine(Turning(at), e, 0.0) && CoveredByFloor(SampleOf(e), 0.0)
  {
    HeldBackIsGenuine(at, 0);
    if n > 0 {
      PingsGenuine(at, n - 1);
      PingIsGenuine(at, n - 1);
      hide WellTimed, SampleOf, Genuine, CoveredByFloor, DriftsSlowly;
    }
  }

  lemma {:induction false} MinDelayZero(samples: seq<Sample>)
    requires samples != [] && forall s <- samples :: s.delay == 0.0
    ensures MinDelay(samples) == 0.0
  {
    if |samples| > 1 {
      MinDelayZero(samples[1..]);
    }
  }

  /** A sample that shows the true offset is never rejected by a sound mapping. */
  lemma TrueSampleTrusted(theta: real -> real, st: EstimatorState, e: Exchange)
    requires UncertaintySound(theta, st.mapping) && WellTimed(e) && st.mapping.lastSampleNs <= e.t4
    requires e.t1 == e.t4 && Delay(e) == 0 && Offset(e) == theta(e.t4 as real)
    requires forall s <- st.samples :: s.delay == 0.0
    ensures ObserveFresh(st, e) == Trust(st, e)
  {
    var s := SampleOf(e);
    if st.samples != [] {
      MinDelayZero(st.samples);
    }
    assert Midpoint(e).Floor == e.t4;
    assert !RejectedOffset(st.samples, st.mapping, s, e.t4) by {
      if st.mapping.uncertainty.Within? {
        assert !Missed(theta, st.mapping, e.t4);
      }
    }
    hide Trust, Distrust;
  }

  lemma {:induction false} Collected(at: nat, n: nat)
    requires 36_500_000_000 <= at <= I64_MAX && n <= 16
    ensures var st := Run(Pings(at, n));
            && st.samples == Points(at, n)
            && (n > 0 ==> && st.lastObserved == Some(Instant(at, n - 1) as real)
                          && st.mapping.lastSampleNs == Instant(at, n - 1))
            && (n == 0 ==> st == FRESH)
            && (n > 0 ==> Observe(Run(Pings(at, n - 1)), Ping(at, n - 1)).accepted)
  {
    if n > 0 {
      var st, e := Run(Pings(at, n - 1)), Ping(at, n - 1);
      assert Pings(at, n)[..n - 1] == Pings(at, n - 1) && Pings(at, n)[n - 1] == e;
      Collected(at, n - 1);
      PingsGenuine(at, n - 1);
      PingIsGenuine(at, n - 1);
      UncertaintyCoversTruth(Turning(at), Pings(at, n - 1), 0.0);
      NothingEvicted(at, n - 1, e.t4 as real);
      Accepted(at, n, st, e);
    }
  }

  lemma NothingEvicted(at: nat, n: nat, local: real)
    requires at >= 36_500_000_000 && n <= 16 && local <= Instant(at, 15) as real
    ensures Evicted(Points(at, n), local) == Points(at, n)
  {
  }

  lemma TrustStamps(st: EstimatorState, e: Exchange)
    ensures var o := Trust(st, e);
            && o.accepted && o.state.mapping.lastSampleNs == e.t4 && o.state.lastObserved == st.lastObserved
            && o.state.samples == Newest(st.samples + [SampleOf(e)], 128)
  {
    hide Fit;
  }

  lemma PointsGrow(at: nat, n: nat)
    requires at >= 36_500_000_000 && 1 <= n <= 16
    ensures Newest(Points(at, n - 1) + [Point(at, n - 1)], 128) == Points(at, n)
  {
  }

  lemma ObserveIsTrust(st: EstimatorState, e: Exchange)
    requires WellTimed(e) && (st.lastObserved.Some? ==> st.lastObserved.value < Midpoint(e))
    requires var st1 := st.(lastObserved := Some(Midpoint(e)));
             Evicted(st.samples, Midpoint(e)) == st.samples && ObserveFresh(st1, e) == Trust(st1, e)
    ensures Observe(st, e) == Trust(st.(lastObserved := Some(Midpoint(e))), e)
  {
    hide ObserveFresh, Trust, WellTimed, Midpoint, Evicted;
  }

  lemma Accepted(at: nat, n: nat, st: EstimatorState, e: Exchange)
    requires 36_500_000_000 <= at <= I64_MAX && 1 <= n <= 16 && e == Ping(at, n - 1)
    requires st.samples == Points(at, n - 1) && UncertaintySound(Turning(at), st.mapping)
    requires Evicted(st.samples, e.t4 as real) == st.samples
    requires n > 1 ==>
               st.lastObserved == Some(Instant(at, n - 2) as real) && st.mapping.lastSampleNs == Instant(at, n - 2)
    requires n == 1 ==> st == FRESH
    ensures var o := Observe(st, e);
            && o.accepted && o.state.samples == Points(at, n)
            && o.state.lastObserved == Some(Instant(at, n - 1) as real) && o.state.mapping.lastSampleNs == e.t4
  {
    hide Evicted, UncertaintySound, ObserveFresh, Observe, Trust, WellTimed, SampleOf, Midpoint, Turning, Genuine,
      Points, CoveredByFloor, Newest;
    PingIsGenuine(at, n - 1);
    var st1 := st.(lastObserved := Some(e.t4 as real));
    PingTrusted(at, n - 1, st1);
    ObserveIsTrust(st, e);
    TrustStamps(st1, e);
    PointsGrow(at, n);
  }

  lemma PingTrusted(at: nat, k: nat, st: EstimatorState)
    requires 36_500_000_000 <= at <= I64_MAX && k < 16
    requires UncertaintySound(Turning(at), st.mapping) && st.mapping.lastSampleNs <= Instant(at, k)
    requires st.samples == Points(at, k)
    ensures ObserveFresh(st, Ping(at, k)) == Trust(st, Ping(at, k))
  {
    hide UncertaintySound, ObserveFresh, Trust, WellTimed, Genuine, Turning;
    PingIsGenuine(at, k);
    TrueSampleTrusted(Turning(at), st, Ping(at, k));
  }

  // ---------------------------------------------------------------- the fit of the sixteen

  /** Among equal delays the newest come first. */
  lemma {:induction false} SortedNewestFirst(at: nat, n: nat)
    requires at >= 36_500_000_000 && n <= 16
    ensures |Sorted(Points(at, n))| == n
    ensures forall k: nat :: k < n ==> Sorted(Points(at, n))[k] == Point(at, n - 1 - k)
  {
    if n > 0 {
      SortedNewestFirst(at, n - 1);
      assert Points(at, n)[..n - 1] == Points(at, n - 1);
      var before := Sorted(Points(at, n - 1));
      assert n > 1 ==> before[0] == Point(at, n - 2) && !Before(before[0], Point(at, n - 1));
      assert Inserted(before, Point(at, n - 1)) == [Point(at, n - 1)] + before;
      hide Point, Before;
    }
  }

  /** The newest eight are selected; they span 2.1 s and lie on a line falling at 500 ppm. */
  lemma SelectedEight(at: nat)
    requires at >= 36_500_000_000
    ensures var selected := Selected(Points(at, 16));
            && |selected| == 8
            && Latest(selected) - Earliest(selected) >= 2_000_000_000.0
            && OnLine(selected, Instant(at, 15) as real, Ahead(15) as real, -PPM500)
  {
    SortedNewestFirst(at, 16);
    var selected, local := Selected(Points(at, 16)), Instant(at, 15) as real;
    assert |selected| == 8;
    assert selected[0] == Point(at, 15) && selected[7] == Point(at, 8);
    assert selected[0] in selected && selected[7] in selected;
    forall i | 0 <= i < |selected|
      ensures selected[i].offset == Line(Ahead(15) as real, -PPM500, selected[i].local - local)
    {
      assert selected[i] == Point(at, 15 - i);
      OnePointOnLine(at, 15 - i);
    }
    hide Sorted, Selected;
  }

  lemma OnePointOnLine(at: nat, k: nat)
    requires at >= 36_500_000_000 && k < 16
    ensures Ahead(k) as real == Line(Ahead(15) as real, -PPM500, Instant(at, k) as real - Instant(at, 15) as real)
  {
    assert Instant(at, k) as real - Instant(at, 15) as real == (300_000_000 * (k - 15)) as real;
    assert -0.0005 * (300_000_000 * (k - 15)) as real == (150_000 * (15 - k)) as real;
  }

  /** After the sixteen the drift estimate is at its clamp. */
  lemma DriftAtClamp(at: nat)
    requires 36_500_000_000 <= at <= I64_MAX
    ensures Run(Pings(at, 16)).mapping.drift == -PPM500
  {
    var st, e := Run(Pings(at, 15)), Ping(at, 15);
    assert Pings(at, 16)[..15] == Pings(at, 15) && Pings(at, 16)[15] == e;
    Collected(at, 16);
    PingIsGenuine(at, 15);
    AcceptedIsFit(st, e);
    SelectedEight(at);
    FitRecoversLine(Selected(Points(at, 16)), Instant(at, 15) as real, st.mapping.drift, Ahead(15) as real, -PPM500);
    hide Observe, Selected, FittedDrift, FittedOffset, Residual, TightestBound, EvidenceLower, EvidenceUpper, Points;
  }

  lemma {:induction false} AllEvicted(samples: seq<Sample>, local: real)
    requires forall s <- samples :: local - s.local > HISTORY_NS
    ensures Evicted(samples, local) == []
    decreases |samples|
  {
    if samples != [] {
      AllEvicted(samples[1..], local);
    }
  }

  /** The estimator reaches the miss: sixteen genuine exchanges with exact stamps, a gap of 32 s,
      and one more lasting over 400 ms, all against one clock that drifts at most 500 ppm. */
  lemma UncertaintyMissReached(at: nat, duration: nat)
    requires 36_500_000_000 <= at && at + duration <= I64_MAX && 400_000_000 < duration <= 500_000_000
    ensures var es, theta := Pings(at, 16) + [HeldBack(at, duration)], Turning(at);
            && DriftsSlowly(theta)
            && (forall e <- es :: WellTimed(e) && Genuine(theta, e, 0.0))
            && Missed(theta, Run(es).mapping, at + duration)
            && !UncertaintySound(theta, Run(es).mapping)
  {
    hide Run, Observe, Evicted, ValidEstimator, Points, WellTimed, Genuine, DriftsSlowly, UncertaintySound, Midpoint,
      Missed, HeldBack, Turning, CoveredByFloor, Pings;
    var pings, e := Pings(at, 16), HeldBack(at, duration);
    PingsGenuine(at, 16);
    ReadyForTheMiss(at, duration);
    RunExtended(pings, e);
    LongExchangeEscapesBound(Run(pings), at, duration);
    LastsUntil(at, duration);
  }

  lemma LastsUntil(at: nat, duration: nat)
    ensures HeldBack(at, duration).t4 == at + duration
  {
  }

  lemma RunExtended(es: seq<Exchange>, e: Exchange)
    ensures Run(es + [e]) == Observe(Run(es), e).state
  {
    assert (es + [e])[..|es|] == es;
    hide Observe;
  }

  lemma ReadyForTheMiss(at: nat, duration: nat)
    requires 36_500_000_000 <= at && at + duration <= I64_MAX && 0 < duration <= 500_000_000
    ensures var st := Run(Pings(at, 16));
            && ValidEstimator(st) && st.mapping.drift == -PPM500
            && st.lastObserved.Some? && st.lastObserved.value < at as real
            && Evicted(st.samples, Midpoint(HeldBack(at, duration))) == []
  {
    hide Run, Evicted, ValidEstimator, Pings;
    var st, local := Run(Pings(at, 16)), Midpoint(HeldBack(at, duration));
    Collected(at, 16);
    DriftAtClamp(at);
    RunsStayValid(Pings(at, 16));
    assert local > at as real;
    forall s | s in st.samples ensures local - s.local > HISTORY_NS {
      var k: nat :| k < 16 && Points(at, 16)[k] == s;
      assert Instant(at, k) <= Instant(at, 15);
    }
    AllEvicted(st.samples, local);
  }
}
