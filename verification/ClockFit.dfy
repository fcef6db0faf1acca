/** Soundness of the reported clock uncertainty, its exact limit, and exactness of the fit. */
module ClockFit {
  import opened Arithmetic
  import opened Clock
  import opened ClockRuns

  // ---------------------------------------------------------------- reported uncertainty

  /** What the 100 microsecond floor has to cover: half of the exchange's own possible clock
      motion, the stamp error, and the half nanosecond the reference time is rounded by. */
  predicate CoveredByFloor(s: Sample, slack: real) {
    slack + Drifted(s.duration / 2.0 + 0.5) <= FLOOR_NS
  }

  ghost predicate Trusted(theta: real -> real, samples: seq<Sample>, slack: real) {
    forall s <- samples :: Truthful(theta, s, slack) && CoveredByFloor(s, slack)
  }

  /** From the last accepted receipt on, the fitted offset is within the reported bound. */
  ghost predicate UncertaintySound(theta: real -> real, m: ClockMapping) {
    m.uncertainty.Within? ==>
      forall t: nat :: t >= m.lastSampleNs ==>
        !Missed(theta, m, t)
  }

  /** At one time the fitted offset is further from the true one than reported. */
  ghost predicate Missed(theta: real -> real, m: ClockMapping, t: nat) {
    m.UncertaintyAt(t).Exceeded(AbsR(m.OffsetAt(t) - theta(t as real)))
  }

  lemma FitSound(theta: real -> real, samples: seq<Sample>, e: Exchange, previous: real, accepted: nat, slack: real)
    requires DriftsSlowly(theta) && samples != [] && Trusted(theta, samples, slack)
    requires WellTimed(e) && -PPM500 <= previous <= PPM500
    requires forall s <- samples :: s.local <= Midpoint(e)
    ensures UncertaintySound(theta, Fit(samples, Midpoint(e), e.t4, previous, accepted))
  {
    var local, selected := Midpoint(e), Selected(samples);
    var tight := TightestSample(samples, e.t4);
    MidpointRange(e);
    SelectedLowest(samples);
    DriftClamped(selected, local, previous);
    hide Selected, FittedDrift, FittedOffset, TightestBound, EvidenceLower, EvidenceUpper;
    var m := Fit(samples, local, e.t4, previous, accepted);
    var residual := Residual(selected, local, m.offsetNs, m.drift);
    assert Deviation(tight, local, m.offsetNs, m.drift) <= residual;
    hide Fit, Residual, Deviation, Midpoint;
    SampleBounds(theta, tight, local, m, residual, slack);
  }

  lemma TightestSample(samples: seq<Sample>, t4: nat) returns (s: Sample)
    requires samples != []
    ensures s in samples && s in Selected(samples) && Selected(samples) != []
    ensures TightestBound(Selected(samples), t4) == AgedBound(s, t4)
  {
    SelectedLowest(samples);
    s := TightestAttained(Selected(samples), t4);
    SelectedSubset(samples, s);
  }

  lemma {:induction false} TightestAttained(selected: seq<Sample>, t4: nat) returns (s: Sample)
    requires selected != []
    ensures s in selected && TightestBound(selected, t4) == AgedBound(s, t4)
  {
    s := selected[0];
    if |selected| > 1 {
      var rest := TightestAttained(selected[1..], t4);
      if AgedBound(rest, t4) <= AgedBound(s, t4) {
        s := rest;
      }
    }
  }

  /** One truthful sample the line passes near enough makes the whole mapping sound. */
  lemma SampleBounds(theta: real -> real, s: Sample, local: real, m: ClockMapping, residual: real, slack: real)
    requires DriftsSlowly(theta) && Truthful(theta, s, slack) && CoveredByFloor(s, slack)
    requires s.local <= local <= m.lastSampleNs as real
    requires 0.0 <= local - m.referenceNs as real <= 0.5 && -PPM500 <= m.drift <= PPM500
    requires Deviation(s, local, m.offsetNs, m.drift) <= residual
    requires m.uncertainty == Within(AgedBound(s, m.lastSampleNs) + residual + FLOOR_NS)
    ensures UncertaintySound(theta, m)
  {
    forall t: nat | t >= m.lastSampleNs
      ensures !Missed(theta, m, t)
    {
      assert AbsR(theta(t as real) - theta(s.local)) <= Drifted(AbsR(t as real - s.local));
      ErrorAt(s, local, m, residual, t, theta(s.local), theta(t as real), slack);
    }
  }

  lemma ErrorAt(s: Sample, local: real, m: ClockMapping, residual: real, t: nat, trueThen: real, trueNow: real,
                slack: real)
    requires s.local <= local <= m.lastSampleNs as real && CoveredByFloor(s, slack)
    requires 0.0 <= local - m.referenceNs as real <= 0.5 && -PPM500 <= m.drift <= PPM500
    requires Deviation(s, local, m.offsetNs, m.drift) <= residual
    requires m.lastSampleNs <= t && m.uncertainty == Within(AgedBound(s, m.lastSampleNs) + residual + FLOOR_NS)
    requires AbsR(trueThen - s.offset) <= s.delay / 2.0 + Drifted(s.duration / 2.0) + slack
    requires AbsR(trueNow - trueThen) <= Drifted(AbsR(t as real - s.local))
    ensures !m.UncertaintyAt(t).Exceeded(AbsR(m.OffsetAt(t) - trueNow))
  {
    hide Line, Deviation;
    BoundAt(s, local, m.referenceNs as real, m.lastSampleNs as real, m.offsetNs, m.drift, residual,
            trueThen, trueNow, t as real, slack);
    UncertaintyGrows(m, t);
    OffsetOnLine(m, t);
  }

  lemma OffsetOnLine(m: ClockMapping, t: nat)
    ensures m.OffsetAt(t) == Line(m.offsetNs, m.drift, t as real - m.referenceNs as real)
  {
  }

  lemma UncertaintyGrows(m: ClockMapping, t: nat)
    requires m.lastSampleNs <= t && m.uncertainty.Within?
    ensures m.UncertaintyAt(t) == Within(m.uncertainty.ns + Holdover(t as real - m.lastSampleNs as real))
  {
  }

  lemma BoundAt(s: Sample, local: real, reference: real, t4: real, offset: real, drift: real, residual: real,
                trueThen: real, trueNow: real, t: real, slack: real)
    requires s.local <= local <= t4 <= t && 0.0 <= local - reference <= 0.5
    requires -PPM500 <= drift <= PPM500 && CoveredByFloor(s, slack)
    requires Deviation(s, local, offset, drift) <= residual
    requires AbsR(trueThen - s.offset) <= s.delay / 2.0 + Drifted(s.duration / 2.0) + slack
    requires AbsR(trueNow - trueThen) <= Drifted(AbsR(t - s.local))
    ensures AbsR(Line(offset, drift, t - reference) - trueNow)
            <= s.delay / 2.0 + Holdover(MaxR(t4 - s.local, 0.0)) + residual + FLOOR_NS + Holdover(t - t4)
  {
    hide Line;
    Extrapolated(s.local, local, reference, offset, drift, t);
    FourTerms(Line(offset, drift, t - reference), Line(offset, drift, s.local - local), s,
              trueThen, trueNow, t4, t, residual, slack);
  }

  /** Moving along the fitted line for a while changes it by at most 500 ppm of the while. */
  lemma Extrapolated(since: real, local: real, reference: real, offset: real, drift: real, t: real)
    requires since <= local <= t && 0.0 <= local - reference <= 0.5 && -0.0005 <= drift <= 0.0005
    ensures AbsR(Line(offset, drift, t - reference) - Line(offset, drift, since - local)) <= Drifted(t - since + 0.5)
  {
    var run := t - reference - (since - local);
    LineRises(offset, drift, t - reference, since - local);
    DriftOver(run, drift);
    hide Line;
  }

  lemma LineRises(offset: real, drift: real, x: real, y: real)
    ensures Line(offset, drift, x) - Line(offset, drift, y) == Times(x - y, drift)
  {
  }

  lemma DriftOver(run: real, drift: real)
    requires -0.0005 <= drift <= 0.0005
    ensures AbsR(Times(run, drift)) <= Drifted(AbsR(run))
  {
    ScaleBound(run, drift, 0.0005);
  }

  /** The four contributions to the error: extrapolated drift, fit residual, the sample's
      own error, and the true clock's motion since. */
  lemma FourTerms(fitted: real, line: real, s: Sample, trueThen: real, trueNow: real, t4: real, t: real,
                  residual: real, slack: real)
    requires s.local <= t4 <= t && CoveredByFloor(s, slack)
    requires AbsR(fitted - line) <= Drifted(t - s.local + 0.5)
    requires AbsR(s.offset - line) <= residual
    requires AbsR(trueThen - s.offset) <= s.delay / 2.0 + Drifted(s.duration / 2.0) + slack
    requires AbsR(trueNow - trueThen) <= Drifted(AbsR(t - s.local))
    ensures AbsR(fitted - trueNow)
            <= s.delay / 2.0 + Holdover(MaxR(t4 - s.local, 0.0)) + residual + FLOOR_NS + Holdover(t - t4)
  {
  }

  lemma ObserveUncertainty(theta: real -> real, st: EstimatorState, e: Exchange, slack: real)
    requires DriftsSlowly(theta) && ValidEstimator(st)
    requires Trusted(theta, st.samples, slack) && Trusted(theta, st.recovery, slack)
    requires UncertaintySound(theta, st.mapping)
    requires WellTimed(e) ==> Genuine(theta, e, slack) && CoveredByFloor(SampleOf(e), slack)
    ensures var s2 := Observe(st, e).state;
            && Trusted(theta, s2.samples, slack) && Trusted(theta, s2.recovery, slack)
            && UncertaintySound(theta, s2.mapping)
  {
    var o := Observe(st, e);
    if WellTimed(e) {
      GenuineIsTruthful(theta, e, slack);
    }
    forall s | s in o.state.samples || s in o.state.recovery
      ensures Truthful(theta, s, slack) && CoveredByFloor(s, slack)
    {
      ObserveAddsOnly(st, e, s);
    }
    ObserveKeepsValid(st, e);
    if o.accepted {
      AcceptedIsFit(st, e);
      AcceptedObserved(st, e);
      FitSound(theta, o.state.samples, e, st.mapping.drift, o.state.mapping.acceptedObservations, slack);
    }
  }

  lemma AcceptedObserved(st: EstimatorState, e: Exchange)
    requires Observe(st, e).accepted
    ensures Observe(st, e).state.lastObserved == Some(Midpoint(e))
  {
  }

  /** Every stamp pair is genuine and every exchange short enough for the floor to cover it. */
  ghost predicate ShortAndGenuine(theta: real -> real, es: seq<Exchange>, slack: real) {
    forall e <- es :: WellTimed(e) ==> Genuine(theta, e, slack) && CoveredByFloor(SampleOf(e), slack)
  }

  /** In every run the fitted offset stays within the reported uncertainty of the true one
      from the last accepted receipt on, whatever was quarantined, evicted or lost since. */
  lemma {:induction false} UncertaintyCoversTruth(theta: real -> real, es: seq<Exchange>, slack: real)
    requires DriftsSlowly(theta) && ShortAndGenuine(theta, es, slack)
    ensures Trusted(theta, Run(es).samples, slack) && Trusted(theta, Run(es).recovery, slack)
    ensures UncertaintySound(theta, Run(es).mapping)
  {
    if es != [] {
      var before := es[..|es| - 1];
      UncertaintyCoversTruth(theta, before, slack);
      RunsStayValid(before);
      assert es[|es| - 1] in es;
      ObserveUncertainty(theta, Run(before), es[|es| - 1], slack);
    }
  }

  /** With exact stamps the floor covers every exchange under 400 milliseconds. */
  lemma ExactStampsUnder400ms(e: Exchange)
    requires WellTimed(e)
    ensures CoveredByFloor(SampleOf(e), 0.0) <==> e.t4 - e.t1 < 400_000_000
  {
  }

  /** The limit is real: the estimator accepts exchanges of up to 500 milliseconds, and one of
      them with exact stamps makes the reported uncertainty miss the true offset at its own
      receipt exactly when it lasted more than 400. It needs an expired history whose drift
      estimate was at the clamp. */
  lemma LongExchangeEscapesBound(st: EstimatorState, at: nat, duration: nat)
    requires ValidEstimator(st) && st.mapping.drift == -PPM500
    requires duration <= 500_000_000 && at + duration <= I64_MAX
    requires st.lastObserved.Some? ==> st.lastObserved.value < at as real
    requires Evicted(st.samples, Midpoint(HeldBack(at, duration))) == []
    ensures var e, theta := HeldBack(at, duration), Turning(at);
            var m := Observe(st, e).state.mapping;
            && DriftsSlowly(theta) && WellTimed(e) && Genuine(theta, e, 0.0)
            && Observe(st, e).accepted
            && (Missed(theta, m, e.t4) <==> duration > 400_000_000)
            && (duration > 400_000_000 ==> !UncertaintySound(theta, m))
  {
    hide Fit, Observe, ValidEstimator, Evicted, Midpoint, SampleOf, WellTimed, DriftsSlowly, Genuine, UncertaintySound,
      Missed, HeldBack, Turning;
    HeldBackTimes(at, duration);
    HeldBackIsGenuine(at, duration);
    var e := HeldBack(at, duration);
    SingleSampleFit(st, e);
    HeldBackEscapes(Observe(st, e).state.mapping, at, duration);
  }

  lemma HeldBackTimes(at: nat, duration: nat)
    requires at + duration <= I64_MAX && duration <= 500_000_000
    ensures WellTimed(HeldBack(at, duration)) && at as real <= Midpoint(HeldBack(at, duration))
  {
  }

  lemma HeldBackEscapes(m: ClockMapping, at: nat, duration: nat)
    requires WellTimed(HeldBack(at, duration))
    requires var e := HeldBack(at, duration); m == Fit([SampleOf(e)], Midpoint(e), e.t4, -PPM500, 1)
    ensures var t4 := HeldBack(at, duration).t4;
            && (Missed(Turning(at), m, t4) <==> duration > 400_000_000)
            && (duration > 400_000_000 ==> !UncertaintySound(Turning(at), m))
  {
    hide Fit, Midpoint, SampleOf, WellTimed;
    var e, theta := HeldBack(at, duration), Turning(at);
    HeldBackFit(at, duration);
    Escapes(m, theta(e.t4 as real), at, duration);
    if duration > 400_000_000 {
      MissedAt(theta, m, e.t4);
    }
  }

  lemma MissedAt(theta: real -> real, m: ClockMapping, t: nat)
    requires t >= m.lastSampleNs && Missed(theta, m, t)
    ensures !UncertaintySound(theta, m)
  {
    assert m.uncertainty.Within?;
  }

  lemma HeldBackFit(at: nat, duration: nat)
    requires WellTimed(HeldBack(at, duration))
    ensures var e := HeldBack(at, duration);
            var m := Fit([SampleOf(e)], Midpoint(e), e.t4, -PPM500, 1);
            && m.drift == -0.0005 && m.offsetNs == 0.0 && m.referenceNs == at + duration / 2
            && m.lastSampleNs == at + duration
            && m.uncertainty == Within(Holdover(duration as real / 2.0) + FLOOR_NS)
            && Turning(at)(e.t4 as real) == Drifted(duration as real)
  {
    var e := HeldBack(at, duration);
    HeldBackSample(at, duration);
    hide Fit, SampleOf, Midpoint, WellTimed;
    FitOfOne(SampleOf(e), e.t4, -PPM500);
    assert AbsR(e.t4 as real - at as real) == duration as real;
  }

  lemma HeldBackSample(at: nat, duration: nat)
    ensures var s := SampleOf(HeldBack(at, duration));
            && s.local == at as real + duration as real / 2.0 == Midpoint(HeldBack(at, duration))
            && s.local.Floor == at + duration / 2 && s.offset == 0.0 && s.delay == 0.0
            && MaxR((at + duration) as real - s.local, 0.0) == duration as real / 2.0
  {
    HalfStep(at, duration, duration / 2, duration % 2);
  }

  /** A request that arrives at once and whose reply takes the whole exchange. */
  function HeldBack(at: nat, duration: nat): Exchange {
    Exchange(at, at, at + duration, at + duration)
  }

  /** A leader clock that loses 500 ppm until `at` and gains 500 ppm after it. */
  ghost function Turning(at: nat): real -> real {
    (x: real) => Drifted(AbsR(x - at as real))
  }

  lemma HeldBackIsGenuine(at: nat, duration: nat)
    ensures DriftsSlowly(Turning(at)) && Genuine(Turning(at), HeldBack(at, duration), 0.0)
  {
    var theta := Turning(at);
    var residence := duration as real / 1.0005;
    ReplyInstant(duration as real);
    var left := at as real + residence;
    assert left - at as real == residence;
    assert theta(left) == Drifted(residence);
    assert Drifted(AbsR(at as real - at as real)) == 0.0;
    assert HappenedAt(theta, HeldBack(at, duration), at as real, left, 0.0);
  }

  lemma Escapes(m: ClockMapping, truth: real, at: nat, duration: nat)
    requires m.drift == -0.0005 && m.offsetNs == 0.0
    requires m.referenceNs == at + duration / 2 && m.lastSampleNs == at + duration && truth == Drifted(duration as real)
    requires m.uncertainty == Within(Holdover(duration as real / 2.0) + FLOOR_NS)
    ensures m.UncertaintyAt(at + duration).Exceeded(AbsR(m.OffsetAt(at + duration) - truth)) <==> duration > 400_000_000
  {
    var rest := duration - duration / 2;
    assert m.OffsetAt(at + duration) == rest as real * -0.0005;
    assert m.UncertaintyAt(at + duration) == Within(Holdover(duration as real / 2.0) + FLOOR_NS);
    assert rest > 200_000_000 <==> duration > 400_000_000;
  }

  lemma ReplyInstant(d: real)
    requires d >= 0.0
    ensures 0.0 <= d / 1.0005 <= d
    ensures d / 1.0005 + Drifted(d / 1.0005) == d
  {
    var u := d / 1.0005;
    assert u * 1.0005 == d;
  }

  lemma SingleSampleFit(st: EstimatorState, e: Exchange)
    requires WellTimed(e) && Evicted(st.samples, Midpoint(e)) == []
    requires st.lastObserved.Some? ==> st.lastObserved.value < Midpoint(e)
    ensures var o := Observe(st, e);
            && o.accepted && o.state.mapping == Fit([SampleOf(e)], Midpoint(e), e.t4, st.mapping.drift, 1)
  {
    hide Fit, Quarantined, Distrust, Evicted, SampleOf, MinDelay, WellTimed, Midpoint;
    assert !RejectedDelay([], SampleOf(e)) && !RejectedOffset([], st.mapping, SampleOf(e), e.t4);
    assert [] + [SampleOf(e)] == [SampleOf(e)];
  }

  lemma FitOfOne(s: Sample, t4: nat, drift: real)
    ensures var m := Fit([s], s.local, t4, drift, 1);
            && m.drift == drift && m.offsetNs == s.offset && m.referenceNs == MaxI(s.local.Floor, 0)
            && m.lastSampleNs == t4 && m.uncertainty == Within(AgedBound(s, t4) + FLOOR_NS)
  {
    assert [s][..0] == [];
    assert Inserted(Sorted([]), s) == [s];
    assert Sorted([s]) == [s];
    assert Selected([s]) == [s];
    assert Ages([s], s.local) == [0.0] && Offsets([s]) == [s.offset];
    assert Sum([0.0]) == 0.0 && Sum([s.offset]) == s.offset;
    assert Mean([0.0]) == 0.0 && Mean([s.offset]) == s.offset;
    assert FittedOffset([s], s.local, drift) == s.offset;
    assert Residual([s], s.local, s.offset, drift) == Deviation(s, s.local, s.offset, drift);
  }

  // ---------------------------------------------------------------- exactness of the fit

  /** The selected offsets lie on one line through `value` at `local`. */
  predicate OnLine(selected: seq<Sample>, local: real, value: real, slope: real) {
    forall i :: 0 <= i < |selected| ==> selected[i].offset == Line(value, slope, selected[i].local - local)
  }

  /** With enough support, observations on a line within 500 ppm are fitted exactly. */
  lemma FitRecoversLine(selected: seq<Sample>, local: real, previous: real, value: real, slope: real)
    requires |selected| >= 8 && Latest(selected) - Earliest(selected) >= 2_000_000_000.0
    requires -PPM500 <= slope <= PPM500 && OnLine(selected, local, value, slope)
    ensures FittedDrift(selected, local, previous) == slope
    ensures FittedOffset(selected, local, slope) == value
    ensures Residual(selected, local, value, slope) == 0.0
  {
    MeansOnLine(selected, local, value, slope);
    DriftOnLine(selected, local, value, slope);
    SpreadPositive(selected, local);
    NoResidual(selected, local, value, slope);
  }

  lemma MeansOnLine(selected: seq<Sample>, local: real, value: real, slope: real)
    requires selected != [] && OnLine(selected, local, value, slope)
    ensures Mean(Offsets(selected)) == Line(value, slope, Mean(Ages(selected, local)))
  {
    SumOnLine(selected, local, value, slope);
    MeanOnLine(Sum(Ages(selected, local)), Sum(Offsets(selected)), |selected| as real, value, slope);
  }

  lemma DriftOnLine(selected: seq<Sample>, local: real, value: real, slope: real)
    requires selected != [] && OnLine(selected, local, value, slope)
    ensures var xs, ys := Ages(selected, local), Offsets(selected);
            var xx := Codeviation(xs, Mean(xs), xs, Mean(xs));
            xx > 0.0 ==> Codeviation(xs, Mean(xs), ys, Mean(ys)) / xx == slope
  {
    var xs, ys := Ages(selected, local), Offsets(selected);
    MeansOnLine(selected, local, value, slope);
    CodeviationOnLine(xs, Mean(xs), ys, Mean(ys), slope, value);
    var xx := Codeviation(xs, Mean(xs), xs, Mean(xs));
    if xx > 0.0 {
      ExactQuotient(xx, slope);
    }
  }

  lemma ExactQuotient(d: real, k: real)
    requires d > 0.0
    ensures (k * d) / d == k
  {
  }

  lemma MeanOnLine(sx: real, sy: real, n: real, value: real, slope: real)
    requires n > 0.0 && sy == n * value + slope * sx
    ensures sy / n == Line(value, slope, sx / n)
  {
    var q := sx / n;
    assert n * q == sx;
    assert n * (value + slope * q) == n * value + slope * (n * q);
  }

  lemma {:induction false} SumOnLine(selected: seq<Sample>, local: real, value: real, slope: real)
    requires OnLine(selected, local, value, slope)
    ensures Sum(Offsets(selected)) == |selected| as real * value + slope * Sum(Ages(selected, local))
  {
    if selected != [] {
      var rest := selected[1..];
      SumOnLine(rest, local, value, slope);
      assert Offsets(selected)[1..] == Offsets(rest) && Ages(selected, local)[1..] == Ages(rest, local);
      SumStep(selected[0].local - local, Sum(Ages(rest, local)), |rest| as real, value, slope);
    }
  }

  lemma SumStep(a: real, sum: real, k: real, value: real, slope: real)
    ensures Line(value, slope, a) + (k * value + slope * sum) == (k + 1.0) * value + slope * (a + sum)
  {
  }

  lemma {:induction false} CodeviationOnLine(xs: seq<real>, x: real, ys: seq<real>, y: real, slope: real, value: real)
    requires |xs| == |ys| && y == Line(value, slope, x)
    requires forall i :: 0 <= i < |xs| ==> ys[i] == Line(value, slope, xs[i])
    ensures Codeviation(xs, x, ys, y) == slope * Codeviation(xs, x, xs, x)
  {
    if xs != [] {
      CodeviationOnLine(xs[1..], x, ys[1..], y, slope, value);
      TermOnLine(xs[0], x, value, slope, Codeviation(xs[1..], x, xs[1..], x));
    } else {
      assert slope * 0.0 == 0.0;
    }
  }

  lemma TermOnLine(a: real, x: real, value: real, slope: real, rest: real)
    ensures (a - x) * (Line(value, slope, a) - Line(value, slope, x)) + slope * rest
            == slope * ((a - x) * (a - x) + rest)
  {
    var d := a - x;
    assert Line(value, slope, a) - Line(value, slope, x) == slope * d;
    assert d * (slope * d) == slope * (d * d);
  }

  lemma {:induction false} SquaresNonNegative(xs: seq<real>, x: real, v: real)
    ensures Codeviation(xs, x, xs, x) >= 0.0
    ensures v in xs && v != x ==> Codeviation(xs, x, xs, x) > 0.0
  {
    if xs != [] {
      SquaresNonNegative(xs[1..], x, v);
      TimesSign(xs[0] - x, xs[0] - x);
      hide Times;
      assert xs == [xs[0]] + xs[1..];
      assert v in xs ==> v == xs[0] || v in xs[1..];
    }
  }

  lemma SpreadPositive(selected: seq<Sample>, local: real)
    requires selected != [] && Latest(selected) > Earliest(selected)
    ensures var xs := Ages(selected, local); Codeviation(xs, Mean(xs), xs, Mean(xs)) > 0.0
  {
    var xs := Ages(selected, local);
    var x := Mean(xs);
    var i, j := ExtremesAttained(selected);
    assert xs[i] in xs && xs[j] in xs && xs[i] != xs[j];
    SquaresNonNegative(xs, x, xs[i]);
    SquaresNonNegative(xs, x, xs[j]);
  }

  lemma {:induction false} ExtremesAttained(selected: seq<Sample>) returns (i: nat, j: nat)
    requires selected != []
    ensures i < |selected| && selected[i].local == Earliest(selected)
    ensures j < |selected| && selected[j].local == Latest(selected)
  {
    i, j := 0, 0;
    if |selected| > 1 {
      var i1, j1 := ExtremesAttained(selected[1..]);
      i := if Earliest(selected) == selected[0].local then 0 else i1 + 1;
      j := if Latest(selected) == selected[0].local then 0 else j1 + 1;
    }
  }

  lemma {:induction false} NoResidual(selected: seq<Sample>, local: real, value: real, slope: real)
    requires OnLine(selected, local, value, slope)
    ensures Residual(selected, local, value, slope) == 0.0
  {
    if selected != [] {
      assert OnLine(selected[1..], local, value, slope);
      NoResidual(selected[1..], local, value, slope);
    }
  }
}
