/** What the estimator keeps over every run, and why its two error bounds are sound. */
module ClockRuns {
  import opened Arithmetic
  import opened Clock

  /** The estimator after a sequence of exchanges, starting fresh. */
  function Run(es: seq<Exchange>): EstimatorState {
    if es == [] then FRESH else Observe(Run(es[..|es| - 1]), es[|es| - 1]).state
  }

  // ---------------------------------------------------------------- the bounded history

  predicate Increasing(samples: seq<Sample>) {
    forall i, j :: 0 <= i < j < |samples| ==> samples[i].local < samples[j].local
  }

  function Span(samples: seq<Sample>): real
    requires samples != []
  {
    samples[|samples| - 1].local - samples[0].local
  }

  predicate WithinHistory(samples: seq<Sample>, latest: real) {
    forall s <- samples :: 0.0 <= s.local <= latest <= s.local + HISTORY_NS
  }

  predicate ValidMapping(m: ClockMapping) {
    && -PPM500 <= m.drift <= PPM500
    && (m.converged ==> m.lastSampleNs > 0)
    && (m.evidence.None? ==> m == NO_MAPPING.(drift := m.drift))
    && (m.evidence.Some? ==>
          && m.uncertainty.Within?
          && m.evidence.value.referenceNs == m.lastSampleNs
          && m.acceptedObservations >= m.evidence.value.samples)
  }

  predicate ValidEstimator(st: EstimatorState) {
    && Increasing(st.samples) && |st.samples| <= 128
    && Increasing(st.recovery) && |st.recovery| <= 16
    && (st.lastObserved.None? ==> st.samples == [] && st.recovery == [] && st.mapping.evidence.None?)
    && (st.lastObserved.Some? ==>
          st.lastObserved.value >= 0.0 && WithinHistory(st.samples, st.lastObserved.value))
    && (st.recovery != [] ==>
          && st.recovery[|st.recovery| - 1].local == st.lastObserved.value
          && 0.0 <= st.recovery[0].local
          && Span(st.recovery) <= 5_000_000_000.0)
    && ValidMapping(st.mapping)
    && |st.samples| <= (if st.mapping.evidence.None? then 0 else st.mapping.evidence.value.samples)
  }

  lemma EvictedWithin(samples: seq<Sample>, local: real)
    requires Increasing(samples)
    requires forall s <- samples :: 0.0 <= s.local < local
    ensures Increasing(Evicted(samples, local)) && WithinHistory(Evicted(samples, local), local)
  {
    if samples != [] && local - samples[0].local > HISTORY_NS {
      EvictedWithin(samples[1..], local);
    } else if samples != [] {
      forall s <- samples ensures samples[0].local <= s.local {
        var i :| 0 <= i < |samples| && samples[i] == s;
        assert i > 0 ==> samples[0].local < samples[i].local;
      }
    }
  }

  lemma ExtendIncreasing(samples: seq<Sample>, s: Sample)
    requires Increasing(samples) && forall x <- samples :: x.local < s.local
    ensures Increasing(samples + [s])
  {
  }

  lemma SuffixIncreasing(samples: seq<Sample>, k: nat)
    requires Increasing(samples) && k <= |samples|
    ensures Increasing(samples[k..])
  {
  }

  lemma QuarantineSound(recovery: seq<Sample>, s: Sample, drift: real)
    requires Increasing(recovery) && forall x <- recovery :: x.local < s.local
    requires recovery != [] ==> 0.0 <= recovery[0].local
    requires s.local >= 0.0
    ensures var q := Quarantined(recovery, s, drift);
            && q != [] && |q| <= 16 && Increasing(q) && q[|q| - 1] == s
            && Span(q) <= 5_000_000_000.0 && 0.0 <= q[0].local
            && (q == Newest(recovery + [s], 16) || q == [s])
  {
    ExtendIncreasing(recovery, s);
    var kept := if recovery == [] || SameRegime(recovery[0], s, drift) then recovery else [];
    var all := kept + [s];
    assert Increasing(all);
    var q := Newest(all, 16);
    SuffixIncreasing(all, |all| - |q|);
    assert q[0] == all[|all| - |q|];
    assert all[0].local <= q[0].local;
  }

  /** What one observation can do to a valid estimator. */
  ghost predicate StepRules(st: EstimatorState, e: Exchange, o: Outcome) {
    var s := SampleOf(e);
    && (!o.accepted ==> o.state.mapping == st.mapping)
    && (!WellTimed(e) ==> o == Outcome(st, false))
    && (o.accepted ==>
          && o.state.recovery == []
          && o.state.mapping.lastSampleNs == e.t4
          && (|| o.state.samples == Newest(Evicted(st.samples, s.local) + [s], 128)
              || Replaced(st.recovery, s, o.state.samples)))
  }

  /** A replacement history: the confirmed quarantine, eight to sixteen samples spanning
      half a second to five seconds. */
  predicate Replaced(recovery: seq<Sample>, s: Sample, samples: seq<Sample>) {
    && samples == Newest(recovery + [s], 16)
    && 8 <= |samples| <= 16
    && 500_000_000.0 <= Span(samples) <= 5_000_000_000.0
  }

  lemma MidpointRange(e: Exchange)
    requires e.t1 <= e.t4
    ensures e.t1 as real <= Midpoint(e) <= e.t4 as real
    ensures 0.0 <= Midpoint(e) - MaxI(Midpoint(e).Floor, 0) as real <= 0.5
  {
    HalfStep(e.t1, e.t4 - e.t1, (e.t4 - e.t1) / 2, (e.t4 - e.t1) % 2);
  }

  lemma HalfStep(t1: nat, d: nat, h: nat, odd: nat)
    requires d == 2 * h + odd && odd <= 1
    ensures var m := t1 as real + d as real / 2.0;
            && t1 as real <= m <= (t1 + d) as real
            && m.Floor == t1 + h
            && 0.0 <= m - MaxI(m.Floor, 0) as real <= 0.5
  {
    var m := t1 as real + d as real / 2.0;
    assert d as real == 2.0 * h as real + odd as real;
    assert m == (t1 + h) as real + odd as real / 2.0;
    assert m.Floor == t1 + h;
  }

  /** Every observation keeps the estimator within its bounds and obeys the step rules. */
  lemma ObserveKeepsValid(st: EstimatorState, e: Exchange)
    requires ValidEstimator(st)
    ensures ValidEstimator(Observe(st, e).state) && StepRules(st, e, Observe(st, e))
  {
    hide ReadyFor, ObserveFresh, Increasing, WithinHistory, Midpoint, Evicted, Newest, WellTimed, ValidEstimator,
      Replaced;
    if WellTimed(e) && (st.lastObserved.Some? ==> Midpoint(e) > st.lastObserved.value) {
      ReadyAfterEviction(st, e);
      ObserveFreshKeepsValid(st.(samples := Evicted(st.samples, Midpoint(e)), lastObserved := Some(Midpoint(e))), e);
    }
  }

  lemma ReadyAfterEviction(st: EstimatorState, e: Exchange)
    requires ValidEstimator(st) && WellTimed(e) && (st.lastObserved.Some? ==> Midpoint(e) > st.lastObserved.value)
    ensures ReadyFor(st.(samples := Evicted(st.samples, Midpoint(e)), lastObserved := Some(Midpoint(e))), e)
  {
    var local := Midpoint(e);
    MidpointRange(e);
    hide Midpoint, WellTimed, Increasing, Evicted, WithinHistory, ValidMapping;
    SamplesEarlier(st, local);
    EvictedWithin(st.samples, local);
    forall x <- st.recovery ensures x.local < local {
      RecoveryNotLater(st, x);
    }
  }

  lemma SamplesEarlier(st: EstimatorState, local: real)
    requires ValidEstimator(st) && (st.lastObserved.Some? ==> local > st.lastObserved.value)
    ensures forall s <- st.samples :: 0.0 <= s.local < local
    ensures forall s <- Evicted(st.samples, local) :: s.local < local
  {
    hide Increasing, ValidMapping;
    var kept := Evicted(st.samples, local);
    assert forall s :: s in kept ==> s in st.samples;
  }

  lemma RecoveryNotLater(st: EstimatorState, x: Sample)
    requires ValidEstimator(st) && x in st.recovery
    ensures x.local <= st.lastObserved.value
  {
    var i :| 0 <= i < |st.recovery| && st.recovery[i] == x;
    assert i < |st.recovery| - 1 ==> x.local < st.recovery[|st.recovery| - 1].local;
  }

  /** A valid estimator whose history has just been cut at the new sample's midpoint. */
  ghost predicate ReadyFor(st: EstimatorState, e: Exchange) {
    && WellTimed(e) && st.lastObserved == Some(Midpoint(e))
    && Increasing(st.samples) && |st.samples| <= 128
    && WithinHistory(st.samples, Midpoint(e)) && (forall s <- st.samples :: s.local < Midpoint(e))
    && Increasing(st.recovery) && (forall s <- st.recovery :: s.local < Midpoint(e))
    && (st.recovery != [] ==> 0.0 <= st.recovery[0].local)
    && ValidMapping(st.mapping)
    && |st.samples| <= (if st.mapping.evidence.None? then 0 else st.mapping.evidence.value.samples)
  }

  lemma ObserveFreshKeepsValid(st: EstimatorState, e: Exchange)
    requires ReadyFor(st, e)
    ensures var o := ObserveFresh(st, e);
            && ValidEstimator(o.state)
            && (!o.accepted ==> o.state.mapping == st.mapping)
            && (o.accepted ==>
                  && o.state.recovery == [] && o.state.mapping.lastSampleNs == e.t4
                  && (|| o.state.samples == Newest(st.samples + [SampleOf(e)], 128)
                      || Replaced(st.recovery, SampleOf(e), o.state.samples)))
  {
    hide RejectedDelay, RejectedOffset, Refit, Distrust;
    if ObserveFresh(st, e) == Trust(st, e) {
      TrustStep(st, e);
    } else {
      QuarantineStep(st, e);
    }
  }

  lemma TrustStep(st: EstimatorState, e: Exchange)
    requires ReadyFor(st, e)
    ensures ValidEstimator(Trust(st, e).state) && Trust(st, e).state.mapping.lastSampleNs == e.t4
  {
    hide Refit;
    MidpointRange(e);
    ExtendIncreasing(st.samples, SampleOf(e));
    var accepted := if st.samples == [] then 1 else MinI(st.mapping.acceptedObservations + 1, U64_MAX);
    RefitKeepsValid(st.(samples := st.samples + [SampleOf(e)], recovery := []), e, accepted);
  }

  lemma QuarantineStep(st: EstimatorState, e: Exchange)
    requires ReadyFor(st, e)
    ensures var o := Distrust(st, e);
            && ValidEstimator(o.state)
            && (o.accepted ==> && Replaced(st.recovery, SampleOf(e), o.state.samples)
                               && o.state.mapping.lastSampleNs == e.t4)
            && (!o.accepted ==> o.state.mapping == st.mapping)
  {
    MidpointRange(e);
    assert SampleOf(e).local == Midpoint(e) >= 0.0;
    hide Refit, Quarantined, ValidMapping, Increasing, WithinHistory, WellTimed, SampleOf, Midpoint, SameRegime,
      ValidEstimator;
    QuarantineSound(st.recovery, SampleOf(e), st.mapping.drift);
    var q := Quarantined(st.recovery, SampleOf(e), st.mapping.drift);
    QuarantinedValid(st, e, q);
    if Confirmed(q, Midpoint(e)) {
      WithinOfSpan(q, Midpoint(e));
      DriftInRange(st.mapping);
      RefitKeepsValid(st.(samples := q, recovery := []), e, |q|);
    }
  }

  lemma QuarantinedValid(st: EstimatorState, e: Exchange, q: seq<Sample>)
    requires ReadyFor(st, e)
    requires q != [] && |q| <= 16 && Increasing(q) && q[|q| - 1] == SampleOf(e)
    requires Span(q) <= 5_000_000_000.0 && 0.0 <= q[0].local
    ensures ValidEstimator(st.(recovery := q))
  {
    MidpointRange(e);
    hide Increasing, WithinHistory, WellTimed, ValidMapping, Midpoint;
  }

  lemma DriftInRange(m: ClockMapping)
    requires ValidMapping(m)
    ensures -PPM500 <= m.drift <= PPM500
  {
  }

  lemma WithinOfSpan(q: seq<Sample>, local: real)
    requires q != [] && Increasing(q) && 0.0 <= q[0].local && q[|q| - 1].local == local && Span(q) <= 5_000_000_000.0
    ensures WithinHistory(q, local)
  {
    forall s <- q ensures q[0].local <= s.local <= local {
      var i :| 0 <= i < |q| && q[i] == s;
      assert i > 0 ==> q[0].local < q[i].local;
      assert i < |q| - 1 ==> q[i].local < q[|q| - 1].local;
    }
  }

  lemma RefitKeepsValid(st: EstimatorState, e: Exchange, accepted: nat)
    requires WellTimed(e) && st.samples != [] && st.recovery == [] && st.lastObserved == Some(Midpoint(e))
    requires Increasing(st.samples) && WithinHistory(st.samples, Midpoint(e))
    requires accepted >= MinI(|st.samples|, 128) && -PPM500 <= st.mapping.drift <= PPM500
    ensures ValidEstimator(Refit(st, e, accepted).state)
    ensures Refit(st, e, accepted).state.mapping.lastSampleNs == e.t4
  {
    var samples := Newest(st.samples, 128);
    SuffixIncreasing(st.samples, |st.samples| - |samples|);
    MidpointRange(e);
    assert samples[0] in st.samples && samples[|samples| - 1] in st.samples;
    SelectedLowest(samples);
    DriftClamped(Selected(samples), Midpoint(e), st.mapping.drift);
  }

  lemma DriftClamped(selected: seq<Sample>, local: real, previous: real)
    requires selected != [] && -PPM500 <= previous <= PPM500
    ensures -PPM500 <= FittedDrift(selected, local, previous) <= PPM500
  {
  }

  /** Every reachable estimator is bounded. */
  lemma {:induction false} RunsStayValid(es: seq<Exchange>)
    ensures ValidEstimator(Run(es))
  {
    if es != [] {
      RunsStayValid(es[..|es| - 1]);
      ObserveKeepsValid(Run(es[..|es| - 1]), es[|es| - 1]);
    }
  }

  // ---------------------------------------------------------------- the true offset

  /** Leader time minus local time, as a function of local time, drifting at most 500 ppm. */
  ghost predicate DriftsSlowly(theta: real -> real) {
    forall a, b {:trigger theta(a), theta(b)} :: AbsR(theta(a) - theta(b)) <= Drifted(AbsR(a - b))
  }

  /** The exchange really happened: the leader received it at local instant `u2` and answered
      at `u3`, neither path delay being negative, with stamps off by at most `slack`. */
  ghost predicate HappenedAt(theta: real -> real, e: Exchange, u2: real, u3: real, slack: real) {
    && e.t1 as real <= u2 <= u3 <= e.t4 as real
    && AbsR(e.t2 as real - (u2 + theta(u2))) <= slack
    && AbsR(e.t3 as real - (u3 + theta(u3))) <= slack
  }

  ghost predicate Genuine(theta: real -> real, e: Exchange, slack: real) {
    exists u2: real, u3: real :: HappenedAt(theta, e, u2, u3, slack)
  }

  /** How far a sample's offset can be from the true offset at its midpoint. */
  ghost predicate Truthful(theta: real -> real, s: Sample, slack: real) {
    AbsR(theta(s.local) - s.offset) <= s.delay / 2.0 + Drifted(s.duration / 2.0) + slack
  }

  ghost predicate AllTruthful(theta: real -> real, samples: seq<Sample>, slack: real) {
    forall s <- samples :: Truthful(theta, s, slack)
  }

  /** The four-timestamp model: half the round trip bounds the asymmetry of the paths. */
  lemma GenuineIsTruthful(theta: real -> real, e: Exchange, slack: real)
    requires DriftsSlowly(theta) && WellTimed(e) && Genuine(theta, e, slack)
    ensures Truthful(theta, SampleOf(e), slack)
  {
    hide SampleOf, WellTimed, DriftsSlowly;
    var u2: real, u3: real :| HappenedAt(theta, e, u2, u3, slack);
    var s := SampleOf(e);
    OneWayReadings(e);
    SendBound(theta, u2, s, e.t1 as real, e.t4 as real, e.t2 as real, slack);
    ReplyBound(theta, u3, s, e.t1 as real, e.t4 as real, e.t3 as real, slack);
  }

  /** The offset plus or minus half the delay is a one-way reading. */
  lemma OneWayReadings(e: Exchange)
    requires WellTimed(e)
    ensures var s := SampleOf(e);
            && s.offset - s.delay / 2.0 == e.t3 as real - e.t4 as real
            && s.offset + s.delay / 2.0 == e.t2 as real - e.t1 as real
            && s.local == e.t1 as real + (e.t4 as real - e.t1 as real) / 2.0
            && s.duration == e.t4 as real - e.t1 as real
  {
  }

  lemma SendBound(theta: real -> real, u2: real, s: Sample, t1: real, t4: real, t2: real, slack: real)
    requires DriftsSlowly(theta) && t1 <= u2 <= t4 && AbsR(t2 - (u2 + theta(u2))) <= slack
    requires s.local == t1 + (t4 - t1) / 2.0 && s.duration == t4 - t1 && s.offset + s.delay / 2.0 == t2 - t1
    ensures theta(s.local) - s.offset <= s.delay / 2.0 + Drifted(s.duration / 2.0) + slack
  {
    assert AbsR(theta(u2) - theta(s.local)) <= Drifted(AbsR(u2 - s.local));
  }

  lemma ReplyBound(theta: real -> real, u3: real, s: Sample, t1: real, t4: real, t3: real, slack: real)
    requires DriftsSlowly(theta) && t1 <= u3 <= t4 && AbsR(t3 - (u3 + theta(u3))) <= slack
    requires s.local == t1 + (t4 - t1) / 2.0 && s.duration == t4 - t1 && s.offset - s.delay / 2.0 == t3 - t4
    ensures s.offset - theta(s.local) <= s.delay / 2.0 + Drifted(s.duration / 2.0) + slack
  {
    assert AbsR(theta(u3) - theta(s.local)) <= Drifted(AbsR(u3 - s.local));
  }

  /** What has happened so far is reflected only in truthful samples, retained or quarantined. */
  ghost predicate History(theta: real -> real, st: EstimatorState, slack: real) {
    AllTruthful(theta, st.samples, slack) && AllTruthful(theta, st.recovery, slack)
  }

  lemma ObserveKeepsHistory(theta: real -> real, st: EstimatorState, e: Exchange, slack: real)
    requires ValidEstimator(st) && History(theta, st, slack)
    requires WellTimed(e) ==> Truthful(theta, SampleOf(e), slack)
    ensures History(theta, Observe(st, e).state, slack)
  {
    var s2 := Observe(st, e).state;
    forall s | s in s2.samples || s in s2.recovery ensures Truthful(theta, s, slack) {
      ObserveAddsOnly(st, e, s);
    }
  }

  /** Nothing enters the history or the quarantine but the observed sample. */
  lemma ObserveAddsOnly(st: EstimatorState, e: Exchange, s: Sample)
    requires var s2 := Observe(st, e).state; s in s2.samples || s in s2.recovery
    ensures s in st.samples || s in st.recovery || (WellTimed(e) && s == SampleOf(e))
  {
    if WellTimed(e) && (st.lastObserved.Some? ==> Midpoint(e) > st.lastObserved.value) {
      FreshAddsOnly(st.(samples := Evicted(st.samples, Midpoint(e)), lastObserved := Some(Midpoint(e))), e, s);
    }
  }

  lemma FreshAddsOnly(st: EstimatorState, e: Exchange, s: Sample)
    requires var s2 := ObserveFresh(st, e).state; s in s2.samples || s in s2.recovery
    ensures s in st.samples || s in st.recovery || s == SampleOf(e)
  {
    if ObserveFresh(st, e) == Trust(st, e) {
      NewestAddsOnly(st.samples, SampleOf(e), 128, s);
    } else {
      DistrustAddsOnly(st, e, s);
    }
  }

  lemma DistrustAddsOnly(st: EstimatorState, e: Exchange, s: Sample)
    requires var s2 := Distrust(st, e).state; s in s2.samples || s in s2.recovery
    ensures s in st.samples || s in st.recovery || s == SampleOf(e)
  {
    hide Refit, Distrust, Quarantined, SampleOf, Midpoint;
    var q := Quarantined(st.recovery, SampleOf(e), st.mapping.drift);
    QuarantineAddsOnly(st.recovery, SampleOf(e), st.mapping.drift, s);
    assert s in Newest(q, 128) ==> s in q;
  }

  lemma QuarantineAddsOnly(recovery: seq<Sample>, own: Sample, drift: real, s: Sample)
    ensures s in Quarantined(recovery, own, drift) ==> s in recovery || s == own
  {
    hide Newest, SameRegime;
    if recovery == [] || SameRegime(recovery[0], own, drift) {
      assert Quarantined(recovery, own, drift) == Newest(recovery + [own], 16);
      hide Quarantined;
      NewestAddsOnly(recovery, own, 16, s);
    } else {
      assert Quarantined(recovery, own, drift) == Newest([] + [own], 16);
      hide Quarantined;
      NewestAddsOnly([], own, 16, s);
    }
  }

  lemma NewestAddsOnly(samples: seq<Sample>, own: Sample, most: nat, s: Sample)
    ensures s in Newest(samples + [own], most) ==> s in samples || s == own
  {
  }

  // ---------------------------------------------------------------- interval evidence

  ghost predicate EvidenceSound(theta: real -> real, m: ClockMapping) {
    m.evidence.Some? ==>
      && m.evidence.value.Consistent()
      && forall t: nat :: m.evidence.value.At(t).Contains(theta(t as real))
  }

  lemma {:induction false} IntersectionContains(theta: real -> real, samples: seq<Sample>, t4: nat)
    requires DriftsSlowly(theta) && samples != [] && AllTruthful(theta, samples, FLOOR_NS)
    ensures EvidenceLower(samples, t4) <= theta(t4 as real) <= EvidenceUpper(samples, t4)
  {
    var s := samples[0];
    assert Truthful(theta, s, FLOOR_NS);
    assert AbsR(theta(t4 as real) - theta(s.local)) <= Drifted(AbsR(t4 as real - s.local));
    if |samples| > 1 {
      IntersectionContains(theta, samples[1..], t4);
    }
  }

  lemma EvidenceTravels(theta: real -> real, ev: OffsetEvidence)
    requires DriftsSlowly(theta) && ev.Contains(theta(ev.referenceNs as real))
    ensures ev.Consistent() && forall t: nat :: ev.At(t).Contains(theta(t as real))
  {
    forall t: nat ensures ev.At(t).Contains(theta(t as real)) {
      assert AbsR(theta(t as real) - theta(ev.referenceNs as real))
          <= Drifted(AbsR(t as real - ev.referenceNs as real));
    }
  }

  lemma ObserveEvidence(theta: real -> real, st: EstimatorState, e: Exchange)
    requires DriftsSlowly(theta) && ValidEstimator(st) && History(theta, st, FLOOR_NS)
    requires EvidenceSound(theta, st.mapping)
    requires WellTimed(e) ==> Genuine(theta, e, FLOOR_NS)
    ensures History(theta, Observe(st, e).state, FLOOR_NS) && EvidenceSound(theta, Observe(st, e).state.mapping)
  {
    if WellTimed(e) {
      GenuineIsTruthful(theta, e, FLOOR_NS);
    }
    ObserveKeepsHistory(theta, st, e, FLOOR_NS);
    ObserveKeepsValid(st, e);
    var o := Observe(st, e);
    if o.accepted {
      var m := o.state.mapping;
      AcceptedIsFit(st, e);
      IntersectionContains(theta, o.state.samples, e.t4);
      EvidenceTravels(theta, m.evidence.value);
    }
  }

  /** An accepted mapping is the fit of the samples now retained. */
  lemma AcceptedIsFit(st: EstimatorState, e: Exchange)
    requires Observe(st, e).accepted
    ensures var s2 := Observe(st, e).state;
            && WellTimed(e) && s2.samples != []
            && s2.mapping == Fit(s2.samples, Midpoint(e), e.t4, st.mapping.drift, s2.mapping.acceptedObservations)
  {
    hide Fit, Quarantined, RejectedDelay, RejectedOffset, Evicted;
  }

  /** Over every run of genuine exchanges the evidence interval is nonempty and contains the
      true offset, at the last receipt and, widened, at every other time. */
  lemma {:induction false} EvidenceContainsTruth(theta: real -> real, es: seq<Exchange>)
    requires DriftsSlowly(theta)
    requires forall e <- es :: WellTimed(e) ==> Genuine(theta, e, FLOOR_NS)
    ensures History(theta, Run(es), FLOOR_NS) && EvidenceSound(theta, Run(es).mapping)
  {
    if es != [] {
      var before := es[..|es| - 1];
      EvidenceContainsTruth(theta, before);
      RunsStayValid(before);
      assert es[|es| - 1] in es;
      ObserveEvidence(theta, Run(before), es[|es| - 1]);
    }
  }
}
