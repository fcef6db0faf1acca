/** The affine clock estimate and the step function of its estimator.

    `f64` is modelled by `real`; the one infinite value the source stores, the initial
    uncertainty, is `Unbounded`. */
module Clock {
  import opened Arithmetic

  const MAX_EXCHANGE_NS: nat := 500_000_000
  const HISTORY_NS: real := 32_000_000_000.0
  /** Steepest relative rate between the two clocks, 500 ppm. */
  const PPM500: real := 0.0005

  /** How far two clocks can move apart in a while at 500 ppm. */
  function Drifted(ns: real): real {
    ns * 0.0005
  }

  /** Uncertainty gained in a while, at 1000 ppm. */
  function Holdover(ns: real): real {
    ns * 0.001
  }

  /** Timestamp allowance of the evidence and the uncertainty, 100 microseconds. */
  const FLOOR_NS: real := 100_000.0
  /** `i64::MAX as f64` rounds up to two to the power 63. */
  const LEADER_TIME_MAX: real := 9_223_372_036_854_775_808.0

  /** Four monotonic timestamps in the NTP convention. */
  datatype Exchange = Exchange(t1: nat, t2: nat, t3: nat, t4: nat)

  datatype Sample = Sample(local: real, offset: real, delay: real, duration: real)

  datatype OffsetEvidence = OffsetEvidence(referenceNs: nat, lowerNs: real, upperNs: real, samples: nat) {
    predicate Consistent() {
      lowerNs <= upperNs
    }

    /** An inconsistent intersection stays inconsistent; a consistent one widens by 500 ppm. */
    function At(local: nat): OffsetEvidence {
      if !Consistent() then this
      else
        var growth := Drifted(Abs(local - referenceNs) as real);
        OffsetEvidence(local, lowerNs - growth, upperNs + growth, samples)
    }

    predicate Contains(offset: real) {
      lowerNs <= offset <= upperNs
    }
  }

  datatype Bound = Unbounded | Within(ns: real) {
    function Grow(more: real): Bound {
      match this
      case Unbounded => Unbounded
      case Within(ns) => Within(ns + more)
    }

    predicate Exceeded(x: real) {
      Within? && x > ns
    }
  }

  /** Leader time is local time plus offset plus (local - reference) times drift. */
  datatype ClockMapping = ClockMapping(
    referenceNs: nat,
    offsetNs: real,
    drift: real,
    uncertainty: Bound,
    lastSampleNs: nat,
    converged: bool,
    acceptedObservations: nat,
    evidence: Option<OffsetEvidence>)
  {
    function OffsetAt(local: nat): real {
      offsetNs + (local as real - referenceNs as real) * drift
    }

    function LeaderTime(local: nat): nat {
      ClampR(local as real + OffsetAt(local), 0.0, LEADER_TIME_MAX).Floor
    }

    function UncertaintyAt(local: nat): Bound {
      uncertainty.Grow(Holdover(Monus(local, lastSampleNs) as real))
    }
  }

  const NO_MAPPING := ClockMapping(0, 0.0, 0.0, Unbounded, 0, false, 0, None)

  datatype EstimatorState = EstimatorState(
    samples: seq<Sample>,
    mapping: ClockMapping,
    recovery: seq<Sample>,
    lastObserved: Option<real>)

  const FRESH := EstimatorState([], NO_MAPPING, [], None)

  // ---------------------------------------------------------------- one exchange

  predicate WellTimed(e: Exchange) {
    && e.t1 <= e.t4 && e.t2 <= e.t3
    && e.t1 <= I64_MAX && e.t2 <= I64_MAX && e.t3 <= I64_MAX && e.t4 <= I64_MAX
    && e.t4 - e.t1 <= MAX_EXCHANGE_NS
    && 0 <= Delay(e) <= 500_000_000
  }

  function Delay(e: Exchange): int {
    (e.t4 - e.t1) - (e.t3 - e.t2)
  }

  function Midpoint(e: Exchange): real {
    e.t1 as real + (e.t4 - e.t1) as real / 2.0
  }

  function Offset(e: Exchange): real {
    ((e.t2 - e.t1) + (e.t3 - e.t4)) as real / 2.0
  }

  function SampleOf(e: Exchange): Sample {
    Sample(Midpoint(e), Offset(e), Delay(e) as real, (e.t4 - e.t1) as real)
  }

  // ---------------------------------------------------------------- history and quarantine

  /** Drops samples from the front while they are older than the history. */
  function Evicted(samples: seq<Sample>, local: real): (r: seq<Sample>)
    ensures |r| <= |samples| && r == samples[|samples| - |r|..]
  {
    if samples != [] && local - samples[0].local > HISTORY_NS then Evicted(samples[1..], local) else samples
  }

  function MinDelay(samples: seq<Sample>): (d: real)
    requires samples != []
    ensures forall s <- samples :: d <= s.delay
  {
    if |samples| == 1 then samples[0].delay
    else
      assert samples == [samples[0]] + samples[1..];
      MinR(samples[0].delay, MinDelay(samples[1..]))
  }

  predicate RejectedDelay(samples: seq<Sample>, s: Sample) {
    |samples| >= 8 && s.delay > MinDelay(samples) + 20_000_000.0
  }

  predicate RejectedOffset(samples: seq<Sample>, m: ClockMapping, s: Sample, t4: nat) {
    && samples != []
    && m.converged
    && m.UncertaintyAt(t4).Grow(s.delay / 2.0 + 5_000_000.0).Exceeded(
         AbsR(s.offset - m.OffsetAt(MaxI(s.local.Floor, 0))))
  }

  predicate SameRegime(first: Sample, s: Sample, drift: real) {
    && AbsR(s.offset - first.offset - (s.local - first.local) * drift) <= MaxR(first.delay / 4.0, 2_000_000.0)
    && AbsR(s.delay - first.delay) <= MaxR(first.delay / 4.0, 5_000_000.0)
    && s.local - first.local <= 5_000_000_000.0
  }

  /** The quarantine after one more rejected sample, holding at most sixteen. */
  function Quarantined(recovery: seq<Sample>, s: Sample, drift: real): seq<Sample> {
    var kept := if recovery == [] || SameRegime(recovery[0], s, drift) then recovery else [];
    Newest(kept + [s], 16)
  }

  function Newest(samples: seq<Sample>, most: nat): (r: seq<Sample>)
    ensures |r| == MinI(|samples|, most) && r == samples[|samples| - |r|..]
  {
    if |samples| > most then samples[|samples| - most..] else samples
  }

  predicate Confirmed(quarantine: seq<Sample>, local: real) {
    |quarantine| >= 8 && local - quarantine[0].local >= 500_000_000.0
  }

  // ---------------------------------------------------------------- the fit

  /** Lowest delay first, and among equal delays the newest first. */
  predicate Before(a: Sample, b: Sample) {
    a.delay < b.delay || (a.delay == b.delay && a.local >= b.local)
  }

  function Inserted(sorted: seq<Sample>, s: Sample): seq<Sample> {
    if sorted == [] then [s]
    else if Before(sorted[0], s) then [sorted[0]] + Inserted(sorted[1..], s)
    else [s] + sorted
  }

  /** The source's stable sort, as a function of the history. */
  function Sorted(samples: seq<Sample>): seq<Sample> {
    if samples == [] then [] else Inserted(Sorted(samples[..|samples| - 1]), samples[|samples| - 1])
  }

  /** How many samples the fit keeps: the lower half, at least four when available. */
  function SelectedCount(n: nat): nat {
    MinI(MaxI(n / 2, 4), n)
  }

  function Selected(samples: seq<Sample>): seq<Sample> {
    SortedPermutes(samples);
    Sorted(samples)[..SelectedCount(|samples|)]
  }

  lemma {:induction false} SortedPermutes(samples: seq<Sample>)
    ensures multiset(Sorted(samples)) == multiset(samples) && |Sorted(samples)| == |samples|
  {
    if samples != [] {
      var n := |samples| - 1;
      SortedPermutes(samples[..n]);
      InsertedPermutes(Sorted(samples[..n]), samples[n]);
      assert samples == samples[..n] + [samples[n]];
    }
  }

  lemma {:induction false} InsertedPermutes(sorted: seq<Sample>, s: Sample)
    ensures multiset(Inserted(sorted, s)) == multiset(sorted) + multiset{s}
    ensures |Inserted(sorted, s)| == |sorted| + 1
  {
    if sorted != [] {
      assert sorted == [sorted[0]] + sorted[1..];
      if Before(sorted[0], s) {
        InsertedPermutes(sorted[1..], s);
      }
    }
  }

  predicate InOrder(samples: seq<Sample>) {
    forall i, j :: 0 <= i < j < |samples| ==> Before(samples[i], samples[j])
  }

  lemma {:induction false} SortedInOrder(samples: seq<Sample>)
    ensures InOrder(Sorted(samples))
  {
    if samples != [] {
      var n := |samples| - 1;
      SortedInOrder(samples[..n]);
      InsertedInOrder(Sorted(samples[..n]), samples[n]);
    }
  }

  lemma {:induction false} InsertedInOrder(sorted: seq<Sample>, s: Sample)
    requires InOrder(sorted)
    ensures InOrder(Inserted(sorted, s))
  {
    if sorted != [] && Before(sorted[0], s) {
      InsertedInOrder(sorted[1..], s);
      InsertedPermutes(sorted[1..], s);
      var rest := Inserted(sorted[1..], s);
      forall j | 0 <= j < |rest| ensures Before(sorted[0], rest[j]) {
        assert rest[j] in multiset(rest);
        assert rest[j] == s || rest[j] in multiset(sorted[1..]);
      }
    }
  }

  lemma SplitInOrder(sorted: seq<Sample>, k: nat, a: Sample, b: Sample)
    requires InOrder(sorted) && k <= |sorted| && a in sorted[..k] && b in sorted[k..]
    ensures Before(a, b)
  {
    var i :| 0 <= i < k && sorted[i] == a;
    var j :| 0 <= j < |sorted[k..]| && sorted[k..][j] == b;
    assert sorted[k + j] == b;
  }

  /** The fit keeps the lower half of the history, and all of it or four when that is more: a
      sub-multiset whose delays are no larger than any left out. */
  lemma SelectedLowest(samples: seq<Sample>)
    ensures multiset(Selected(samples)) <= multiset(samples)
    ensures forall a, b :: a in Selected(samples) && b in samples && b !in Selected(samples) ==>
              a.delay < b.delay || (a.delay == b.delay && a.local >= b.local)
    ensures samples != [] ==> Selected(samples) != []
    ensures |samples| <= 4 ==> |Selected(samples)| == |samples|
    ensures |samples| > 4 ==> |Selected(samples)| == MaxI(4, |samples| / 2)
  {
    SortedPermutes(samples);
    SortedInOrder(samples);
    hide InOrder, Sorted;
    var sorted, k := Sorted(samples), SelectedCount(|samples|);
    assert sorted == sorted[..k] + sorted[k..];
    forall a, b | a in sorted[..k] && b in samples && b !in sorted[..k] ensures Before(a, b) {
      assert b in multiset(samples);
      assert b in multiset(sorted);
      SplitInOrder(sorted, k, a, b);
    }
  }

  lemma SelectedSubset(samples: seq<Sample>, s: Sample)
    requires s in Selected(samples)
    ensures s in samples
  {
    SelectedLowest(samples);
    assert s in multiset(Selected(samples));
    assert s in multiset(samples);
  }

  function Sum(xs: seq<real>): real {
    if xs == [] then 0.0 else xs[0] + Sum(xs[1..])
  }

  function Ages(samples: seq<Sample>, local: real): (r: seq<real>)
    ensures |r| == |samples|
  {
    seq(|samples|, i requires 0 <= i < |samples| => samples[i].local - local)
  }

  function Offsets(samples: seq<Sample>): (r: seq<real>)
    ensures |r| == |samples|
  {
    seq(|samples|, i requires 0 <= i < |samples| => samples[i].offset)
  }

  function Mean(xs: seq<real>): real
    requires xs != []
  {
    Sum(xs) / |xs| as real
  }

  /** Sum of products of deviations from the given centres. */
  function Codeviation(xs: seq<real>, x: real, ys: seq<real>, y: real): real
    requires |xs| == |ys|
  {
    if xs == [] then 0.0 else Times(xs[0] - x, ys[0] - y) + Codeviation(xs[1..], x, ys[1..], y)
  }

  function Earliest(samples: seq<Sample>): (t: real)
    requires samples != []
    ensures forall s <- samples :: t <= s.local
  {
    if |samples| == 1 then samples[0].local
    else
      assert samples == [samples[0]] + samples[1..];
      MinR(samples[0].local, Earliest(samples[1..]))
  }

  function Latest(samples: seq<Sample>): (t: real)
    requires samples != []
    ensures forall s <- samples :: s.local <= t
  {
    if |samples| == 1 then samples[0].local
    else
      assert samples == [samples[0]] + samples[1..];
      MaxR(samples[0].local, Latest(samples[1..]))
  }

  /** Centred least squares over the selected samples, or the previous drift when too few
      of them or too short a span support a slope. */
  function FittedDrift(selected: seq<Sample>, local: real, previous: real): real
    requires selected != []
  {
    var xs, ys := Ages(selected, local), Offsets(selected);
    var x, y := Mean(xs), Mean(ys);
    var xx := Codeviation(xs, x, xs, x);
    if |selected| >= 8 && Latest(selected) - Earliest(selected) >= 2_000_000_000.0 && xx > 0.0
    then ClampR(Codeviation(xs, x, ys, y) / xx, -PPM500, PPM500)
    else previous
  }

  /** The fitted line's value at `local`. */
  function FittedOffset(selected: seq<Sample>, local: real, drift: real): real
    requires selected != []
  {
    Mean(Offsets(selected)) - drift * Mean(Ages(selected, local))
  }

  function Line(value: real, slope: real, x: real): real {
    value + slope * x
  }

  /** How far a sample is from the fitted line. */
  function Deviation(s: Sample, local: real, offset: real, drift: real): real {
    AbsR(s.offset - Line(offset, drift, s.local - local))
  }

  function Residual(selected: seq<Sample>, local: real, offset: real, drift: real): (r: real)
    ensures r >= 0.0
    ensures forall s <- selected :: Deviation(s, local, offset, drift) <= r
  {
    if selected == [] then 0.0
    else
      assert selected == [selected[0]] + selected[1..];
      MaxR(Deviation(selected[0], local, offset, drift), Residual(selected[1..], local, offset, drift))
  }

  /** A sample's own error bound carried to the receipt time. */
  function AgedBound(s: Sample, t4: nat): real {
    s.delay / 2.0 + Holdover(MaxR(t4 as real - s.local, 0.0))
  }

  function TightestBound(selected: seq<Sample>, t4: nat): real
    requires selected != []
  {
    var own := AgedBound(selected[0], t4);
    if |selected| == 1 then own else MinR(own, TightestBound(selected[1..], t4))
  }

  /** Half-width of the interval a retained sample allows at the receipt time. */
  function EvidenceRadius(s: Sample, t4: nat): real {
    s.delay / 2.0 + Drifted(AbsR(t4 as real - s.local) + s.duration / 2.0) + FLOOR_NS
  }

  function EvidenceLower(samples: seq<Sample>, t4: nat): real
    requires samples != []
  {
    var own := samples[0].offset - EvidenceRadius(samples[0], t4);
    if |samples| == 1 then own else MaxR(own, EvidenceLower(samples[1..], t4))
  }

  function EvidenceUpper(samples: seq<Sample>, t4: nat): real
    requires samples != []
  {
    var own := samples[0].offset + EvidenceRadius(samples[0], t4);
    if |samples| == 1 then own else MinR(own, EvidenceUpper(samples[1..], t4))
  }

  function Fit(samples: seq<Sample>, local: real, t4: nat, previousDrift: real, accepted: nat): (m: ClockMapping)
    requires samples != []
    ensures m.acceptedObservations == accepted && m.lastSampleNs == t4
  {
    SelectedLowest(samples);
    var selected := Selected(samples);
    var drift := FittedDrift(selected, local, previousDrift);
    var offset := FittedOffset(selected, local, drift);
    ClockMapping(
      MaxI(local.Floor, 0),
      offset,
      drift,
      Within(TightestBound(selected, t4) + Residual(selected, local, offset, drift) + FLOOR_NS),
      t4,
      |samples| >= 12 && samples[|samples| - 1].local - samples[0].local >= 500_000_000.0,
      accepted,
      Some(OffsetEvidence(t4, EvidenceLower(samples, t4), EvidenceUpper(samples, t4), |samples|)))
  }

  // ---------------------------------------------------------------- the step

  datatype Outcome = Outcome(state: EstimatorState, accepted: bool)

  function Observe(st: EstimatorState, e: Exchange): Outcome {
    if !WellTimed(e) || (st.lastObserved.Some? && Midpoint(e) <= st.lastObserved.value) then Outcome(st, false)
    else ObserveFresh(st.(samples := Evicted(st.samples, Midpoint(e)), lastObserved := Some(Midpoint(e))), e)
  }

  /** The part of an observation after the timestamp checks and the eviction. */
  function ObserveFresh(st: EstimatorState, e: Exchange): (o: Outcome)
    ensures o == Distrust(st, e) || o == Trust(st, e)
  {
    var s := SampleOf(e);
    if RejectedDelay(st.samples, s) || RejectedOffset(st.samples, st.mapping, s, e.t4) then Distrust(st, e)
    else Trust(st, e)
  }

  /** A rejected sample is quarantined; a confirmed quarantine replaces the history. */
  function Distrust(st: EstimatorState, e: Exchange): (o: Outcome)
    ensures var q := Quarantined(st.recovery, SampleOf(e), st.mapping.drift);
            && o.accepted == Confirmed(q, Midpoint(e))
            && (!o.accepted ==> o.state == st.(recovery := q))
            && (o.accepted ==> o.state == st.(samples := Newest(q, 128), recovery := [], mapping := o.state.mapping))
  {
    var q := Quarantined(st.recovery, SampleOf(e), st.mapping.drift);
    if !Confirmed(q, Midpoint(e)) then Outcome(st.(recovery := q), false)
    else Refit(st.(samples := q, recovery := []), e, |q|)
  }

  /** An ordinary sample joins the history and ends any quarantine. */
  function Trust(st: EstimatorState, e: Exchange): (o: Outcome)
    ensures o.accepted
    ensures o.state == st.(samples := Newest(st.samples + [SampleOf(e)], 128), recovery := [],
                           mapping := o.state.mapping)
  {
    var accepted := if st.samples == [] then 1 else MinI(st.mapping.acceptedObservations + 1, U64_MAX);
    Refit(st.(samples := st.samples + [SampleOf(e)], recovery := []), e, accepted)
  }

  function Refit(st: EstimatorState, e: Exchange, accepted: nat): (o: Outcome)
    requires st.samples != []
    ensures o.accepted
    ensures o.state == st.(samples := Newest(st.samples, 128), mapping := o.state.mapping)
  {
    var samples := Newest(st.samples, 128);
    Outcome(st.(samples := samples,
                mapping := Fit(samples, Midpoint(e), e.t4, st.mapping.drift, accepted)), true)
  }
}
