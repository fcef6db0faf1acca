/** What a tracked source's samples say about its speed and place, in numbers. */
module SourceSpeed {
  import opened Arithmetic
  import opened Timecode
  import opened Timelines
  import opened Tracking
  import opened TrackingRuns

  /** Frames a source at normal speed goes through in a while. */
  function FramesIn(f: Format, ns: int): real {
    ns as real / 1_000_000_000.0 * (f.numerator as real / f.denominator as real)
  }

  /** The second sample lies where a source at this speed is after the first. */
  predicate AtSpeed(first: SourceSample, second: SourceSample, f: Format, speed: real) {
    (Fixed(second.position) - Fixed(first.position)) as real
    == 4_294_967_296.0 * (speed * FramesIn(f, second.timestampNs - first.timestampNs))
  }

  lemma InferredIs(first: SourceSample, second: SourceSample, f: Format, speed: real)
    requires second.timestampNs >= first.timestampNs + 1_000_000 && AtSpeed(first, second, f, speed)
    ensures Inferred(first, second, f) == Some(speed)
  {
    hide Fixed, Fps, FramesIn, Inferred, Supported;
    var ns := second.timestampNs - first.timestampNs;
    FramesPositive(f, ns);
    InferredForm(first, second, f, ns as real / 1_000_000_000.0, FramesIn(f, ns));
    QuotientBack(speed, FramesIn(f, ns), (Fixed(second.position) - Fixed(first.position)) as real);
  }

  lemma InferredForm(first: SourceSample, second: SourceSample, f: Format, elapsed: real, frames: real)
    requires second.timestampNs > first.timestampNs
    requires elapsed == (second.timestampNs - first.timestampNs) as real / 1_000_000_000.0 >= 0.001
    requires frames == elapsed * Fps(f)
    ensures Inferred(first, second, f)
         == Some((Fixed(second.position) - Fixed(first.position)) as real / 4_294_967_296.0 / frames)
  {
    FpsPositive(f);
    TimesSign(elapsed, Fps(f));
    hide Fixed, Fps;
  }

  lemma FramesPositive(f: Format, ns: nat)
    requires ns >= 1_000_000
    ensures ns as real / 1_000_000_000.0 >= 0.001
    ensures FramesIn(f, ns) > 0.0 && FramesIn(f, ns) == ns as real / 1_000_000_000.0 * Fps(f)
  {
    FpsPositive(f);
    FramesAreFps(f, ns);
    hide Fps, FramesIn, Supported;
    var elapsed := ns as real / 1_000_000_000.0;
    TimesSign(elapsed, Fps(f));
    assert Times(elapsed, Fps(f)) == elapsed * Fps(f);
  }

  lemma FramesAreFps(f: Format, ns: nat)
    ensures FramesIn(f, ns) == ns as real / 1_000_000_000.0 * Fps(f)
  {
  }

  lemma QuotientBack(speed: real, frames: real, units: real)
    requires frames > 0.0 && units == 4_294_967_296.0 * (speed * frames)
    ensures units / 4_294_967_296.0 / frames == speed
  {
    assert units / 4_294_967_296.0 == speed * frames;
  }

  /** The rate made of a speed is within half of its ten thousandths. */
  lemma RateOfNear(speed: real)
    requires -64.0 <= speed <= 64.0
    ensures RateOf(speed).Ok? && ValidRate(RateOf(speed).value)
    ensures -0.00005 <= RateValue(RateOf(speed).value) - speed <= 0.00005
  {
    RateOfSound(speed);
    var n := Round(speed * 10000.0);
    ReducedRateSound(n, 10000);
    var r := RateOf(speed).value;
    hide ReducedRate, Gcd;
    assert -0.5 <= n as real - speed * 10000.0 <= 0.5;
    SameRatio(r.numerator, r.denominator, n);
  }

  lemma SameRatio(m: int, d: nat, n: int)
    requires d > 0 && m * 10000 == n * d
    ensures m as real / d as real == n as real / 10000.0
  {
    assert m as real * 10000.0 == (m * 10000) as real;
    assert n as real * d as real == (n * d) as real;
    CrossMultiplied(m as real, d as real, n as real);
  }

  lemma CrossMultiplied(m: real, d: real, n: real)
    requires d > 0.0 && m * 10000.0 == n * d
    ensures m / d == n / 10000.0
  {
    var q := n / 10000.0;
    assert q * 10000.0 == n;
    assert m == q * d;
  }

  /** Where the source is ahead of the trajectory, in Q32 units. */
  function Ahead(t: Timeline, s: SourceSample): int {
    Fixed(s.position) - Fixed(AnchorAt(t.anchor, s.timestampNs, t.format))
  }

  /** One estimate. Within 0.02 of the rate it changes nothing about the rate; beyond, it counts
      with the ones before it that are within 0.05, and the third gives the trajectory the source's
      place and a rate within a twenty thousandth of its speed. */
  lemma OneEstimate(st: TrackerState, t: Timeline, s: SourceSample, now: nat, speed: real)
    requires SampleStep(st, t, s, now).Followed? && st.last.Some? && s.rateHint.None?
    requires s.timestampNs >= st.last.value.timestampNs + 1_000_000
    requires AtSpeed(st.last.value, s, t.format, speed) && -64.0 <= speed <= 64.0
    ensures var r := SampleStep(st, t, s, now);
            var off, c := speed - RateValue(t.anchor.rate), st.candidate;
            var n := if c.Some? && -0.05 < c.value.speed - speed < 0.05 then c.value.count + 1 else 1;
            if -0.02 <= off <= 0.02 then
              && r.timeline.anchor.rate == t.anchor.rate && r.tracker.candidate == None
              && (-0x1_0000_0000 <= Ahead(t, s) <= 0x1_0000_0000 ==> (r.changed <==> s.discontinuity))
            else if n < 3 then
              && r.timeline.anchor.rate == t.anchor.rate
              && (!r.changed ==> r.tracker.candidate == Some(Candidate(speed, n)))
            else
              && r.changed && -0.00005 <= RateValue(r.timeline.anchor.rate) - speed <= 0.00005
              && r.timeline.anchor.position == s.position && r.timeline.anchor.timeNs == s.timestampNs
  {
    InferredIs(st.last.value, s, t.format, speed);
    RateOfNear(speed);
    ErrorIs(t, s);
    hide Inferred, RateValue, RateOf, AtSpeed, AnchorAt, Fixed, Nudged, SourceError, Ahead;
    assert Speculated(st, t, s) == speed;
  }

  lemma ErrorIs(t: Timeline, s: SourceSample)
    ensures SourceError(t, s) * 4_294_967_296.0 == Ahead(t, s) as real
    ensures SourceError(t, s) > 1.0 <==> Ahead(t, s) > 0x1_0000_0000
    ensures SourceError(t, s) < -1.0 <==> Ahead(t, s) < -0x1_0000_0000
  {
    hide AnchorAt, Fixed;
  }

  // ---------------------------------------------------------------- over runs

  /** The sample is accepted, has no hint, and lies on the line of this speed with the one before. */
  ghost predicate OnSpeed(st: TrackerState, a: Arrival, speed: real, rate: Speed) {
    && SampleStep(st, a.timeline, a.sample, a.now).Followed? && st.last.Some? && a.sample.rateHint.None?
    && a.sample.timestampNs >= st.last.value.timestampNs + 1_000_000
    && AtSpeed(st.last.value, a.sample, a.timeline.format, speed)
    && a.timeline.anchor.rate == rate
  }

  lemma TrackerNext(arrivals: seq<Arrival>, a: Arrival)
    requires SampleStep(TrackerAfter(arrivals), a.timeline, a.sample, a.now).Followed?
    ensures TrackerAfter(arrivals + [a]) == SampleStep(TrackerAfter(arrivals), a.timeline, a.sample, a.now).tracker
  {
    assert (arrivals + [a])[..|arrivals|] == arrivals;
    hide SampleStep;
  }

  /** Over every run: a source that moves at one speed off the rate by more than 0.02 turns the
      trajectory to its own speed, sign included, with the third sample that shows it. */
  lemma ThirdEstimateSets(
      before: seq<Arrival>, a: Arrival, b: Arrival, c: Arrival, speed: real, rate: Speed)
    requires -64.0 <= speed <= 64.0 && (speed - RateValue(rate) > 0.02 || speed - RateValue(rate) < -0.02)
    requires TrackerAfter(before).candidate.None? && OnSpeed(TrackerAfter(before), a, speed, rate)
    requires OnSpeed(TrackerAfter(before + [a]), b, speed, rate)
    requires OnSpeed(TrackerAfter(before + [a] + [b]), c, speed, rate)
    requires !SampleStep(TrackerAfter(before), a.timeline, a.sample, a.now).changed
    requires !SampleStep(TrackerAfter(before + [a]), b.timeline, b.sample, b.now).changed
    ensures var r := SampleStep(TrackerAfter(before + [a] + [b]), c.timeline, c.sample, c.now);
            && r.changed && r.timeline.anchor.position == c.sample.position
            && -0.00005 <= RateValue(r.timeline.anchor.rate) - speed <= 0.00005
            && (speed > 0.00005 ==> RateValue(r.timeline.anchor.rate) > 0.0)
            && (speed < -0.00005 ==> RateValue(r.timeline.anchor.rate) < 0.0)
  {
    hide SampleStep, AtSpeed, RateValue, TrackerAfter;
    TrackerNext(before, a);
    TrackerNext(before + [a], b);
    OneEstimate(TrackerAfter(before), a.timeline, a.sample, a.now, speed);
    OneEstimate(TrackerAfter(before + [a]), b.timeline, b.sample, b.now, speed);
    OneEstimate(TrackerAfter(before + [a] + [b]), c.timeline, c.sample, c.now, speed);
  }

  /** A source that keeps to the rate within 0.02 and to the trajectory within a frame never causes
      a discontinuity of its own, and changes no rate. */
  lemma SteadySourceKept(arrivals: seq<Arrival>, a: Arrival, speed: real, rate: Speed)
    requires -64.0 <= speed <= 64.0 && -0.02 <= speed - RateValue(rate) <= 0.02
    requires OnSpeed(TrackerAfter(arrivals), a, speed, rate) && !a.sample.discontinuity
    requires -0x1_0000_0000 <= Ahead(a.timeline, a.sample) <= 0x1_0000_0000
    ensures var r := SampleStep(TrackerAfter(arrivals), a.timeline, a.sample, a.now);
            !r.changed && r.timeline.anchor.rate == rate
  {
    hide SampleStep, AtSpeed, RateValue, TrackerAfter, Ahead;
    OneEstimate(TrackerAfter(arrivals), a.timeline, a.sample, a.now, speed);
  }

  /** An exact hint other than the rate is taken at once; one that is the rate keeps it, whatever
      speed the positions suggest. */
  lemma HintTaken(st: TrackerState, t: Timeline, s: SourceSample, now: nat)
    requires SampleStep(st, t, s, now).Followed? && s.rateHint.Some?
    ensures var r := SampleStep(st, t, s, now);
            && r.timeline.anchor.rate == s.rateHint.value
            && (s.rateHint.value != t.anchor.rate ==> r.changed)
            && r.tracker.candidate == None
  {
    RateWithin64(t.anchor.rate);
    hide Inferred, SourceError, RateOf, Nudged, RateValue, JumpCount;
  }

  lemma RateWithin64(rate: Speed)
    ensures -64.0 <= RateValue(rate) <= 64.0
  {
    WithinQuotient(rate.numerator as real, rate.denominator as real);
  }

  lemma WithinQuotient(n: real, d: real)
    requires d > 0.0 && -64.0 * d <= n <= 64.0 * d
    ensures -64.0 <= n / d <= 64.0
  {
    var q := n / d;
    assert q * d == n;
    NotNegative(64.0 - q, d);
    NotNegative(q + 64.0, d);
  }

  lemma NotNegative(x: real, d: real)
    requires d > 0.0 && x * d >= 0.0
    ensures x >= 0.0
  {
  }

  // ---------------------------------------------------------------- what a sample does

  /** A sample that causes a discontinuity puts the trajectory where the source is, under the next
      number, with nothing pending; any other moves it a fifth of the way, at most a fiftieth of a
      frame, in the units of the position. */
  lemma SampleMoves(st: TrackerState, t: Timeline, s: SourceSample, now: nat)
    requires SampleStep(st, t, s, now).Followed?
    ensures var r := SampleStep(st, t, s, now);
            var u, off := r.timeline, Ahead(t, s);
            && u.anchor.timeNs == s.timestampNs && u.sourceHealth == Healthy
            && u == t.(anchor := u.anchor, sourceHealth := u.sourceHealth,
                       discontinuity := u.discontinuity, scheduled := u.scheduled)
            && if r.changed then
                 u.anchor.position == s.position && u.discontinuity == t.discontinuity + 1 && u.scheduled == []
               else
                 && u.discontinuity == t.discontinuity && u.scheduled == t.scheduled
                 && u.anchor.rate == t.anchor.rate
                 && var moved := Fixed(u.anchor.position) - Fixed(AnchorAt(t.anchor, s.timestampNs, t.format));
                    if -429_496_729 <= off <= 429_496_729 then -5 < 5 * moved - off < 5
                    else moved == (if off > 0 then 85_899_345 else -85_899_345)
  {
    hide AnchorAt, Fixed, FromFixed, JumpCount, Trunc, ClampR, Speculated, RateValue, RateOf;
    var on := Fixed(AnchorAt(t.anchor, s.timestampNs, t.format));
    KeepsRate(st, t, s);
    FixedInjective(AnchorAt(t.anchor, s.timestampNs, t.format));
    FixedInjective(s.position);
    var step := Trunc(ClampR(SourceError(t, s), -0.1, 0.1) * 0.2 * 4_294_967_296.0);
    NudgeSize(Fixed(s.position) - on, step);
    FifthOf(Fixed(s.position) - on, step);
    FixedRoundTrip(on + step);
  }

  lemma FifthOf(d: int, step: int)
    requires step == Trunc(ClampR(d as real / 4_294_967_296.0, -0.1, 0.1) * 0.2 * 4_294_967_296.0)
    ensures if -429_496_729 <= d <= 429_496_729 then -5 < 5 * step - d < 5
            else step == (if d > 0 then 85_899_345 else -85_899_345)
  {
  }

  /** What a judgement says is off, in Q32 units, and which speed it goes by. */
  lemma JudgementIs(st: TrackerState, t: Timeline, s: SourceSample, speed: real)
    requires st.last.Some? && s.timestampNs >= st.last.value.timestampNs + 1_000_000
    requires AtSpeed(st.last.value, s, t.format, speed) && -64.0 <= speed <= 64.0
    ensures var j, off := JudgementOf(st, t, s), Ahead(t, s);
            && j.Judged?
            && j.off == (if off > 0x1_0000_0000 then 1 else if off < -0x1_0000_0000 then -1 else 0)
            && (s.rateHint.None? ==>
                  j.speed == if -0.02 <= speed - RateValue(t.anchor.rate) <= 0.02 then None else Some(speed))
  {
    InferredIs(st.last.value, s, t.format, speed);
    ErrorIs(t, s);
    hide Inferred, RateValue, AtSpeed, SourceError, Ahead;
  }
}
