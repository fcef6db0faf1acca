/** The untruncated trajectory behind a view: slewing never reverses it, and the integer
    evaluation stays next to it. */
module Trajectory {
  import opened Arithmetic
  import opened Timecode
  import opened Clock
  import opened Timelines
  import opened Follower

  /** Q32 units travelled per leader nanosecond. */
  function Velocity(f: Format, r: Speed): real {
    Fps(f) * RateValue(r) * 4.294967296
  }

  function IdealTime(m: ClockMapping, local: real): real {
    local + m.offsetNs + (local - m.referenceNs as real) * m.drift
  }

  function IdealElapsed(v: View, local: real): real {
    MaxR(local - v.correctionAt as real, 0.0)
  }

  /** What is left of the correction at any real local time. */
  function IdealRemaining(v: View, current: Scheduled, local: real): real {
    if current.discontinuity == v.correctionDiscontinuity then
      LeftOver(v.correctionFrames, IdealElapsed(v, local),
               SlewCap(v.slewFramesPerSecond, v.timeline.format, current.anchor.rate))
    else 0.0
  }

  function LeftOver(frames: real, elapsedNs: real, slew: real): real {
    MaxR(AbsR(frames) - Slewed(elapsedNs, slew), 0.0) * Signum(frames)
  }

  function Slewed(elapsedNs: real, slew: real): real {
    elapsedNs / 1_000_000_000.0 * slew
  }

  /** The trajectory with every truncation and clamp left out. */
  function Ideal(v: View, current: Scheduled, local: real): real {
    Fixed(current.anchor.position) as real
    + Times(Velocity(v.timeline.format, current.anchor.rate),
            IdealTime(v.mapping, local) - current.anchor.timeNs as real)
    + IdealRemaining(v, current, local) * 4_294_967_296.0
  }

  // ---------------------------------------------------------------- monotonicity

  lemma RateSign(r: Speed)
    ensures r.numerator > 0 ==> RateValue(r) > 0.0
    ensures r.numerator < 0 ==> RateValue(r) < 0.0
    ensures r.numerator == 0 ==> RateValue(r) == 0.0
  {
    var x, d := RateValue(r), r.denominator as real;
    assert x * d == r.numerator as real;
    TimesSign(x, d);
    TimesSign(-x, d);
    assert Times(x, d) == x * d && Times(-x, d) == -(x * d);
  }

  lemma VelocitySign(f: Format, r: Speed)
    ensures r.numerator > 0 ==> Velocity(f, r) > 0.0
    ensures r.numerator < 0 ==> Velocity(f, r) < 0.0
    ensures r.numerator == 0 ==> Velocity(f, r) == 0.0
  {
    FpsPositive(f);
    RateSign(r);
    TimesSign(Fps(f), RateValue(r));
    assert Velocity(f, r) == Times(Fps(f), RateValue(r)) * 4.294967296;
  }

  /** The slew in Q32 units per nanosecond is at most a tenth of the motion. */
  lemma SlewBelowTenth(slew: real, f: Format, r: Speed)
    requires slew >= 0.0
    ensures 0.0 <= SlewCap(slew, f, r) * 4.294967296 <= AbsR(Velocity(f, r)) * 0.1
  {
    FpsPositive(f);
    hide Fps, RateValue;
    MagnitudeOfProduct(Fps(f), RateValue(r));
  }

  lemma MagnitudeOfProduct(k: real, x: real)
    requires k >= 0.0
    ensures k * AbsR(x) == AbsR(k * x)
  {
    if x < 0.0 {
      MulNonNegativeR(k, -x);
      assert k * (-x) == -(k * x);
    } else {
      MulNonNegativeR(k, x);
    }
  }

  lemma LeftOverSlowly(frames: real, a: real, b: real, slew: real)
    requires slew >= 0.0 && 0.0 <= a <= b
    ensures AbsR(LeftOver(frames, b, slew) - LeftOver(frames, a, slew)) <= Slewed(b - a, slew)
  {
    MulMonotoneR(slew, a / 1_000_000_000.0, b / 1_000_000_000.0);
    assert Slewed(b, slew) - Slewed(a, slew) == Slewed(b - a, slew);
    assert Slewed(a, slew) <= Slewed(b, slew);
    hide Slewed;
  }

  lemma RemainingSlowly(v: View, current: Scheduled, x: real, y: real)
    requires v.slewFramesPerSecond >= 0.0 && x <= y
    ensures AbsR(IdealRemaining(v, current, y) - IdealRemaining(v, current, x)) * 4_294_967_296.0
         <= AbsR(Times(Velocity(v.timeline.format, current.anchor.rate), y - x)) * 0.1
  {
    hide SlewCap, Velocity, LeftOver, Slewed, Times;
    var speed := Velocity(v.timeline.format, current.anchor.rate);
    var slew := SlewCap(v.slewFramesPerSecond, v.timeline.format, current.anchor.rate);
    SlewBelowTenth(v.slewFramesPerSecond, v.timeline.format, current.anchor.rate);
    var a, b := IdealElapsed(v, x), IdealElapsed(v, y);
    LeftOverSlowly(v.correctionFrames, a, b, slew);
    TenthOfTravel(slew, speed, y - x, b - a);
  }

  lemma TenthOfTravel(slew: real, speed: real, span: real, elapsed: real)
    requires 0.0 <= slew * 4.294967296 <= AbsR(speed) * 0.1 && 0.0 <= elapsed <= span
    ensures Slewed(elapsed, slew) * 4_294_967_296.0 <= AbsR(Times(speed, span)) * 0.1
  {
    var q, w := slew * span, span * speed;
    MulMonotoneR(slew, elapsed, span);
    MulMonotoneR(span, slew * 4.294967296, AbsR(speed) * 0.1);
    MagnitudeOfProduct(span, speed);
    assert speed * span == w;
    Regroup(elapsed, slew);
    assert span * (slew * 4.294967296) == q * 4.294967296;
    assert span * (AbsR(speed) * 0.1) == (span * AbsR(speed)) * 0.1;
  }

  lemma Regroup(elapsed: real, slew: real)
    ensures elapsed / 1_000_000_000.0 * slew * 4_294_967_296.0 == (slew * elapsed) * 4.294967296
  {
    var e := elapsed / 1_000_000_000.0;
    assert elapsed == e * 1_000_000_000.0;
    assert slew * (e * 1_000_000_000.0) == (slew * e) * 1_000_000_000.0;
  }

  /** Between controls, at any drift within 500 ppm and any slew, the trajectory travels between
      0.8995 and 1.1005 of the distance its rate asks for, in the rate's direction. */
  lemma TravelsWithRate(v: View, current: Scheduled, x: real, y: real)
    requires v.slewFramesPerSecond >= 0.0 && -0.0005 <= v.mapping.drift <= 0.0005 && x <= y
    ensures var w := Times(Velocity(v.timeline.format, current.anchor.rate), y - x);
            var travelled := Ideal(v, current, y) - Ideal(v, current, x);
            && (w >= 0.0 ==> 0.8995 * w <= travelled <= 1.1005 * w)
            && (w <= 0.0 ==> 1.1005 * w <= travelled <= 0.8995 * w)
  {
    hide IdealRemaining, Velocity, Fixed, IdealTime, Times;
    var speed, d := Velocity(v.timeline.format, current.anchor.rate), v.mapping.drift;
    var w := Times(speed, y - x);
    RemainingSlowly(v, current, x, y);
    TimeTravelled(v.mapping, x, y);
    DriftShare(w, d);
    var a := current.anchor.timeNs as real;
    ProductDifference(speed, IdealTime(v.mapping, y) - a, IdealTime(v.mapping, x) - a, y - x, d);
  }

  lemma DriftShare(w: real, d: real)
    requires -0.0005 <= d <= 0.0005
    ensures AbsR(Times(w, d)) <= AbsR(w) * 0.0005
  {
    ScaleBound(w, d, 0.0005);
  }

  lemma TimeTravelled(m: ClockMapping, x: real, y: real)
    ensures IdealTime(m, y) - IdealTime(m, x) == (y - x) + Times(y - x, m.drift)
  {
    var r := m.referenceNs as real;
    assert (y - r) * m.drift - (x - r) * m.drift == (y - x) * m.drift;
  }

  lemma ProductDifference(k: real, b: real, a: real, span: real, d: real)
    requires b - a == span + Times(span, d)
    ensures Times(k, b) - Times(k, a) == Times(k, span) + Times(Times(k, span), d)
  {
    assert k * b - k * a == k * (b - a);
    assert k * (span + span * d) == k * span + k * (span * d);
    assert k * (span * d) == (k * span) * d;
  }

  /** Slewing never stops or reverses playback, and a paused trajectory does not move. */
  lemma NeverReverses(v: View, current: Scheduled, x: real, y: real)
    requires v.slewFramesPerSecond >= 0.0 && -0.0005 <= v.mapping.drift <= 0.0005 && x < y
    ensures current.anchor.rate.numerator > 0 ==> Ideal(v, current, x) < Ideal(v, current, y)
    ensures current.anchor.rate.numerator < 0 ==> Ideal(v, current, x) > Ideal(v, current, y)
    ensures current.anchor.rate.numerator == 0 ==> Ideal(v, current, x) == Ideal(v, current, y)
  {
    hide Ideal, Velocity, Times;
    TravelsWithRate(v, current, x, y);
    VelocitySign(v.timeline.format, current.anchor.rate);
    TimesSign(Velocity(v.timeline.format, current.anchor.rate), y - x);
  }

  // ---------------------------------------------------------------- the integer evaluation

  /** Nothing is clamped or saturated in evaluating a view at a local time. */
  predicate InRange(v: View, current: Scheduled, local: nat) {
    var time := v.mapping.LeaderTime(local);
    var at := Fixed(current.anchor.position)
              + Delta(time - current.anchor.timeNs, v.timeline.format, current.anchor.rate);
    && 0.0 <= IdealTime(v.mapping, local as real) <= LEADER_TIME_MAX
    && I64_MIN <= time - current.anchor.timeNs <= I64_MAX
    && MIN_FIXED <= at <= MAX_FIXED
    && MIN_FIXED <= at + Trunc(Remaining(v, current, local) * 4_294_967_296.0) <= MAX_FIXED
  }

  lemma RemainingIsIdeal(v: View, current: Scheduled, local: nat)
    ensures Remaining(v, current, local) == IdealRemaining(v, current, local as real)
  {
    hide SlewCap, WorkedOff, LeftOver;
    assert Monus(local, v.correctionAt) as real == IdealElapsed(v, local as real);
    SameLeftOver(v.correctionFrames, Monus(local, v.correctionAt),
                 SlewCap(v.slewFramesPerSecond, v.timeline.format, current.anchor.rate));
  }

  lemma SameLeftOver(frames: real, elapsed: nat, slew: real)
    ensures WorkedOff(frames, elapsed, slew) == LeftOver(frames, elapsed as real, slew)
  {
  }

  lemma DeltaNearTravel(elapsed: int, f: Format, r: Speed)
    ensures -1.0 < Delta(elapsed, f, r) as real - Times(Velocity(f, r), elapsed as real) < 1.0
  {
    DeltaIsOneDivision(elapsed, f, r);
    var num, den := Product(elapsed, f, r) * 0x1_0000_0000, Divisor(f, r);
    ProductReal(elapsed, f.numerator, r.numerator);
    hide Velocity, Delta, TruncDiv, Divisor, Times, Product;
    TruncDivNear(num, den);
    VelocityTimesDivisor(f, r);
    QuotientIsTravel(num as real, elapsed as real, Velocity(f, r), den as real, (f.numerator * r.numerator) as real);
  }

  lemma ProductReal(e: int, n: int, m: int)
    ensures (e * n * m * 0x1_0000_0000) as real == Times(e as real, (n * m) as real) * 4_294_967_296.0
  {
    assert e * n * m == e * (n * m);
    assert (e * (n * m)) as real == e as real * (n * m) as real;
  }

  lemma VelocityTimesDivisor(f: Format, r: Speed)
    ensures Times(Velocity(f, r), Divisor(f, r) as real) == (f.numerator * r.numerator) as real * 4_294_967_296.0
  {
    hide Velocity, Divisor, Times, Gcd;
    var n, m, a, b := f.numerator as real, r.numerator as real, f.denominator as real, r.denominator as real;
    QuotientForm(f, r);
    DivisorForm(f, r);
    RealProduct(f.denominator, r.denominator);
    RealProduct(f.numerator, r.numerator);
    ThousandMillion(f.denominator * r.denominator);
    VelocityAlgebra(n, a, m, b);
  }

  lemma QuotientForm(f: Format, r: Speed)
    ensures Velocity(f, r)
         == f.numerator as real / f.denominator as real * (r.numerator as real / r.denominator as real) * 4.294967296
  {
    hide Gcd;
  }

  lemma DivisorForm(f: Format, r: Speed)
    ensures Divisor(f, r) == 1_000_000_000 * (f.denominator * r.denominator)
  {
    hide Gcd;
  }

  lemma ThousandMillion(d: int)
    ensures (1_000_000_000 * d) as real == 1_000_000_000.0 * d as real
  {
  }

  lemma VelocityAlgebra(n: real, a: real, m: real, b: real)
    requires a > 0.0 && b > 0.0
    ensures Times(n / a * (m / b) * 4.294967296, 1_000_000_000.0 * (a * b)) == n * m * 4_294_967_296.0
  {
    DividedBack(n, a, n / a);
    DividedBack(m, b, m / b);
    FourFactors(n / a, m / b, a, b);
    Rescale(n / a * (m / b), a * b);
  }

  lemma DividedBack(n: real, d: real, q: real)
    requires d > 0.0 && q == n / d
    ensures q * d == n
  {
  }

  lemma RealProduct(n: int, m: int)
    ensures (n * m) as real == n as real * m as real
  {
  }

  lemma Rescale(p: real, q: real)
    ensures (p * 4.294967296) * (1_000_000_000.0 * q) == (p * q) * 4_294_967_296.0
  {
  }

  lemma FourFactors(x: real, y: real, a: real, b: real)
    ensures (x * y) * (a * b) == (x * a) * (y * b)
  {
    assert (x * y) * (a * b) == x * (y * (a * b));
    assert y * (a * b) == a * (y * b);
    assert x * (a * (y * b)) == (x * a) * (y * b);
  }

  lemma QuotientIsTravel(num: real, e: real, v: real, den: real, n: real)
    requires den > 0.0 && Times(v, den) == n * 4_294_967_296.0 && num == Times(e, n) * 4_294_967_296.0
    ensures num / den == Times(v, e)
  {
    assert num == e * (n * 4_294_967_296.0);
    assert e * (v * den) == (v * e) * den;
    assert (v * e) * den / den == v * e;
  }

  /** Away from saturation the integer output is within two Q32 units and one leader
      nanosecond of travel of the untruncated trajectory. */
  lemma EvaluatesNearIdeal(v: View, local: nat)
    requires v.sync != Uninitialized && InRange(v, EffectiveAt(v.timeline, v.mapping.LeaderTime(local)), local)
    ensures var current := EffectiveAt(v.timeline, v.mapping.LeaderTime(local));
            AbsR(OutputFixed(v, local) as real - Ideal(v, current, local as real))
            < 2.0 + AbsR(Velocity(v.timeline.format, current.anchor.rate))
  {
    hide Velocity, Delta, Remaining, IdealRemaining, OutputFixed, EffectiveAt, IdealTime, Fixed, Times, Trunc;
    var time := v.mapping.LeaderTime(local);
    var current := EffectiveAt(v.timeline, time);
    var f, a := v.timeline.format, current.anchor;
    var elapsed := time - a.timeNs;
    DeltaNearTravel(elapsed, f, a.rate);
    RemainingIsIdeal(v, current, local);
    TruncNear(IdealRemaining(v, current, local as real) * 4_294_967_296.0);
    OutputUnclamped(v, current, local);
    TimeTruncated(v.mapping, local);
    hide InRange;
    Straddle(Velocity(f, a.rate), IdealTime(v.mapping, local as real) - a.timeNs as real, elapsed as real);
  }

  lemma TimeTruncated(m: ClockMapping, local: nat)
    requires 0.0 <= IdealTime(m, local as real) <= LEADER_TIME_MAX
    ensures 0.0 <= IdealTime(m, local as real) - m.LeaderTime(local) as real < 1.0
  {
    var x := (local as real - m.referenceNs as real) * m.drift;
    assert IdealTime(m, local as real) == local as real + m.OffsetAt(local);
  }

  lemma OutputUnclamped(v: View, current: Scheduled, local: nat)
    requires v.sync != Uninitialized && current == EffectiveAt(v.timeline, v.mapping.LeaderTime(local))
    requires InRange(v, current, local)
    ensures OutputFixed(v, local)
         == Fixed(current.anchor.position)
            + Delta(v.mapping.LeaderTime(local) - current.anchor.timeNs, v.timeline.format, current.anchor.rate)
            + Trunc(Remaining(v, current, local) * 4_294_967_296.0)
  {
    hide Delta, Remaining, EffectiveAt, Fixed, Advance, Trunc;
    var elapsed := v.mapping.LeaderTime(local) - current.anchor.timeNs;
    AdvanceExact(current.anchor.position, elapsed, v.timeline.format, current.anchor.rate);
  }

  lemma Straddle(k: real, b: real, a: real)
    requires 0.0 <= b - a < 1.0
    ensures AbsR(Times(k, b) - Times(k, a)) <= AbsR(k)
  {
    assert k * b - k * a == k * (b - a);
    ScaleBound(k, b - a, 1.0);
  }
}
