/** How late a boundary can be, when it is exact although a slew opposes playback, and what its
    uncertainty covers. */
module BoundaryBounds {
  import opened Arithmetic
  import opened Timecode
  import opened Clock
  import opened Timelines
  import opened Follower
  import opened Trajectory
  import opened Boundary

  // ---------------------------------------------------------------- lateness

  /** The last time at which a frame can have been missed. */
  function LastMissed(v: View, local: nat): nat {
    match NextBoundary(v, local)
    case Some(b) => b.local - (if b.local > 0 then 1 else 0)
    case None => I64_MAX
  }

  function Entry(v: View, local: nat): Scheduled {
    EffectiveAt(v.timeline, v.mapping.LeaderTime(local))
  }

  function Pace(v: View, local: nat): real {
    Velocity(v.timeline.format, Entry(v, local).anchor.rate)
  }

  /** Two readings in one entry that contradict the order of playback are close together. */
  lemma DipIsShort(v: View, a: nat, b: nat, target: int)
    requires Running(v) && a <= b && Entry(v, a) == Entry(v, b)
    requires InRange(v, Entry(v, a), a) && InRange(v, Entry(v, a), b)
    requires || (Pace(v, a) > 0.0 && OutputFixed(v, a) >= target > OutputFixed(v, b))
             || (Pace(v, a) < 0.0 && OutputFixed(v, a) <= target < OutputFixed(v, b))
    ensures 0.8995 * Times(AbsR(Pace(v, a)), (b - a) as real) < 4.0 + 2.0 * AbsR(Pace(v, a))
  {
    hide InRange, OutputFixed, Ideal, Velocity, ValidTimeline, EffectiveAt, Times;
    var current := Entry(v, a);
    EvaluatesNearIdeal(v, a);
    EvaluatesNearIdeal(v, b);
    TravelsWithRate(v, current, a as real, b as real);
    TimesSign(Pace(v, a), (b - a) as real);
    NegatedTimes(Pace(v, a), (b - a) as real);
    assert b as real - a as real == (b - a) as real;
  }

  lemma NegatedTimes(x: real, y: real)
    ensures Times(-x, y) == -Times(x, y)
  {
  }

  /** For every running view and any correction, in either direction: if the next frame was reached
      at some time before the deadline, that was so shortly before it that 0.8995 of the motion
      since is less than four Q32 units and two nanoseconds of travel. */
  lemma BoundaryLateness(v: View, local: nat, c: nat)
    requires Running(v) && local < c <= LastMissed(v, local) && FrameReached(v, local, c)
    requires InRange(v, Entry(v, local), c) && InRange(v, Entry(v, local), LastMissed(v, local))
    ensures 0.8995 * Times(AbsR(Pace(v, local)), (LastMissed(v, local) - c) as real) < 4.0 + 2.0 * AbsR(Pace(v, local))
  {
    hide Evaluate, OutputFixed, NextBoundary, LastMissed, InRange, Velocity, Ahead, EffectiveAt, Times, FrameReached,
      Running;
    MissedAtEnd(v, local, c);
    ReadingsAround(v, local, c);
    ReadingsAround(v, local, LastMissed(v, local));
    PaceSign(v, local);
    DipIsShort(v, c, LastMissed(v, local), Ahead(v, local));
  }

  lemma MissedAtEnd(v: View, local: nat, c: nat)
    requires Running(v) && local < c <= LastMissed(v, local)
    ensures !FrameReached(v, local, LastMissed(v, local))
    ensures Entry(v, c) == Entry(v, local) && Entry(v, LastMissed(v, local)) == Entry(v, local)
  {
    hide NextBoundary, FrameReached, Running, EffectiveAt, Describes;
    NextBoundarySound(v, local);
    assert !ControlTaken(v, local, c) && !ControlTaken(v, local, LastMissed(v, local));
  }

  /** Whether the next frame is reached, said of the output. */
  lemma ReadingsAround(v: View, local: nat, t: nat)
    requires Running(v)
    ensures var rate := Entry(v, local).anchor.rate;
            FrameReached(v, local, t) <==>
              && rate.numerator != 0
              && (if rate.numerator > 0 then OutputFixed(v, t) >= Ahead(v, local)
                  else OutputFixed(v, t) <= Ahead(v, local))
  {
    hide Ahead, OutputFixed, ValidTimeline;
    EvaluatedFixed(v, t);
    assert Evaluate(v, local).rate == Entry(v, local).anchor.rate;
  }

  lemma PaceSign(v: View, local: nat)
    ensures var rate := Entry(v, local).anchor.rate;
            && (rate.numerator > 0 ==> Pace(v, local) > 0.0)
            && (rate.numerator < 0 ==> Pace(v, local) < 0.0)
            && (rate.numerator == 0 ==> Pace(v, local) == 0.0)
  {
    hide Velocity, EffectiveAt;
    VelocitySign(v.timeline.format, Entry(v, local).anchor.rate);
  }

  /** From six Q32 units a nanosecond on, a deadline is less than four nanoseconds late. At 24
      frames a second and normal speed the pace is 103 units. */
  lemma AtMostThreeNanosecondsLate(v: View, local: nat, c: nat)
    requires Running(v) && local < c <= LastMissed(v, local) && FrameReached(v, local, c)
    requires InRange(v, Entry(v, local), c) && InRange(v, Entry(v, local), LastMissed(v, local))
    requires AbsR(Pace(v, local)) >= 6.0
    ensures LastMissed(v, local) + 1 - c <= 3
  {
    hide LastMissed, Pace, Running, FrameReached, InRange, Times;
    BoundaryLateness(v, local, c);
    FewNanoseconds(AbsR(Pace(v, local)), LastMissed(v, local) - c);
  }

  lemma FewNanoseconds(pace: real, gap: nat)
    requires pace >= 6.0 && 0.8995 * Times(pace, gap as real) < 4.0 + 2.0 * pace
    ensures gap <= 2
  {
    if gap >= 3 {
      MulMonotoneR(pace, 3.0, gap as real);
    }
  }

  // ---------------------------------------------------------------- exactness without stalls

  /** Evaluation at a local time clamps and saturates nothing before the correction is added. */
  predicate Unclamped(v: View, current: Scheduled, local: nat) {
    var elapsed := v.mapping.LeaderTime(local) - current.anchor.timeNs;
    && 0.0 <= IdealTime(v.mapping, local as real) <= LEADER_TIME_MAX
    && I64_MIN <= elapsed <= I64_MAX
    && MIN_FIXED <= Fixed(current.anchor.position) + Delta(elapsed, v.timeline.format, current.anchor.rate) <= MAX_FIXED
  }

  /** One nanosecond moves a truncated quotient by more than its exact part less one. */
  lemma QuotientStep(a: int, k: int, c: int)
    requires c > 0 && k >= 0 && (a >= 0 || a + k <= 0)
    ensures TruncDiv(a + k, c) as real - TruncDiv(a, c) as real > k as real / c as real - 1.0
  {
    TruncDivSpec(a, c);
    TruncDivSpec(a + k, c);
    var d := TruncDiv(a + k, c) - TruncDiv(a, c);
    assert c * d == c * TruncDiv(a + k, c) - c * TruncDiv(a, c);
    hide TruncDiv;
    assert c * d > k - c;
    MoreThan(c as real, d as real, k as real);
  }

  lemma MoreThan(c: real, d: real, k: real)
    requires c > 0.0 && c * d > k - c
    ensures d > k / c - 1.0
  {
    var x := k / c;
    assert c * x == k;
    if d <= x - 1.0 {
      MulMonotoneR(c, d, x - 1.0);
    }
  }

  lemma ForwardStep(e: int, f: Format, r: Speed)
    requires r.numerator > 0
    ensures Delta(e + 1, f, r) as real - Delta(e, f, r) as real > Velocity(f, r) - 1.0
  {
    DeltaIsOneDivision(e, f, r);
    DeltaIsOneDivision(e + 1, f, r);
    VelocityTimesDivisor(f, r);
    var k, c := f.numerator * r.numerator, Divisor(f, r);
    ProductStep(e, f.numerator, r.numerator);
    hide Delta, Velocity, Divisor, TruncDiv;
    QuotientStep(Product(e, f, r) * 0x1_0000_0000, k * 0x1_0000_0000, c);
    PerNanosecond(Velocity(f, r), c as real, k as real);
    assert (k * 0x1_0000_0000) as real == k as real * 4_294_967_296.0;
  }

  lemma ProductStep(e: int, n: nat, m: int)
    requires m > 0
    ensures (e + 1) * n * m == e * n * m + n * m
    ensures e >= 0 ==> e * n * m >= 0
    ensures e < 0 ==> e * n * m + n * m <= 0
  {
    assert (e + 1) * n == e * n + n;
    assert (e * n + n) * m == e * n * m + n * m;
    MulNonNegative(n, m);
    if e >= 0 {
      MulNonNegative(e, n);
      MulNonNegative(e * n, m);
    } else {
      MulNonNegative(-(e + 1), n);
      MulNonNegative(-(e + 1) * n, m);
      assert -(e + 1) * n * m == -((e + 1) * n * m);
    }
  }

  lemma PerNanosecond(v: real, c: real, k: real)
    requires c > 0.0 && Times(v, c) == k * 4_294_967_296.0
    ensures k * 4_294_967_296.0 / c == v
  {
  }

  /** One leader nanosecond moves the fixed-point trajectory by more than its pace less one unit. */
  lemma TravelStep(e: int, f: Format, r: Speed)
    ensures r.numerator > 0 ==> Delta(e + 1, f, r) as real - Delta(e, f, r) as real > Velocity(f, r) - 1.0
    ensures r.numerator < 0 ==> Delta(e + 1, f, r) as real - Delta(e, f, r) as real < Velocity(f, r) + 1.0
  {
    hide Delta, Velocity, Gcd;
    if r.numerator > 0 {
      ForwardStep(e, f, r);
    } else if r.numerator < 0 {
      DeltaOdd(e, f, r);
      DeltaOdd(e + 1, f, r);
      VelocityOdd(f, r);
      ForwardStep(e, f, Reversed(r));
    }
  }

  function Reversed(r: Speed): Speed {
    Rate(-r.numerator, r.denominator)
  }

  lemma VelocityOdd(f: Format, r: Speed)
    ensures Velocity(f, Reversed(r)) == -Velocity(f, r)
  {
    ReversedValue(r);
    hide RateValue, Fps, ValidRate, Reversed;
    NegatedTimes(RateValue(r), Fps(f));
    AsTimes(Fps(f), RateValue(r));
    AsTimes(Fps(f), RateValue(Reversed(r)));
  }

  lemma AsTimes(x: real, y: real)
    ensures x * y == Times(y, x)
  {
  }

  lemma ReversedValue(r: Speed)
    ensures RateValue(Reversed(r)) == -RateValue(r)
  {
    hide Gcd;
    NegatedQuotient(r.numerator as real, r.denominator as real);
  }

  lemma NegatedQuotient(n: real, d: real)
    requires d > 0.0
    ensures -n / d == -(n / d)
  {
  }

  /** Leader time advances with local time when the drift is not negative. */
  lemma NoStall(m: ClockMapping, t: nat)
    requires 0.0 <= m.drift && 0.0 <= IdealTime(m, t as real) && IdealTime(m, (t + 1) as real) <= LEADER_TIME_MAX
    ensures m.LeaderTime(t + 1) >= m.LeaderTime(t) + 1
  {
    TimeTravelled(m, t as real, (t + 1) as real);
    hide IdealTime;
    assert Times((t + 1) as real - t as real, m.drift) == m.drift;
    TimeTruncated(m, t);
    TimeTruncated(m, t + 1);
  }

  /** What the correction gives up in a nanosecond is at most a tenth of the motion and a unit. */
  lemma CorrectionStep(v: View, current: Scheduled, t: nat)
    requires v.slewFramesPerSecond >= 0.0
    ensures var a, b := Remaining(v, current, t) * 4_294_967_296.0, Remaining(v, current, t + 1) * 4_294_967_296.0;
            AbsR(Trunc(b) as real - Trunc(a) as real)
            < AbsR(Velocity(v.timeline.format, current.anchor.rate)) * 0.1 + 1.0
  {
    hide Remaining, IdealRemaining, Velocity, Trunc;
    var speed := Velocity(v.timeline.format, current.anchor.rate);
    RemainingIsIdeal(v, current, t);
    RemainingIsIdeal(v, current, t + 1);
    RemainingSlowly(v, current, t as real, (t + 1) as real);
    assert Times(speed, (t + 1) as real - t as real) == speed;
    RemainingShrinks(v, current, t, t + 1);
    var a, b := Remaining(v, current, t) * 4_294_967_296.0, Remaining(v, current, t + 1) * 4_294_967_296.0;
    TruncStep(a, b);
  }

  /** Truncation adds less than one to the difference of values of one sign. */
  lemma TruncStep(a: real, b: real)
    requires (a <= 0.0 && b <= 0.0) || (a >= 0.0 && b >= 0.0)
    ensures AbsR(Trunc(b) as real - Trunc(a) as real) < AbsR(b - a) + 1.0
  {
  }

  /** At a pace of a unit per nanosecond or more a correction never undoes a whole step. */
  lemma StepOutweighs(step: int, correction: int, pace: real)
    requires pace >= 1.0 && step as real > pace - 1.0 && AbsR(correction as real) < pace * 0.1 + 1.0
    ensures step + correction >= 0 && step - correction >= 0
  {
    if pace < 10.0 {
      assert step >= 1 && -1 <= correction <= 1;
    }
  }

  /** Without stalls and at a pace of at least one unit per nanosecond, the output never moves
      against playback from one nanosecond to the next, whatever the correction. */
  lemma OutputStep(v: View, current: Scheduled, t: nat)
    requires Running(v) && v.mapping.drift >= 0.0
    requires Entry(v, t) == current && Entry(v, t + 1) == current
    requires Unclamped(v, current, t) && Unclamped(v, current, t + 1)
    requires AbsR(Velocity(v.timeline.format, current.anchor.rate)) >= 1.0
    ensures current.anchor.rate.numerator > 0 ==> OutputFixed(v, t) <= OutputFixed(v, t + 1)
    ensures current.anchor.rate.numerator < 0 ==> OutputFixed(v, t) >= OutputFixed(v, t + 1)
  {
    hide Delta, Velocity, Remaining, EffectiveAt, Fixed, Trunc, IdealTime, OutputFixed, Saturate, ValidTimeline;
    var f, a := v.timeline.format, current.anchor;
    var e, e' := v.mapping.LeaderTime(t) - a.timeNs, v.mapping.LeaderTime(t + 1) - a.timeNs;
    NoStall(v.mapping, t);
    OutputSum(v, current, t);
    OutputSum(v, current, t + 1);
    TravelStep(e, f, a.rate);
    DeltaMonotone(e + 1, e', f, a.rate);
    CorrectionStep(v, current, t);
    VelocitySign(f, a.rate);
    var p, q := Correction(v, current, t), Correction(v, current, t + 1);
    var pace := AbsR(Velocity(f, a.rate));
    if a.rate.numerator > 0 {
      StepOutweighs(Delta(e + 1, f, a.rate) - Delta(e, f, a.rate), q - p, pace);
      assert Delta(e', f, a.rate) + q >= Delta(e, f, a.rate) + p;
      SaturateMonotone(Fixed(a.position) + Delta(e, f, a.rate) + p, Fixed(a.position) + Delta(e', f, a.rate) + q);
    } else if a.rate.numerator < 0 {
      StepOutweighs(Delta(e, f, a.rate) - Delta(e + 1, f, a.rate), q - p, pace);
      assert Delta(e', f, a.rate) + q <= Delta(e, f, a.rate) + p;
      SaturateMonotone(Fixed(a.position) + Delta(e', f, a.rate) + q, Fixed(a.position) + Delta(e, f, a.rate) + p);
    }
  }

  /** The correction in whole units, as it enters the output. */
  function Correction(v: View, current: Scheduled, t: nat): int {
    Trunc(Remaining(v, current, t) * 4_294_967_296.0)
  }

  lemma OutputSum(v: View, current: Scheduled, t: nat)
    requires v.sync != Uninitialized && current == Entry(v, t) && Unclamped(v, current, t)
    ensures OutputFixed(v, t)
         == Saturate(Fixed(current.anchor.position)
                     + Delta(v.mapping.LeaderTime(t) - current.anchor.timeNs, v.timeline.format, current.anchor.rate)
                     + Correction(v, current, t))
  {
    hide Delta, Remaining, EffectiveAt, Fixed, Advance, Trunc;
    var elapsed := v.mapping.LeaderTime(t) - current.anchor.timeNs;
    AdvanceExact(current.anchor.position, elapsed, v.timeline.format, current.anchor.rate);
  }

  lemma IdealTimeOrder(m: ClockMapping, x: nat, y: nat)
    requires SlowClock(m) && x <= y
    ensures IdealTime(m, x as real) <= IdealTime(m, y as real)
  {
    TimeTravelled(m, x as real, y as real);
    ScaleBound(y as real - x as real, m.drift, 0.0005);
    assert Times(y as real - x as real, m.drift) == (y as real - x as real) * m.drift;
    hide IdealTime;
  }

  lemma UnclampedBetween(v: View, current: Scheduled, a: nat, b: nat, t: nat)
    requires SlowClock(v.mapping) && a <= t <= b && Unclamped(v, current, a) && Unclamped(v, current, b)
    ensures Unclamped(v, current, t)
  {
    hide Delta, Fixed, IdealTime;
    var f, r, from := v.timeline.format, current.anchor.rate, current.anchor.timeNs;
    IdealTimeOrder(v.mapping, a, t);
    IdealTimeOrder(v.mapping, t, b);
    LeaderTimeMonotone(v.mapping, a, t);
    LeaderTimeMonotone(v.mapping, t, b);
    DeltaMonotone(v.mapping.LeaderTime(a) - from, v.mapping.LeaderTime(t) - from, f, r);
    DeltaMonotone(v.mapping.LeaderTime(t) - from, v.mapping.LeaderTime(b) - from, f, r);
  }

  /** What the caller checks before the search: leader time never stalls, the pace is at least one
      unit per nanosecond, and from now until the correction has been worked off nothing is clamped. */
  predicate Unstalled(v: View, local: nat, settled: nat) {
    && v.mapping.drift >= 0.0
    && AbsR(Pace(v, local)) >= 1.0
    && local <= settled && Remaining(v, Entry(v, local), settled) == 0.0
    && Unclamped(v, Entry(v, local), local) && Unclamped(v, Entry(v, local), settled)
  }

  lemma NextOutput(v: View, local: nat, settled: nat, t: nat)
    requires Running(v) && Unstalled(v, local, settled) && local <= t
    requires Entry(v, t) == Entry(v, local) && Entry(v, t + 1) == Entry(v, local)
    ensures Entry(v, local).anchor.rate.numerator > 0 ==> OutputFixed(v, t) <= OutputFixed(v, t + 1)
    ensures Entry(v, local).anchor.rate.numerator < 0 ==> OutputFixed(v, t) >= OutputFixed(v, t + 1)
  {
    hide OutputFixed, Velocity, EffectiveAt, Remaining, Unclamped;
    var current := Entry(v, local);
    if t < settled {
      UnclampedBetween(v, current, local, settled, t);
      UnclampedBetween(v, current, local, settled, t + 1);
      OutputStep(v, current, t);
    } else {
      RemainingShrinks(v, current, settled, t);
      OutputOrder(v, t, t + 1);
    }
  }

  lemma {:induction false} OutputChain(v: View, local: nat, settled: nat, x: nat, y: nat)
    requires Running(v) && Unstalled(v, local, settled) && local <= x <= y
    requires forall t: nat :: local < t <= y ==> !ControlTaken(v, local, t)
    ensures Entry(v, local).anchor.rate.numerator > 0 ==> OutputFixed(v, x) <= OutputFixed(v, y)
    ensures Entry(v, local).anchor.rate.numerator < 0 ==> OutputFixed(v, x) >= OutputFixed(v, y)
    decreases y - x
  {
    if x < y {
      OutputChain(v, local, settled, x, y - 1);
      hide OutputFixed, Unstalled, Running, EffectiveAt;
      assert !ControlTaken(v, local, y) && (y - 1 > local ==> !ControlTaken(v, local, y - 1));
      NextOutput(v, local, settled, y - 1);
    }
  }

  lemma StaysReachedUnstalled(v: View, local: nat, settled: nat, end: nat)
    requires Running(v) && Unstalled(v, local, settled)
    requires forall t: nat :: local < t <= end ==> !ControlTaken(v, local, t)
    ensures StaysReached(v, local, end)
  {
    hide Ahead, ControlTaken, Unstalled, EffectiveAt, OutputFixed, ValidTimeline;
    assert Evaluate(v, local).rate == Entry(v, local).anchor.rate;
    hide Evaluate;
    var target, forward := Ahead(v, local), Evaluate(v, local).rate.numerator > 0;
    if Evaluate(v, local).rate.numerator != 0 {
      forall x: nat, y: nat | local + 1 <= x <= y <= end && Passed(v, target, forward, x)
        ensures Passed(v, target, forward, y)
      {
        EvaluatedFixed(v, x);
        EvaluatedFixed(v, y);
        OutputChain(v, local, settled, x, y);
      }
    }
  }

  /** On a clock that does not run slow the boundary is the first whatever the correction. */
  lemma NextBoundaryUnstalled(v: View, local: nat, settled: nat)
    requires Running(v) && Unstalled(v, local, settled)
    ensures IsFirst(v, local, NextBoundary(v, local))
  {
    hide NextBoundary, ControlTaken, Unstalled, Running, LastFrameTime, IsFirst, StaysReached;
    NoControlBefore(v, local);
    StaysReachedUnstalled(v, local, settled, LastFrameTime(v, local));
    FirstIfStays(v, local);
  }

  // ---------------------------------------------------------------- uncertainty in local time

  /** What the clock admits to being wrong by at a local time. */
  function ClockBound(v: View, local: nat): Bound {
    if v.localClock then Within(0.0) else v.mapping.UncertaintyAt(local)
  }

  lemma NothingLeft(v: View, current: Scheduled, x: real, y: real)
    requires v.slewFramesPerSecond >= 0.0 && x <= y && IdealRemaining(v, current, x) == 0.0
    ensures IdealRemaining(v, current, y) == 0.0
  {
    hide SlewCap;
    var slew := SlewCap(v.slewFramesPerSecond, v.timeline.format, current.anchor.rate);
    SlewCapNonNegative(v.slewFramesPerSecond, v.timeline.format, current.anchor.rate);
    if current.discontinuity == v.correctionDiscontinuity {
      StaysZero(v.correctionFrames, IdealElapsed(v, x), IdealElapsed(v, y), slew);
    }
  }

  lemma StaysZero(frames: real, a: real, b: real, slew: real)
    requires slew >= 0.0 && a <= b && LeftOver(frames, a, slew) == 0.0
    ensures LeftOver(frames, b, slew) == 0.0
  {
    MulMonotoneR(slew, a / 1_000_000_000.0, b / 1_000_000_000.0);
    assert Slewed(a, slew) <= Slewed(b, slew);
    hide Slewed;
    assert MaxR(AbsR(frames) - Slewed(a, slew), 0.0) == 0.0;
  }

  /** How far the untruncated trajectory moves at least, given what a slew may take away. */
  lemma LeastTravel(v: View, local: nat, x: real, y: real)
    requires Running(v) && local as real <= x <= y
    ensures var current := Entry(v, local);
            var moved := Ideal(v, current, y) - Ideal(v, current, x);
            var least := Times(Times(Pace(v, local), y - x), LeastRate(v, local, Frame));
            && (Pace(v, local) >= 0.0 ==> moved >= least)
            && (Pace(v, local) <= 0.0 ==> moved <= least)
  {
    hide IdealRemaining, Velocity, Fixed, IdealTime, Times, ValidTimeline, EffectiveAt, OutputFixed, Remaining;
    var current, speed, d := Entry(v, local), Pace(v, local), v.mapping.drift;
    var w := Times(speed, y - x);
    RemainingSlowly(v, current, x, y);
    TimeTravelled(v.mapping, x, y);
    var a := current.anchor.timeNs as real;
    ProductDifference(speed, IdealTime(v.mapping, y) - a, IdealTime(v.mapping, x) - a, y - x, d);
    TimesSign(speed, y - x);
    TimesSign(-speed, y - x);
    NegatedTimes(speed, y - x);
    assert Evaluate(v, local).correctionFrames == Remaining(v, current, local);
    if Remaining(v, current, local) == 0.0 {
      RemainingIsIdeal(v, current, local);
      NothingLeft(v, current, local as real, x);
      NothingLeft(v, current, local as real, y);
      Scaled(w, d, 0.0);
    } else {
      Scaled(w, d, 0.1);
    }
    hide Evaluate;
  }

  lemma Scaled(w: real, d: real, less: real)
    ensures Times(w, 1.0 + d - less) == w + Times(w, d) - w * less
  {
  }

  /** What the clock may be wrong by away from the deadline: its bound there, grown as it grows. */
  ghost predicate ErrorAllowed(v: View, deadline: nat, t: real, error: real) {
    !ClockBound(v, deadline).Grow(Holdover(AbsR(t - deadline as real))).Exceeded(AbsR(error))
  }

  /** The untruncated trajectory at a frame's deadline is at the frame, up to the truncation and
      what is travelled in the last nanosecond. */
  lemma DeadlineAtTarget(v: View, local: nat, b: Deadline)
    requires Running(v) && NextBoundary(v, local) == Some(b) && b.kind == Frame
    requires InRange(v, Entry(v, local), b.local) && InRange(v, Entry(v, local), b.local - 1)
    ensures var due, pace := Ideal(v, Entry(v, local), b.local as real), Pace(v, local);
            var target := Ahead(v, local) as real;
            && pace != 0.0
            && (pace > 0.0 ==> target - 2.0 - pace < due < target + 2.0 + 2.1005 * pace)
            && (pace < 0.0 ==> target - 2.0 + 2.1005 * pace < due < target + 2.0 - pace)
  {
    hide NextBoundary, Ideal, Velocity, EffectiveAt, ValidTimeline, Evaluate, Ahead, Times, InRange, OutputFixed,
      LocalUncertainty;
    var n := b.local;
    NextBoundarySound(v, local);
    assert n - 1 > local ==> !ControlTaken(v, local, n - 1);
    assert !ControlTaken(v, local, n);
    assert Entry(v, n) == Entry(v, local) == Entry(v, n - 1);
    NotYetReached(v, local);
    ReadingsAround(v, local, n);
    ReadingsAround(v, local, n - 1);
    PaceSign(v, local);
    EvaluatesNearIdeal(v, n);
    EvaluatesNearIdeal(v, n - 1);
    TravelsWithRate(v, Entry(v, local), (n - 1) as real, n as real);
    assert Times(Pace(v, local), n as real - (n - 1) as real) == Pace(v, local) by {
      OneStep(Pace(v, local), n);
    }
  }

  lemma OneStep(pace: real, n: nat)
    requires n > 0
    ensures Times(pace, n as real - (n - 1) as real) == pace
  {
    assert n as real - (n - 1) as real == 1.0;
  }

  lemma NotYetReached(v: View, local: nat)
    ensures !FrameReached(v, local, local)
  {
    hide Evaluate;
    var r := Evaluate(v, local);
    TargetIsNext(Fixed(r.position), r.rate.numerator > 0);
    hide Target, Fixed;
  }

  /** Whatever the clock is wrong by, within its growing bound: the trajectory it should have shown
      has reached the frame once the boundary's uncertainty and 0.12 percent of it have gone by, and
      has not passed it that long before, up to truncation. The deadline's own bound does not count
      what the clock may still drift until then; that is what the 0.12 percent are for. */
  lemma UncertaintyCoversFrame(v: View, local: nat, b: Deadline, u: real, error: real, t: real)
    requires Running(v) && NextBoundary(v, local) == Some(b) && b.kind == Frame
    requires b.uncertainty == Within(u) && u >= 0.0
    requires InRange(v, Entry(v, local), b.local) && InRange(v, Entry(v, local), b.local - 1)
    requires ErrorAllowed(v, b.local, t, error) && local as real <= t
    ensures var pace, target := Pace(v, local), Ahead(v, local) as real;
            var truth := Ideal(v, Entry(v, local), t) + Times(pace, error);
            && (pace > 0.0 && t >= b.local as real + 1.0012 * u ==> truth > target - 2.0 - pace)
            && (pace > 0.0 && t <= b.local as real - 1.0012 * u ==> truth < target + 2.0 + 2.1005 * pace)
            && (pace < 0.0 && t >= b.local as real + 1.0012 * u ==> truth < target + 2.0 - pace)
            && (pace < 0.0 && t <= b.local as real - 1.0012 * u ==> truth > target - 2.0 + 2.1005 * pace)
  {
    hide NextBoundary, Ideal, Velocity, EffectiveAt, ValidTimeline, Evaluate, Ahead, Times, InRange;
    DeadlineAtTarget(v, local, b);
    NextBoundarySound(v, local);
    var pace, least, n := Pace(v, local), LeastRate(v, local, Frame), b.local as real;
    var span := AbsR(t - n);
    GrownBound(ClockBound(v, b.local), least, u, error, span);
    if span >= 1.0012 * u {
      if t >= n {
        LeastTravel(v, local, n, t);
      } else {
        LeastTravel(v, local, t, n);
      }
      Outweighs(pace, span, least, error);
    }
  }

  /** An error within a grown bound is outweighed by the least travel over the time it grew in. */
  lemma GrownBound(clock: Bound, least: real, u: real, error: real, span: real)
    requires least >= 0.8995 && span >= 0.0 && clock.Within? && u == clock.ns / least
    requires !clock.Grow(Holdover(span)).Exceeded(AbsR(error))
    ensures span >= 1.0012 * u ==> AbsR(error) <= span * least
  {
    var reach := span * least;
    assert least * u == clock.ns;
    assert AbsR(error) <= clock.ns + span * 0.001;
    if span >= 1.0012 * u {
      MulMonotoneR(least, u, span / 1.0012);
      assert least * (span / 1.0012) == reach / 1.0012;
      MulMonotoneR(span, 0.8995, least);
      assert span * 0.8995 <= reach;
    }
  }

  /** Travel over at least the local uncertainty outweighs the clock's error. */
  lemma Outweighs(pace: real, span: real, least: real, error: real)
    requires span >= 0.0 && least > 0.0 && AbsR(error) <= span * least
    ensures AbsR(Times(pace, error)) <= AbsR(Times(Times(pace, span), least))
    ensures pace >= 0.0 ==> Times(Times(pace, span), least) >= 0.0
    ensures pace <= 0.0 ==> Times(Times(pace, span), least) <= 0.0
  {
    var reach := span * least;
    MulNonNegativeR(span, least);
    ThreeFactors(pace, span, least);
    ScaledMagnitude(pace, error, reach);
    hide Times;
    TimesSign(pace, reach);
  }

  lemma ThreeFactors(x: real, y: real, z: real)
    ensures Times(Times(x, y), z) == Times(x, y * z)
  {
    assert x * y * z == x * (y * z);
  }

  lemma ScaledMagnitude(x: real, d: real, bound: real)
    requires AbsR(d) <= bound
    ensures AbsR(Times(x, d)) <= AbsR(Times(x, bound))
  {
    ScaleBound(x, d, bound);
    MagnitudeOfProduct(bound, x);
    assert AbsR(x) * bound == bound * AbsR(x) && bound * x == x * bound;
  }

  /** A control's deadline is where leader time reaches the control, to a nanosecond. */
  lemma DeadlineAtControl(v: View, local: nat, b: Deadline)
    requires Running(v) && NextBoundary(v, local) == Some(b) && b.kind == ScheduledChange
    ensures var time, due := Entry(v, b.local).anchor.timeNs as real, IdealTime(v.mapping, b.local as real);
            time <= due < time + 1.0005
  {
    hide NextBoundary, EffectiveAt, ValidTimeline, Evaluate, Ahead, IdealTime, LocalUncertainty;
    var n, m := b.local, v.mapping;
    NextBoundarySound(v, local);
    assert n - 1 > local ==> !ControlTaken(v, local, n - 1);
    assert Entry(v, n) != Entry(v, local) == Entry(v, n - 1);
    LeaderTimeMonotone(m, n - 1, n);
    NewlyDue(v.timeline, m.LeaderTime(n - 1), m.LeaderTime(n));
    TimeReached(m, n, Entry(v, n).anchor.timeNs);
    TimeReached(m, n - 1, Entry(v, n).anchor.timeNs);
    TimeTravelled(m, (n - 1) as real, n as real);
    OneNanosecond(m.drift, n);
  }

  lemma OneNanosecond(d: real, n: nat)
    requires n > 0
    ensures Times(n as real - (n - 1) as real, d) == d && n as real - (n - 1) as real == 1.0
  {
  }

  lemma TimeReached(m: ClockMapping, local: nat, time: nat)
    requires 1 <= time <= I64_MAX
    ensures m.LeaderTime(local) >= time <==> IdealTime(m, local as real) >= time as real
  {
    assert IdealTime(m, local as real) == local as real + m.OffsetAt(local);
  }

  lemma NewlyDue(t: Timeline, before: nat, time: nat)
    requires ValidTimeline(t) && before <= time && EffectiveAt(t, before) != EffectiveAt(t, time)
    ensures before < EffectiveAt(t, time).anchor.timeNs <= time && 1 <= EffectiveAt(t, time).anchor.timeNs <= I64_MAX
  {
    EffectiveSound(Active(t), t.scheduled, before);
    EffectiveSound(Active(t), t.scheduled, time);
    var e, f := EffectiveAt(t, before), EffectiveAt(t, time);
    hide EffectiveAt, Effective;
    if f == Active(t) {
      if e in t.scheduled {
        OrderedAbove(Active(t), t.scheduled, e);
      }
    } else {
      OrderedAbove(Active(t), t.scheduled, f);
      if f.anchor.timeNs <= before {
        if e in t.scheduled {
          SameDiscontinuity(Active(t), t.scheduled, e, f);
        }
      }
    }
  }

  /** In an ordered schedule no two entries share a discontinuity. */
  lemma {:induction false} SameDiscontinuity(current: Scheduled, scheduled: seq<Scheduled>, e: Scheduled, f: Scheduled)
    requires Ordered(current, scheduled) && e in scheduled && f in scheduled && e.discontinuity == f.discontinuity
    ensures e == f
    decreases scheduled
  {
    var head, rest := scheduled[0], scheduled[1..];
    assert scheduled == [head] + rest;
    if e in rest {
      OrderedAbove(head, rest, e);
    }
    if f in rest {
      OrderedAbove(head, rest, f);
    }
    if e in rest && f in rest {
      SameDiscontinuity(head, rest, e, f);
    }
  }

  /** The same for a control, of the leader time that decides it. */
  lemma UncertaintyCoversControl(v: View, local: nat, b: Deadline, u: real, error: real, t: real)
    requires Running(v) && NextBoundary(v, local) == Some(b) && b.kind == ScheduledChange
    requires b.uncertainty == Within(u) && u >= 0.0 && ErrorAllowed(v, b.local, t, error)
    ensures var truth, time := IdealTime(v.mapping, t) + error, Entry(v, b.local).anchor.timeNs as real;
            && (t >= b.local as real + 1.0012 * u ==> truth >= time)
            && (t <= b.local as real - 1.0012 * u ==> truth < time + 1.0005)
  {
    hide NextBoundary, EffectiveAt, ValidTimeline, Evaluate, Ahead, IdealTime, Times;
    DeadlineAtControl(v, local, b);
    NextBoundarySound(v, local);
    var least, n := 1.0 + v.mapping.drift, b.local as real;
    var span := AbsR(t - n);
    assert LeastRate(v, local, ScheduledChange) == least;
    GrownBound(ClockBound(v, b.local), least, u, error, span);
    hide Running, Describes, LocalUncertainty;
    TimeTravelled(v.mapping, n, t);
    Scaled(t - n, v.mapping.drift, 0.0);
    if span >= 1.0012 * u {
      SpanOutweighs(t - n, least, span, error);
    }
  }

  lemma SpanOutweighs(span: real, least: real, u: real, error: real)
    requires least > 0.0 && u >= 0.0 && AbsR(error) <= u * least
    ensures span >= u ==> Times(span, least) + error >= 0.0
    ensures span <= -u ==> Times(span, least) + error <= 0.0
  {
    if span >= u {
      MulMonotoneR(least, u, span);
    } else if span <= -u {
      MulMonotoneR(least, span, -u);
    }
  }
}
