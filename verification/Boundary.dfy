/** The next deadline of a view: when the next whole frame is reached or a control takes effect. */
module Boundary {
  import opened Arithmetic
  import opened Timecode
  import opened Clock
  import opened Timelines
  import opened Follower

  // ---------------------------------------------------------------- bisection

  /** Where the bisection ends: a point that satisfies the predicate and whose predecessor does
      not, unless it is the start. */
  function Bisected(lo: nat, hi: nat, p: nat -> bool): (r: nat)
    requires lo <= hi && p(hi)
    ensures lo <= r <= hi && p(r) && (r == lo || !p(r - 1))
    decreases hi - lo
  {
    if lo == hi then lo
    else
      var mid := lo + (hi - lo) / 2;
      if p(mid) then Bisected(lo, mid, p)
      else Bisected(mid + 1, hi, p)
  }

  function FirstOf(lo: nat, hi: nat, p: nat -> bool): (r: Option<nat>)
    ensures r.Some? ==> lo <= r.value <= hi && p(r.value) && (r.value == lo || !p(r.value - 1))
  {
    if lo > hi || !p(hi) then None else Some(Bisected(lo, hi, p))
  }

  /** `first`. */
  method First(lo: nat, hi: nat, p: nat -> bool) returns (r: Option<nat>)
    ensures r == FirstOf(lo, hi, p)
  {
    if lo > hi || !p(hi) {
      return None;
    }
    hide FirstOf, Bisected;
    var a, b := lo, hi;
    while a < b
      invariant lo <= a <= b <= hi && p(b)
      invariant FirstOf(a, b, p) == FirstOf(lo, hi, p)
    {
      var mid := a + (b - a) / 2;
      BisectionStep(a, b, p);
      if p(mid) {
        b := mid;
      } else {
        a := mid + 1;
      }
    }
    BisectionEnd(a, p);
    return Some(a);
  }

  lemma BisectionStep(lo: nat, hi: nat, p: nat -> bool)
    requires lo < hi && p(hi)
    ensures var mid := lo + (hi - lo) / 2;
            FirstOf(lo, hi, p) == if p(mid) then FirstOf(lo, mid, p) else FirstOf(mid + 1, hi, p)
  {
  }

  lemma BisectionEnd(at: nat, p: nat -> bool)
    requires p(at)
    ensures FirstOf(at, at, p) == Some(at)
  {
  }

  ghost predicate Upward(lo: nat, hi: nat, p: nat -> bool) {
    forall x: nat, y: nat :: lo <= x <= y <= hi && p(x) ==> p(y)
  }

  /** On a predicate that stays true the bisection finds the first point, or there is none. */
  lemma FirstIsLeast(lo: nat, hi: nat, p: nat -> bool)
    requires Upward(lo, hi, p)
    ensures var r := FirstOf(lo, hi, p);
            match r
            case Some(n) => lo <= n <= hi && p(n) && forall x: nat :: lo <= x < n ==> !p(x)
            case None => forall x: nat :: lo <= x <= hi ==> !p(x)
  {
  }

  // ---------------------------------------------------------------- the next boundary

  datatype Kind = Frame | ScheduledChange

  datatype Deadline = Deadline(local: nat, position: Pos, discontinuity: nat, kind: Kind, uncertainty: Bound)

  const UNIT := 0x1_0000_0000

  /** The first scheduled entry after a leader time. */
  function NextControl(scheduled: seq<Scheduled>, time: nat): Option<Scheduled>
    decreases scheduled
  {
    if scheduled == [] then None
    else if scheduled[0].anchor.timeNs > time then Some(scheduled[0])
    else NextControl(scheduled[1..], time)
  }

  /** The whole-frame position strictly ahead in the playback direction. */
  function Target(fixed: int, forward: bool): int {
    if forward then (fixed / 0x1_0000_0000 + 1) * 0x1_0000_0000
    else (fixed / 0x1_0000_0000 - (if fixed % 0x1_0000_0000 == 0 then 1 else 0)) * 0x1_0000_0000
  }

  predicate Passed(v: View, target: int, forward: bool, t: nat) {
    var p := Fixed(Evaluate(v, t).position);
    if forward then p >= target else p <= target
  }

  predicate Arrived(v: View, s: Scheduled, t: nat) {
    v.mapping.LeaderTime(t) >= s.anchor.timeNs
  }

  function Arrival(v: View, s: Scheduled): nat -> bool {
    (t: nat) => Arrived(v, s, t)
  }

  function Passing(v: View, target: int, forward: bool): nat -> bool {
    (t: nat) => Passed(v, target, forward, t)
  }

  function ControlDeadline(v: View, local: nat): Option<nat> {
    var s := NextControl(v.timeline.scheduled, v.mapping.LeaderTime(local));
    if s.None? then None else FirstOf(local + 1, I64_MAX, Arrival(v, s.value))
  }

  /** The whole frame ahead of the position shown at a local time. */
  function Ahead(v: View, local: nat): int {
    Target(Fixed(Evaluate(v, local).position), Evaluate(v, local).rate.numerator > 0)
  }

  function FrameDeadline(v: View, local: nat, end: nat): Option<nat> {
    var rate := Evaluate(v, local).rate;
    if rate.numerator == 0 then None
    else FirstOf(local + 1, end, Passing(v, Ahead(v, local), rate.numerator > 0))
  }

  /** The last time a frame can be reached before a control takes effect. */
  function LastFrameTime(v: View, local: nat): nat {
    var control := ControlDeadline(v, local);
    if control.Some? then control.value - 1 else I64_MAX
  }

  /** How fast the deciding quantity moves at least, per local nanosecond: a slew may take a tenth
      of the motion from a frame, and nothing from a control. */
  function LeastRate(v: View, local: nat, kind: Kind): real {
    1.0 + v.mapping.drift - (if kind == Frame && Evaluate(v, local).correctionFrames != 0.0 then 0.1 else 0.0)
  }

  /** The clock's uncertainty at the deadline, in local time. */
  function LocalUncertainty(v: View, local: nat, deadline: nat, kind: Kind): Bound {
    var clock := if v.localClock then Within(0.0) else v.mapping.UncertaintyAt(deadline);
    if clock.Unbounded? || LeastRate(v, local, kind) == 0.0 then Unbounded
    else Within(clock.ns / LeastRate(v, local, kind))
  }

  /** `View::next_boundary`. */
  function NextBoundary(v: View, local: nat): Option<Deadline> {
    var r := Evaluate(v, local);
    if local + 1 > I64_MAX || r.synchronization == Uninitialized then None
    else
      var control := ControlDeadline(v, local);
      var frame := FrameDeadline(v, local, LastFrameTime(v, local));
      if frame.Some? then
        FixedRoundTrip(Ahead(v, local));
        Some(Deadline(frame.value, FromFixed(Ahead(v, local)), Evaluate(v, frame.value).discontinuity, Frame,
                      LocalUncertainty(v, local, frame.value, Frame)))
      else if control.None? then None
      else Some(Deadline(control.value, Evaluate(v, control.value).position,
                         Evaluate(v, control.value).discontinuity, ScheduledChange,
                         LocalUncertainty(v, local, control.value, ScheduledChange)))
  }

  // ---------------------------------------------------------------- controls

  /** A control has taken effect between two local times. */
  predicate ControlTaken(v: View, local: nat, t: nat) {
    EffectiveAt(v.timeline, v.mapping.LeaderTime(t)) != EffectiveAt(v.timeline, v.mapping.LeaderTime(local))
  }

  predicate SlowClock(m: ClockMapping) {
    -0.0005 <= m.drift <= 0.0005
  }

  lemma LeaderTimeMonotone(m: ClockMapping, x: nat, y: nat)
    requires SlowClock(m) && x <= y
    ensures m.LeaderTime(x) <= m.LeaderTime(y)
  {
    var d := (y - x) as real;
    ScaleBound(d, m.drift, 0.0005);
    assert m.OffsetAt(y) - m.OffsetAt(x) == d * m.drift by {
      var r := m.referenceNs as real;
      assert (y as real - r) * m.drift - (x as real - r) * m.drift == d * m.drift;
    }
    var a, b := x as real + m.OffsetAt(x), y as real + m.OffsetAt(y);
    assert a <= b;
    FloorOrder(ClampR(a, 0.0, LEADER_TIME_MAX), ClampR(b, 0.0, LEADER_TIME_MAX));
  }

  lemma FloorOrder(a: real, b: real)
    requires a <= b
    ensures a.Floor <= b.Floor
  {
  }

  /** In an ordered schedule the effective entry changes exactly when the next control's time
      is reached. */
  lemma {:induction false} ChangesAtNextControl(current: Scheduled, scheduled: seq<Scheduled>, a: nat, b: nat)
    requires Ordered(current, scheduled) && a <= b
    ensures Effective(current, scheduled, b) != Effective(current, scheduled, a)
       <==> NextControl(scheduled, a).Some? && b >= NextControl(scheduled, a).value.anchor.timeNs
    decreases scheduled
  {
    if scheduled == [] {
    } else if scheduled[0].anchor.timeNs <= a {
      ChangesAtNextControl(scheduled[0], scheduled[1..], a, b);
    } else {
      NothingDue(current, scheduled, a);
      if b < scheduled[0].anchor.timeNs {
        NothingDue(current, scheduled, b);
      } else {
        EffectiveSound(scheduled[0], scheduled[1..], b);
      }
    }
  }

  /** The control deadline is the first nanosecond at which a control has taken effect. */
  lemma ControlDeadlineExact(v: View, local: nat)
    requires ValidTimeline(v.timeline) && SlowClock(v.mapping)
    ensures match ControlDeadline(v, local)
            case Some(n) => local < n <= I64_MAX && ControlTaken(v, local, n)
                            && forall t: nat :: local < t < n ==> !ControlTaken(v, local, t)
            case None => forall t: nat :: local < t <= I64_MAX ==> !ControlTaken(v, local, t)
  {
    var s := NextControl(v.timeline.scheduled, v.mapping.LeaderTime(local));
    forall t: nat | local <= t ensures ControlTaken(v, local, t) <==> s.Some? && Arrived(v, s.value, t) {
      TakenIffArrived(v, local, t);
    }
    if s.Some? {
      ArrivedStays(v, s.value, local + 1, I64_MAX);
      FirstIsLeast(local + 1, I64_MAX, Arrival(v, s.value));
      assert forall t: nat :: Arrival(v, s.value)(t) == Arrived(v, s.value, t);
      hide Arrived, ControlTaken, Upward, FirstOf, Arrival;
    }
  }

  lemma TakenIffArrived(v: View, local: nat, t: nat)
    requires ValidTimeline(v.timeline) && SlowClock(v.mapping) && local <= t
    ensures var s := NextControl(v.timeline.scheduled, v.mapping.LeaderTime(local));
            ControlTaken(v, local, t) <==> s.Some? && Arrived(v, s.value, t)
  {
    LeaderTimeMonotone(v.mapping, local, t);
    ChangesAtNextControl(Active(v.timeline), v.timeline.scheduled,
                         v.mapping.LeaderTime(local), v.mapping.LeaderTime(t));
  }

  lemma ArrivedStays(v: View, s: Scheduled, lo: nat, hi: nat)
    requires SlowClock(v.mapping)
    ensures Upward(lo, hi, Arrival(v, s))
  {
    forall x: nat, y: nat | lo <= x <= y <= hi && Arrived(v, s, x) ensures Arrived(v, s, y) {
      LeaderTimeMonotone(v.mapping, x, y);
    }
  }

  // ---------------------------------------------------------------- frames

  /** The target is the nearest whole frame strictly ahead. */
  lemma TargetIsNext(fixed: int, forward: bool)
    ensures var t := Target(fixed, forward);
            && t % UNIT == 0
            && (if forward then fixed < t <= fixed + UNIT else fixed - UNIT <= t < fixed)
  {
    var q := fixed / 0x1_0000_0000;
    DivBounds(fixed, 0x1_0000_0000);
    assert fixed == q * 0x1_0000_0000 + fixed % 0x1_0000_0000;
    WholeMultiple(q);
    WholeMultiple(q + 1);
    WholeMultiple(q - 1);
  }

  lemma WholeMultiple(k: int)
    ensures k * 0x1_0000_0000 % 0x1_0000_0000 == 0
  {
  }

  /** Nothing pending, or a correction that shrinks along the playback direction. */
  predicate Aligned(v: View, local: nat) {
    var r := Evaluate(v, local);
    && (r.rate.numerator > 0 ==> r.correctionFrames <= 0.0)
    && (r.rate.numerator < 0 ==> r.correctionFrames >= 0.0)
  }

  lemma EvaluatedFixed(v: View, t: nat)
    requires Initialized(v)
    ensures Fixed(Evaluate(v, t).position) == OutputFixed(v, t)
    ensures MIN_FIXED <= OutputFixed(v, t) <= MAX_FIXED
  {
    FixedRoundTrip(OutputFixed(v, t));
    hide Fixed, FromFixed, AnchorAt, Remaining, EffectiveAt;
  }

  lemma AnchorOrder(a: Anchor, f: Format, s: nat, t: nat)
    requires s <= t
    ensures a.rate.numerator >= 0 ==> Fixed(AnchorAt(a, s, f)) <= Fixed(AnchorAt(a, t, f))
    ensures a.rate.numerator <= 0 ==> Fixed(AnchorAt(a, s, f)) >= Fixed(AnchorAt(a, t, f))
  {
    var x, y := ClampI64(s - a.timeNs), ClampI64(t - a.timeNs);
    AdvanceExact(a.position, x, f, a.rate);
    AdvanceExact(a.position, y, f, a.rate);
    DeltaMonotone(x, y, f, a.rate);
    hide Delta, Fixed, Advance, Saturate;
    var p := Fixed(a.position);
    if a.rate.numerator >= 0 {
      SaturateMonotone(p + Delta(x, f, a.rate), p + Delta(y, f, a.rate));
    }
    if a.rate.numerator <= 0 {
      SaturateMonotone(p + Delta(y, f, a.rate), p + Delta(x, f, a.rate));
    }
  }

  /** What is left of a correction keeps its sign and only shrinks. */
  lemma WorkedOffShrinks(frames: real, a: nat, b: nat, slew: real)
    requires slew >= 0.0 && a <= b
    ensures WorkedOff(frames, a, slew) <= 0.0 ==> WorkedOff(frames, a, slew) <= WorkedOff(frames, b, slew) <= 0.0
    ensures WorkedOff(frames, a, slew) >= 0.0 ==> 0.0 <= WorkedOff(frames, b, slew) <= WorkedOff(frames, a, slew)
  {
    var p, q := a as real / 1_000_000_000.0 * slew, b as real / 1_000_000_000.0 * slew;
    MulMonotoneR(slew, a as real / 1_000_000_000.0, b as real / 1_000_000_000.0);
    assert p <= q;
    assert WorkedOff(frames, a, slew) == MaxR(AbsR(frames) - p, 0.0) * Signum(frames);
    assert WorkedOff(frames, b, slew) == MaxR(AbsR(frames) - q, 0.0) * Signum(frames);
  }

  lemma SlewCapNonNegative(slew: real, f: Format, r: Speed)
    requires slew >= 0.0
    ensures SlewCap(slew, f, r) >= 0.0
  {
    FpsPositive(f);
    MulNonNegativeR(Fps(f), AbsR(RateValue(r)));
  }

  lemma RemainingShrinks(v: View, current: Scheduled, x: nat, y: nat)
    requires v.slewFramesPerSecond >= 0.0 && x <= y
    ensures Remaining(v, current, x) <= 0.0 ==> Remaining(v, current, x) <= Remaining(v, current, y) <= 0.0
    ensures Remaining(v, current, x) >= 0.0 ==> 0.0 <= Remaining(v, current, y) <= Remaining(v, current, x)
  {
    hide SlewCap, WorkedOff;
    var slew := SlewCap(v.slewFramesPerSecond, v.timeline.format, current.anchor.rate);
    SlewCapNonNegative(v.slewFramesPerSecond, v.timeline.format, current.anchor.rate);
    WorkedOffShrinks(v.correctionFrames, Monus(x, v.correctionAt), Monus(y, v.correctionAt), slew);
  }

  /** While one entry stays effective and the correction runs along with playback, the integer
      output never moves against it. */
  lemma OutputOrder(v: View, x: nat, y: nat)
    requires SlowClock(v.mapping) && v.slewFramesPerSecond >= 0.0 && v.sync != Uninitialized && x <= y
    requires EffectiveAt(v.timeline, v.mapping.LeaderTime(x)) == EffectiveAt(v.timeline, v.mapping.LeaderTime(y))
    ensures var current := EffectiveAt(v.timeline, v.mapping.LeaderTime(x));
            && (current.anchor.rate.numerator > 0 && Remaining(v, current, x) <= 0.0 ==>
                  OutputFixed(v, x) <= OutputFixed(v, y))
            && (current.anchor.rate.numerator < 0 && Remaining(v, current, x) >= 0.0 ==>
                  OutputFixed(v, x) >= OutputFixed(v, y))
  {
    hide SlewCap, WorkedOff, Remaining, EffectiveAt, AnchorAt, Fixed, Saturate, Trunc;
    var current := EffectiveAt(v.timeline, v.mapping.LeaderTime(x));
    LeaderTimeMonotone(v.mapping, x, y);
    RemainingShrinks(v, current, x, y);
    AnchorOrder(current.anchor, v.timeline.format, v.mapping.LeaderTime(x), v.mapping.LeaderTime(y));
    var p := Fixed(AnchorAt(current.anchor, v.mapping.LeaderTime(x), v.timeline.format));
    var q := Fixed(AnchorAt(current.anchor, v.mapping.LeaderTime(y), v.timeline.format));
    var a, b := Remaining(v, current, x) * 4_294_967_296.0, Remaining(v, current, y) * 4_294_967_296.0;
    if current.anchor.rate.numerator > 0 && Remaining(v, current, x) <= 0.0 {
      TruncMonotone(a, b);
      SaturateMonotone(p + Trunc(a), q + Trunc(b));
    }
    if current.anchor.rate.numerator < 0 && Remaining(v, current, x) >= 0.0 {
      TruncMonotone(b, a);
      SaturateMonotone(q + Trunc(b), p + Trunc(a));
    }
  }

  /** What the source evaluates: a measured view of a valid timeline. */
  predicate Running(v: View) {
    && ValidTimeline(v.timeline) && SlowClock(v.mapping)
    && v.slewFramesPerSecond >= 0.0 && Initialized(v) && v.sync != Uninitialized
  }

  /** The frame ahead of a local time has been reached by a later one. */
  predicate FrameReached(v: View, local: nat, t: nat) {
    && Evaluate(v, local).rate.numerator != 0
    && Passed(v, Ahead(v, local), Evaluate(v, local).rate.numerator > 0, t)
  }

  lemma PassingStays(v: View, local: nat, end: nat)
    requires Running(v) && Aligned(v, local) && Evaluate(v, local).rate.numerator != 0
    requires forall t: nat :: local < t <= end ==> !ControlTaken(v, local, t)
    ensures Upward(local + 1, end, Passing(v, Ahead(v, local), Evaluate(v, local).rate.numerator > 0))
  {
    var current := EffectiveAt(v.timeline, v.mapping.LeaderTime(local));
    assert Evaluate(v, local).rate == current.anchor.rate;
    assert Evaluate(v, local).correctionFrames == Remaining(v, current, local);
    var target, forward := Ahead(v, local), Evaluate(v, local).rate.numerator > 0;
    forall x: nat, y: nat | local + 1 <= x <= y <= end && Passed(v, target, forward, x)
      ensures Passed(v, target, forward, y)
    {
      assert !ControlTaken(v, local, x) && !ControlTaken(v, local, y);
      hide Evaluate, Remaining, OutputFixed, EffectiveAt;
      RemainingShrinks(v, current, local, x);
      OutputOrder(v, x, y);
      EvaluatedFixed(v, x);
      EvaluatedFixed(v, y);
    }
  }

  // ---------------------------------------------------------------- exactness

  /** A frame is reached or a control has taken effect. */
  predicate Happens(v: View, local: nat, t: nat) {
    ControlTaken(v, local, t) || FrameReached(v, local, t)
  }

  /** What a deadline says about the view at its own time; a control wins a tie. */
  predicate Describes(v: View, local: nat, b: Deadline) {
    && b.discontinuity == Evaluate(v, b.local).discontinuity
    && b.uncertainty == LocalUncertainty(v, local, b.local, b.kind)
    && (b.kind == ScheduledChange <==> ControlTaken(v, local, b.local))
    && b.position == (if b.kind == ScheduledChange then Evaluate(v, b.local).position else FromFixed(Ahead(v, local)))
    && (b.kind == Frame ==> Fixed(b.position) == Ahead(v, local) && FrameReached(v, local, b.local))
  }

  lemma FirstPassing(v: View, target: int, forward: bool, lo: nat, end: nat)
    ensures match FirstOf(lo, end, Passing(v, target, forward))
            case Some(n) => lo <= n <= end && Passed(v, target, forward, n)
                            && (n == lo || !Passed(v, target, forward, n - 1))
                            && (Upward(lo, end, Passing(v, target, forward)) ==>
                                  forall t: nat :: lo <= t < n ==> !Passed(v, target, forward, t))
            case None => (lo <= end ==> !Passed(v, target, forward, end))
                         && (Upward(lo, end, Passing(v, target, forward)) ==>
                               forall t: nat :: lo <= t <= end ==> !Passed(v, target, forward, t))
  {
    hide Passed, Upward;
    var p := Passing(v, target, forward);
    assert forall t: nat :: p(t) == Passed(v, target, forward, t);
    hide Passing;
    if Upward(lo, end, p) {
      FirstIsLeast(lo, end, p);
    }
  }

  lemma FrameDeadlineSound(v: View, local: nat, end: nat)
    ensures match FrameDeadline(v, local, end)
            case Some(n) => local < n <= end && FrameReached(v, local, n)
                            && (n == local + 1 || !FrameReached(v, local, n - 1))
            case None => end > local ==> !FrameReached(v, local, end)
  {
    hide Evaluate, Passed, Ahead, Passing, FirstOf, Upward;
    FirstPassing(v, Ahead(v, local), Evaluate(v, local).rate.numerator > 0, local + 1, end);
  }

  /** A frame reached within a span of time stays reached to its end. */
  ghost predicate StaysReached(v: View, local: nat, end: nat) {
    Evaluate(v, local).rate.numerator != 0 ==>
      Upward(local + 1, end, Passing(v, Ahead(v, local), Evaluate(v, local).rate.numerator > 0))
  }

  lemma FrameDeadlineExact(v: View, local: nat, end: nat)
    requires StaysReached(v, local, end)
    ensures match FrameDeadline(v, local, end)
            case Some(n) => forall t: nat :: local < t < n ==> !FrameReached(v, local, t)
            case None => forall t: nat :: local < t <= end ==> !FrameReached(v, local, t)
  {
    hide Passed, Evaluate, Ahead, Passing, FirstOf, Upward;
    if Evaluate(v, local).rate.numerator != 0 {
      FirstPassing(v, Ahead(v, local), Evaluate(v, local).rate.numerator > 0, local + 1, end);
    }
  }

  lemma RunningIsShown(v: View, local: nat)
    requires Running(v)
    ensures Evaluate(v, local).synchronization != Uninitialized
  {
    hide OutputFixed, Remaining, EffectiveAt;
  }

  /** A reached frame lies in the range of positions, so the reported position is exactly it. */
  lemma ReachedInRange(v: View, local: nat, t: nat)
    requires Initialized(v) && FrameReached(v, local, t)
    ensures Fixed(FromFixed(Ahead(v, local))) == Ahead(v, local)
  {
    EvaluatedFixed(v, local);
    EvaluatedFixed(v, t);
    TargetIsNext(Fixed(Evaluate(v, local).position), Evaluate(v, local).rate.numerator > 0);
    FixedRoundTrip(Ahead(v, local));
    hide Evaluate, Target, OutputFixed, FromFixed, Fixed;
  }

  lemma EndsBeforeControl(v: View, local: nat)
    ensures var control := ControlDeadline(v, local);
            LastFrameTime(v, local) == if control.Some? then control.value - 1 else I64_MAX
  {
    hide ControlDeadline;
  }

  /** Which of the two searches a boundary comes from. */
  lemma BoundarySource(v: View, local: nat)
    requires Running(v) && local < I64_MAX
    ensures var frame := FrameDeadline(v, local, LastFrameTime(v, local));
            match NextBoundary(v, local)
            case Some(b) =>
              && b.discontinuity == Evaluate(v, b.local).discontinuity
              && b.uncertainty == LocalUncertainty(v, local, b.local, b.kind)
              && (if b.kind == Frame then frame == Some(b.local) && b.position == FromFixed(Ahead(v, local))
                  else && frame == None && ControlDeadline(v, local) == Some(b.local)
                       && b.position == Evaluate(v, b.local).position)
            case None => frame == None && ControlDeadline(v, local) == None
  {
    hide Evaluate, ControlDeadline, FrameDeadline, Ahead, FromFixed, Fixed, Running, LocalUncertainty, LastFrameTime;
    RunningIsShown(v, local);
    FixedRoundTrip(Ahead(v, local));
  }

  /** For every running view, whatever correction is pending: the control deadline is exact, a
      frame deadline is one where the frame has been reached but not a nanosecond earlier, and
      nothing is reported only if no control comes and the frame is not reached at the end. */
  lemma NextBoundarySound(v: View, local: nat)
    requires Running(v)
    ensures match NextBoundary(v, local)
            case Some(b) =>
              && local < b.local <= I64_MAX && Happens(v, local, b.local) && Describes(v, local, b)
              && (forall t: nat :: local < t < b.local ==> !ControlTaken(v, local, t))
              && (b.local == local + 1 || !FrameReached(v, local, b.local - 1))
            case None =>
              && (forall t: nat :: local < t <= I64_MAX ==> !ControlTaken(v, local, t))
              && (local < I64_MAX ==> !FrameReached(v, local, I64_MAX))
  {
    hide Evaluate, ControlTaken, FrameReached, ControlDeadline, FrameDeadline, Ahead, FromFixed, Fixed, ValidTimeline,
      LastFrameTime, LocalUncertainty;
    if local < I64_MAX {
      hide NextBoundary;
      EndsBeforeControl(v, local);
      BoundarySource(v, local);
      ControlDeadlineExact(v, local);
      FrameDeadlineSound(v, local, LastFrameTime(v, local));
      var frame := FrameDeadline(v, local, LastFrameTime(v, local));
      if frame.Some? {
        ReachedInRange(v, local, frame.value);
      }
    }
  }

  lemma NoFrameBefore(v: View, local: nat)
    requires Running(v) && local < I64_MAX && StaysReached(v, local, LastFrameTime(v, local))
    ensures match NextBoundary(v, local)
            case Some(b) => forall t: nat :: local < t < b.local ==> !FrameReached(v, local, t)
            case None => forall t: nat :: local < t <= I64_MAX ==> !FrameReached(v, local, t)
  {
    assert ValidTimeline(v.timeline) && SlowClock(v.mapping);
    hide Evaluate, ControlTaken, FrameReached, ControlDeadline, FrameDeadline, Ahead, FromFixed, Fixed, StaysReached,
      Running, SlowClock, ValidTimeline, NextBoundary, LastFrameTime, LocalUncertainty;
    EndsBeforeControl(v, local);
    BoundarySource(v, local);
    ControlDeadlineExact(v, local);
    FrameDeadlineExact(v, local, LastFrameTime(v, local));
  }

  /** A boundary is the first nanosecond after `local` at which anything happens, and says what;
      there is none exactly when nothing happens in the representable range. */
  ghost predicate IsFirst(v: View, local: nat, r: Option<Deadline>) {
    match r
    case Some(b) =>
      && local < b.local <= I64_MAX && Happens(v, local, b.local) && Describes(v, local, b)
      && forall t: nat :: local < t < b.local ==> !Happens(v, local, t)
    case None => forall t: nat :: local < t <= I64_MAX ==> !Happens(v, local, t)
  }

  lemma FirstIfStays(v: View, local: nat)
    requires Running(v) && (local < I64_MAX ==> StaysReached(v, local, LastFrameTime(v, local)))
    ensures IsFirst(v, local, NextBoundary(v, local))
  {
    hide NextBoundary, ControlTaken, FrameReached, StaysReached, Describes, Running, LastFrameTime;
    NextBoundarySound(v, local);
    if local < I64_MAX {
      NoFrameBefore(v, local);
    }
  }

  /** Up to the last time a frame counts no control is taken. */
  lemma NoControlBefore(v: View, local: nat)
    requires Running(v)
    ensures forall t: nat :: local < t <= LastFrameTime(v, local) ==> !ControlTaken(v, local, t)
  {
    assert ValidTimeline(v.timeline) && SlowClock(v.mapping);
    hide ControlTaken, ControlDeadline, ValidTimeline;
    ControlDeadlineExact(v, local);
  }

  /** With nothing pending, or a correction that shrinks along the playback direction, the
      boundary is the first. */
  lemma NextBoundaryExact(v: View, local: nat)
    requires Running(v) && Aligned(v, local)
    ensures IsFirst(v, local, NextBoundary(v, local))
  {
    hide NextBoundary, ControlTaken, Aligned, Running, LastFrameTime, IsFirst, Evaluate, Passing, Ahead, Upward;
    NoControlBefore(v, local);
    if Evaluate(v, local).rate.numerator != 0 {
      PassingStays(v, local, LastFrameTime(v, local));
    }
    FirstIfStays(v, local);
  }

  /** The boundary as the source computes it, with its two bisections. */
  method Next(v: View, local: nat) returns (r: Option<Deadline>)
    ensures r == NextBoundary(v, local)
  {
    hide Evaluate, Ahead, FirstOf, FromFixed, ValidPosition, LocalUncertainty;
    var now := Evaluate(v, local);
    if local + 1 > I64_MAX || now.synchronization == Uninitialized {
      return None;
    }
    var control := None;
    var s := NextControl(v.timeline.scheduled, v.mapping.LeaderTime(local));
    if s.Some? {
      control := First(local + 1, I64_MAX, Arrival(v, s.value));
    }
    var end := if control.Some? then control.value - 1 else I64_MAX;
    var forward, frame := now.rate.numerator > 0, None;
    if now.rate.numerator != 0 {
      frame := First(local + 1, end, Passing(v, Ahead(v, local), forward));
    }
    if frame.Some? {
      FixedRoundTrip(Ahead(v, local));
      return Some(Deadline(frame.value, FromFixed(Ahead(v, local)), Evaluate(v, frame.value).discontinuity, Frame,
                           LocalUncertainty(v, local, frame.value, Frame)));
    }
    if control.None? {
      return None;
    }
    var at := Evaluate(v, control.value);
    return Some(Deadline(control.value, at.position, at.discontinuity, ScheduledChange,
                         LocalUncertainty(v, local, control.value, ScheduledChange)));
  }

  // ---------------------------------------------------------------- an opposed correction

  /** Twenty-four frames a second forward under a slew that holds the output back, on a clock
      500 ppm slow, so that leader time stands still between local times 2000 and 2001. */
  ghost predicate HeldBack(v: View) {
    && v.timeline.format == FrameFormat(24, 1, false)
    && v.timeline.discontinuity == 0
    && v.timeline.anchor == Anchor(0, Position(0, 4_294_781_857), NORMAL)
    && |v.timeline.scheduled| == 1 && v.timeline.scheduled[0].anchor.timeNs == 2001
    && v.timeline.scheduled[0].discontinuity == 1
    && v.mapping.referenceNs == 0 && v.mapping.offsetNs == 0.0 && v.mapping.drift == -0.0005
    && v.mapping.lastSampleNs == 1 && v.sync == Synchronized
    && v.correctionFrames == 1.0 && v.correctionAt == 0 && v.correctionDiscontinuity == 0
    && v.slewFramesPerSecond == 2.4
  }

  lemma HeldBackTravel(t: nat)
    requires 1999 <= t <= 2002
    ensures var f: Format := FrameFormat(24, 1, false);
            var e := if t == 1999 then 1998 else if t <= 2001 then 1999 else 2000;
            Delta(e, f, NORMAL)
            == match t case 1999 => 205_952 case 2000 => 206_055 case 2001 => 206_055 case _ => 206_158
  {
    var f: Format := FrameFormat(24, 1, false);
    var e := if t == 1999 then 1998 else if t <= 2001 then 1999 else 2000;
    DeltaIsOneDivision(e, f, NORMAL);
    assert Divisor(f, NORMAL) == 1_000_000_000;
    assert Product(e, f, NORMAL) == e * 24;
  }

  lemma HeldBackClock(v: View, t: nat)
    requires HeldBack(v) && 1999 <= t <= 2003
    ensures v.mapping.LeaderTime(t)
         == match t case 1999 => 1998 case 2000 => 1999 case 2001 => 1999 case 2002 => 2000 case _ => 2001
  {
    assert v.mapping.OffsetAt(t) == t as real * -0.0005;
  }

  lemma HeldBackRest(v: View, t: nat)
    requires HeldBack(v) && 1999 <= t <= 2002
    ensures Trunc(Remaining(v, Active(v.timeline), t) * 4_294_967_296.0)
         == match t
            case 1999 => 4_294_946_690
            case 2000 => 4_294_946_680
            case 2001 => 4_294_946_669
            case _ => 4_294_946_659
  {
    var slew := SlewCap(v.slewFramesPerSecond, v.timeline.format, NORMAL);
    assert Fps(v.timeline.format) == 24.0 && RateValue(NORMAL) == 1.0;
    assert slew == 2.4;
    var left := 1.0 - t as real / 1_000_000_000.0 * 2.4;
    assert Remaining(v, Active(v.timeline), t) == left;
  }

  lemma HeldBackOutput(v: View, t: nat)
    requires HeldBack(v) && 1999 <= t <= 2002
    ensures OutputFixed(v, t) == match t
                                 case 1999 => 8_589_934_499
                                 case 2000 => 8_589_934_592
                                 case 2001 => 8_589_934_581
                                 case _ => 8_589_934_674
  {
    HeldBackClock(v, t);
    HeldBackTravel(t);
    HeldBackRest(v, t);
    var time := v.mapping.LeaderTime(t);
    NothingDue(Active(v.timeline), v.timeline.scheduled, time);
    AdvanceExact(v.timeline.anchor.position, time, v.timeline.format, NORMAL);
    hide Delta, Remaining, Advance, Effective;
    assert ClampI64(time) == time;
  }

  lemma HeldBackAhead(v: View)
    requires HeldBack(v)
    ensures Ahead(v, 1999) == 8_589_934_592
    ensures Evaluate(v, 1999).rate == NORMAL && Evaluate(v, 1999).correctionFrames > 0.0
  {
    HeldBackShown(v);
    HeldBackOutput(v, 1999);
    EvaluatedFixed(v, 1999);
    hide OutputFixed, Evaluate, Fixed;
  }

  lemma HeldBackShown(v: View)
    requires HeldBack(v)
    ensures Evaluate(v, 1999).rate == NORMAL && Evaluate(v, 1999).correctionFrames > 0.0
  {
    HeldBackRest(v, 1999);
    HeldBackClock(v, 1999);
    NothingDue(Active(v.timeline), v.timeline.scheduled, 1998);
    hide OutputFixed, Remaining, Effective, FromFixed;
    assert EffectiveAt(v.timeline, EvaluationTime(v, 1999)) == Active(v.timeline);
    assert Evaluate(v, 1999).correctionFrames == Remaining(v, Active(v.timeline), 1999);
  }

  lemma HeldBackControl(v: View)
    requires HeldBack(v)
    ensures Running(v) && ControlDeadline(v, 1999) == Some(2003)
  {
    assert Ordered(v.timeline.scheduled[0], v.timeline.scheduled[1..]);
    ControlDeadlineExact(v, 1999);
    forall t: nat | 1999 <= t <= 2003 ensures ControlTaken(v, 1999, t) <==> t == 2003 {
      HeldBackClock(v, 1999);
      HeldBackClock(v, t);
      ChangesAtNextControl(Active(v.timeline), v.timeline.scheduled, 1998, v.mapping.LeaderTime(t));
      assert NextControl(v.timeline.scheduled, 1998) == Some(v.timeline.scheduled[0]);
      hide Effective, NextControl;
    }
    assert ControlTaken(v, 1999, 2003);
    hide ControlTaken, ControlDeadline, ValidTimeline;
  }

  /** Without the condition on the correction the deadline need not be the first: here the next
      frame is reached at 2000, shown as missed again at 2001, and reported for 2002. */
  lemma OpposedCorrectionMissesFirst(v: View)
    requires HeldBack(v)
    ensures Running(v) && !Aligned(v, 1999)
    ensures FrameReached(v, 1999, 2000) && !FrameReached(v, 1999, 2001)
    ensures NextBoundary(v, 1999).Some? && NextBoundary(v, 1999).value.local == 2002
  {
    HeldBackControl(v);
    HeldBackAhead(v);
    forall t: nat | 2000 <= t <= 2002 ensures Passed(v, 8_589_934_592, true, t) <==> t != 2001 {
      HeldBackOutput(v, t);
      EvaluatedFixed(v, t);
      hide Evaluate, HeldBack;
    }
    hide HeldBack, Passed, Evaluate, Ahead, Running, ControlDeadline;
    var p := Passing(v, 8_589_934_592, true);
    assert p(2002) && !p(2001);
    BisectionStep(2000, 2002, p);
    BisectionEnd(2002, p);
    BoundarySource(v, 1999);
    hide Passing, NextBoundary;
    assert FirstOf(2000, 2002, p) == Some(2002);
  }
}
