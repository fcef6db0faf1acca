/** Safety of the follower over whole runs of arbitrary snapshots, exchanges and ticks. */
module FollowerRuns {
  import opened Arithmetic
  import opened Timecode
  import opened Clock
  import opened ClockRuns
  import opened Timelines
  import opened Follower

  datatype Step =
    | Connecting
    | Heard(timeline: Timeline, now: nat)
    | Probed(exchange: Exchange, processed: nat)
    | Ticking(now: nat, staleAfter: nat)
    | Losing

  function Apply(s: FollowerState, step: Step): StepResult {
    match step
    case Connecting => StepResult(Connect(s), None)
    case Heard(t, now) => Receive(s, t, now)
    case Probed(e, processed) => Measure(s, e, processed)
    case Ticking(now, staleAfter) => Tick(s, now, staleAfter)
    case Losing => StepResult(Disconnect(s), None)
  }

  /** The local time a step takes effect at; connection changes take effect at any time. */
  predicate TakesEffectAt(step: Step, now: nat) {
    match step
    case Connecting => true
    case Heard(_, at) => now == at
    case Probed(e, processed) => now == (if processed > e.t4 then processed else e.t4)
    case Ticking(at, _) => now == at
    case Losing => true
  }

  /** Only validated timelines reach the core. */
  predicate StepInput(step: Step) {
    step.Heard? ==> ValidTimeline(step.timeline)
  }

  function After(s: FollowerState, steps: seq<Step>): FollowerState {
    if steps == [] then s else Apply(After(s, steps[..|steps| - 1]), steps[|steps| - 1]).state
  }

  // ---------------------------------------------------------------- the invariant

  ghost predicate ValidFollower(s: FollowerState) {
    && ValidTimeline(s.view.timeline)
    && ValidEstimator(s.estimator)
    && s.view.mapping == s.estimator.mapping
    && (s.everLocked ==> s.view.mapping.lastSampleNs > 0)
    && (s.view.mapping.lastSampleNs > 0 ==> s.view.sync != Uninitialized)
    && ValidPolicy(s.policy)
    && s.large < s.policy.confirmations
    && s.view.slewFramesPerSecond >= 0.0
    && (s.expectedSession.Some? ==> s.expectedSession.value == s.view.timeline.session)
  }

  lemma InitialValid(fallback: Timeline, policy: CorrectionPolicy)
    requires ValidTimeline(fallback) && ValidPolicy(policy)
    ensures ValidFollower(Initial(fallback, policy))
  {
  }

  lemma CorrectKeepsValid(s: FollowerState, before: Pos, now: nat, measurement: bool)
    requires ValidFollower(s)
    ensures ValidFollower(Correct(s, before, now, measurement).state)
  {
    hide PhaseError, ActiveAt, ValidEstimator, ValidTimeline;
  }

  lemma ReceiveKeepsValid(s: FollowerState, t: Timeline, now: nat)
    requires ValidFollower(s) && ValidTimeline(t)
    ensures ValidFollower(Receive(s, t, now).state)
  {
    hide ActiveAt, PhaseError, Correct, Evaluate, ValidTimeline, Latched, ValidEstimator, RollsBack;
    RunsStayValid([]);
    LatchedSound(t, MaxI(s.view.timeline.discontinuity, Evaluate(s.view, now).discontinuity));
    var s1 := s.(expectedSession := Some(t.session), view := s.view.(timeline := CaughtUp(s, t, now)));
    if s.view.timeline.session == t.session {
      CorrectKeepsValid(s1, Evaluate(s.view, now).position, now, false);
    }
  }

  lemma MeasureKeepsValid(s: FollowerState, e: Exchange, processed: nat)
    requires ValidFollower(s)
    ensures ValidFollower(Measure(s, e, processed).state)
  {
    ObserveKeepsValid(s.estimator, e);
    var o := Observe(s.estimator, e);
    if o.accepted {
      AcceptedReceipt(s.estimator, e);
    }
    hide Observe, ValidEstimator, ValidTimeline, Adopt, Evaluate;
    if s.expectedSession.Some? && o.accepted {
      var s1 := s.(estimator := o.state, view := s.view.(recovering := o.state.recovery != []));
      AdoptKeepsValid(s1, Evaluate(s.view, MeasuredAt(e, processed)), MeasuredAt(e, processed));
    }
  }

  lemma AdoptKeepsValid(s: FollowerState, before: Reading, now: nat)
    requires ValidTimeline(s.view.timeline) && ValidEstimator(s.estimator) && ValidPolicy(s.policy)
    requires s.everLocked || s.estimator.mapping.converged ==> s.estimator.mapping.lastSampleNs > 0
    requires s.large < s.policy.confirmations && s.view.slewFramesPerSecond >= 0.0
    requires s.expectedSession.Some? ==> s.expectedSession.value == s.view.timeline.session
    ensures ValidFollower(Adopt(s, before, now).state)
  {
    hide Correct, PhaseError, ActiveAt, ValidEstimator, ValidTimeline;
    var m := s.estimator.mapping;
    var s1 := s.(everLocked := s.everLocked || m.converged,
                 view := s.view.(mapping := m, sync := if m.converged then Synchronized else Acquiring));
    CorrectKeepsValid(s1, before.position, now, true);
  }

  /** Once a receipt time is positive it stays so: midpoints only increase. */
  lemma AcceptedReceipt(st: EstimatorState, e: Exchange)
    requires ValidEstimator(st) && Observe(st, e).accepted
    ensures var m := Observe(st, e).state.mapping;
            && m.lastSampleNs == e.t4
            && (m.converged || st.mapping.lastSampleNs > 0 ==> m.lastSampleNs > 0)
  {
    ObserveKeepsValid(st, e);
    MidpointRange(e);
    hide Fit, Evicted, ObserveFresh;
    assert st.lastObserved.Some? ==> Midpoint(e) > st.lastObserved.value;
  }

  lemma TickKeepsValid(s: FollowerState, now: nat, staleAfter: nat)
    requires ValidFollower(s)
    ensures ValidFollower(Tick(s, now, staleAfter).state)
  {
    hide ActiveAt, ValidEstimator, ValidTimeline, Latched;
    LatchedSound(s.view.timeline, ActiveAt(s.view, now));
  }

  lemma StepKeepsValid(s: FollowerState, step: Step)
    requires ValidFollower(s) && StepInput(step)
    ensures ValidFollower(Apply(s, step).state)
  {
    hide Receive, Measure, Tick, ValidEstimator, ValidTimeline;
    match step
    case Connecting =>
    case Heard(t, now) => ReceiveKeepsValid(s, t, now);
    case Probed(e, processed) => MeasureKeepsValid(s, e, processed);
    case Ticking(now, staleAfter) => TickKeepsValid(s, now, staleAfter);
    case Losing =>
  }

  lemma {:induction false} RunStaysValid(s: FollowerState, steps: seq<Step>)
    requires ValidFollower(s) && forall step <- steps :: StepInput(step)
    ensures ValidFollower(After(s, steps))
  {
    if steps != [] {
      RunStaysValid(s, steps[..|steps| - 1]);
      assert steps[|steps| - 1] in steps;
      StepKeepsValid(After(s, steps[..|steps| - 1]), steps[|steps| - 1]);
    }
  }

  // ---------------------------------------------------------------- continuous output

  predicate Announced(c: Option<Correction>) {
    c.Some? && (c.value.NewSession? || c.value.Discontinuity? || c.value.HardResync?)
  }

  /** After a slew is set up, the output at that instant is exactly the one before it. */
  lemma SlewKeepsPosition(s: FollowerState, before: Pos, now: nat)
    requires s.view.sync != Uninitialized
    ensures var v := SlewFrom(s, PhaseError(s.view, before, now), now).state.view;
            OutputFixed(v, now) == Fixed(before)
  {
    var error := PhaseError(s.view, before, now);
    var v := SlewFrom(s, error, now).state.view;
    var time := s.view.mapping.LeaderTime(now);
    var current := EffectiveAt(s.view.timeline, time);
    var desired := Fixed(AnchorAt(current.anchor, time, s.view.timeline.format));
    FullErrorRemains(v, current, now);
    assert error * 4_294_967_296.0 == (Fixed(before) - desired) as real;
    WholeUnits(Fixed(before) - desired);
    FixedInjective(before);
  }

  lemma FullErrorRemains(v: View, current: Scheduled, now: nat)
    requires current.discontinuity == v.correctionDiscontinuity && v.correctionAt == now
    ensures Remaining(v, current, now) == v.correctionFrames
  {
    hide SlewCap;
    NothingWorkedOff(v.correctionFrames, SlewCap(v.slewFramesPerSecond, v.timeline.format, current.anchor.rate));
  }

  lemma NothingWorkedOff(frames: real, slew: real)
    ensures WorkedOff(frames, 0, slew) == frames
  {
    assert 0 as real / 1_000_000_000.0 * slew == 0.0;
  }

  lemma WholeUnits(n: int)
    ensures Trunc(n as real) == n
  {
  }

  /** The output is the fallback until a first measurement, and unchanged by a slew after it. */
  lemma CorrectContinuous(s: FollowerState, before: Pos, now: nat, measurement: bool)
    requires s.view.mapping.lastSampleNs > 0 ==> s.view.sync != Uninitialized
    requires !Initialized(s.view) ==> before == s.view.fallbackPosition
    requires !Announced(Correct(s, before, now, measurement).correction)
    ensures Evaluate(Correct(s, before, now, measurement).state.view, now).position == before
  {
    var v := Correct(s, before, now, measurement).state.view;
    if Initialized(s.view) {
      var count := CountLarge(s.large, s.largeSign, SignOf(PhaseError(s.view, before, now)), measurement);
      SlewKeepsPosition(s.(large := count, largeSign := SignOf(PhaseError(s.view, before, now))), before, now);
      SlewKeepsPosition(s.(large := 0), before, now);
      hide PhaseError, OutputFixed;
      FixedInjective(before);
    }
  }

  lemma ReceiveContinuous(s: FollowerState, t: Timeline, now: nat)
    requires ValidFollower(s) && !Announced(Receive(s, t, now).correction)
    ensures Evaluate(Receive(s, t, now).state.view, now).position == Evaluate(s.view, now).position
  {
    hide Correct, ActiveAt, ValidTimeline, ValidEstimator, OutputFixed, RollsBack, CaughtUp, PhaseError;
    var s1 := s.(expectedSession := Some(t.session));
    if s.view.timeline.session == t.session && t.revision > s.view.timeline.revision && !RollsBack(s1, t, now) {
      var s2 := s1.(view := s.view.(timeline := CaughtUp(s1, t, now)));
      if ActiveAt(s2.view, now) == Evaluate(s.view, now).discontinuity {
        CorrectUnlessExpected(s, t, now);
        CorrectContinuous(s2, Evaluate(s.view, now).position, now, false);
      }
    }
  }

  lemma CorrectUnlessExpected(s: FollowerState, t: Timeline, now: nat)
    ensures s.expectedSession.Some? && s.expectedSession.value != t.session ==> Receive(s, t, now).state == s
  {
  }

  lemma MeasureContinuous(s: FollowerState, e: Exchange, processed: nat)
    requires ValidFollower(s) && !Announced(Measure(s, e, processed).correction)
    ensures var now := MeasuredAt(e, processed);
            Evaluate(Measure(s, e, processed).state.view, now).position == Evaluate(s.view, now).position
  {
    hide Observe, Adopt, ValidTimeline, ValidEstimator, OutputFixed;
    var o, now := Observe(s.estimator, e), MeasuredAt(e, processed);
    IgnoresStatus(s.view, s.view.connection, o.state.recovery != [], now);
    if s.expectedSession.Some? && o.accepted {
      AcceptedReceipt(s.estimator, e);
      AdoptContinuous(s.(estimator := o.state, view := s.view.(recovering := o.state.recovery != [])),
                      Evaluate(s.view, now), now);
    }
  }

  lemma AdoptContinuous(s: FollowerState, before: Reading, now: nat)
    requires s.everLocked ==> s.estimator.mapping.lastSampleNs > 0
    requires !Announced(Adopt(s, before, now).correction)
    ensures Evaluate(Adopt(s, before, now).state.view, now).position == before.position
  {
    hide Correct, ActiveAt, OutputFixed, PhaseError;
    var m := s.estimator.mapping;
    var s1 := s.(everLocked := s.everLocked || m.converged,
                 view := s.view.(mapping := m, sync := if m.converged then Synchronized else Acquiring));
    if s.everLocked && ActiveAt(s1.view, now) == before.discontinuity {
      CorrectContinuous(s1, before.position, now, true);
    }
  }

  /** Latching the effective entry leaves the position as it was. */
  lemma TickContinuous(s: FollowerState, now: nat, staleAfter: nat)
    requires ValidFollower(s)
    ensures Evaluate(Tick(s, now, staleAfter).state.view, now).position == Evaluate(s.view, now).position
  {
    if s.view.mapping.lastSampleNs != 0 {
      var time, id := s.view.mapping.LeaderTime(now), ActiveAt(s.view, now);
      LatchedAgrees(s.view.timeline, id, time);
      LatchedSound(s.view.timeline, id);
      var v := Tick(s, now, staleAfter).state.view;
      assert v == s.view.(sync := v.sync, timeline := Latched(s.view.timeline, id));
      assert v.sync != Uninitialized;
      hide Latched, EffectiveAt, ValidTimeline, ValidEstimator, Tick;
      SameOutput(s.view, v, now);
    }
  }

  lemma SameOutput(v: View, w: View, now: nat)
    requires w == v.(sync := w.sync, timeline := w.timeline) && v.sync != Uninitialized && w.sync != Uninitialized
    requires v.timeline.format == w.timeline.format
    requires EffectiveAt(v.timeline, v.mapping.LeaderTime(now)) == EffectiveAt(w.timeline, v.mapping.LeaderTime(now))
    ensures Evaluate(v, now) == Evaluate(w, now).(synchronization := Evaluate(v, now).synchronization)
  {
    hide EffectiveAt, Saturate, AnchorAt, WorkedOff, SlewCap, FromFixed;
  }

  /** Output continuity: a step that reports no new session, discontinuity or hard resync
      leaves the position at its own instant exactly unchanged. */
  lemma StepContinuous(s: FollowerState, step: Step, now: nat)
    requires ValidFollower(s) && StepInput(step) && TakesEffectAt(step, now)
    requires !Announced(Apply(s, step).correction)
    ensures Evaluate(Apply(s, step).state.view, now).position == Evaluate(s.view, now).position
  {
    hide Receive, Measure, Tick, ValidTimeline, ValidEstimator, OutputFixed;
    match step
    case Connecting => IgnoresStatus(s.view, Connected, s.view.recovering, now);
    case Heard(t, _) => ReceiveContinuous(s, t, now);
    case Probed(e, processed) => MeasureContinuous(s, e, processed);
    case Ticking(_, staleAfter) => TickContinuous(s, now, staleAfter);
    case Losing => SameAfterLoss(s, now);
  }

  ghost predicate ContinuousAt(s0: FollowerState, steps: seq<Step>, k: nat, now: nat) {
    k < |steps| && TakesEffectAt(steps[k], now) && !Announced(Apply(After(s0, steps[..k]), steps[k]).correction) ==>
      Evaluate(After(s0, steps[..k + 1]).view, now).position == Evaluate(After(s0, steps[..k]).view, now).position
  }

  /** Over every run from the start the output jumps only at steps that report a new session, a
      discontinuity or a hard resync; at every other step it goes on from where it was. */
  lemma RunContinuous(fallback: Timeline, policy: CorrectionPolicy, steps: seq<Step>)
    requires ValidTimeline(fallback) && ValidPolicy(policy) && forall step <- steps :: StepInput(step)
    ensures forall k: nat, now: nat :: ContinuousAt(Initial(fallback, policy), steps, k, now)
  {
    hide Apply, Evaluate, Announced, TakesEffectAt, ValidFollower, ValidTimeline, Initial, StepInput;
    var s0 := Initial(fallback, policy);
    InitialValid(fallback, policy);
    forall k: nat, now: nat ensures ContinuousAt(s0, steps, k, now) {
      if k < |steps| && TakesEffectAt(steps[k], now) && !Announced(Apply(After(s0, steps[..k]), steps[k]).correction) {
        RunStaysValid(s0, steps[..k]);
        assert steps[..k + 1][..k] == steps[..k] && steps[k] in steps;
        StepContinuous(After(s0, steps[..k]), steps[k], now);
      }
    }
  }

  lemma SameAfterLoss(s: FollowerState, now: nat)
    requires ValidFollower(s)
    ensures Evaluate(Disconnect(s).view, now).position == Evaluate(s.view, now).position
  {
    if Initialized(s.view) {
      SameOutput(s.view, Disconnect(s).view.(connection := s.view.connection), now);
    }
    hide OutputFixed;
    IgnoresStatus(Disconnect(s).view, s.view.connection, s.view.recovering, now);
  }

  lemma IgnoresStatus(v: View, c: ConnectionState, r: bool, now: nat)
    ensures Evaluate(v.(connection := c, recovering := r), now) == Evaluate(v, now)
  {
    hide EffectiveAt, Saturate, AnchorAt, WorkedOff, SlewCap, FromFixed;
  }

  // ---------------------------------------------------------------- what a correction reports

  lemma NothingRemains(v: View, current: Scheduled, now: nat)
    requires v.correctionFrames == 0.0 && v.slewFramesPerSecond >= 0.0
    ensures Remaining(v, current, now) == 0.0
  {
    hide WorkedOff;
    var slew := SlewCap(v.slewFramesPerSecond, v.timeline.format, current.anchor.rate);
    FpsPositive(v.timeline.format);
    MulNonNegativeR(Fps(v.timeline.format), AbsR(RateValue(current.anchor.rate)));
    NeverBelowZero(Monus(now, v.correctionAt), slew);
  }

  lemma NeverBelowZero(elapsed: nat, slew: real)
    requires slew >= 0.0
    ensures WorkedOff(0.0, elapsed, slew) == 0.0
  {
    MulNonNegativeR(elapsed as real / 1_000_000_000.0, slew);
  }

  /** With no correction the output is the trajectory's own position. */
  lemma UncorrectedOutput(v: View, now: nat)
    requires Initialized(v) && v.sync != Uninitialized && v.correctionFrames == 0.0 && v.slewFramesPerSecond >= 0.0
    ensures Evaluate(v, now).position == PositionAt(v.timeline, v.mapping.LeaderTime(now))
  {
    var time := v.mapping.LeaderTime(now);
    var current := EffectiveAt(v.timeline, time);
    NothingRemains(v, current, now);
    FixedInjective(AnchorAt(current.anchor, time, v.timeline.format));
    hide AnchorAt, Fixed, FromFixed, EffectiveAt, Remaining;
    assert Trunc(0.0) == 0;
  }

  /** A hard resync moves the output, at the instant it takes effect, by exactly the number of
      frames it reports: at first lock from whatever was shown before, later from the old phase. */
  lemma ResyncMovesAsReported(s: FollowerState, e: Exchange, processed: nat)
    requires ValidFollower(s)
    requires var r := Measure(s, e, processed);
             r.correction.Some? && r.correction.value.HardResync? && Initialized(r.state.view)
    ensures var r, now := Measure(s, e, processed), MeasuredAt(e, processed);
            (Fixed(Evaluate(r.state.view, now).position) - Fixed(Evaluate(s.view, now).position)) as real
            == r.correction.value.frames * 4_294_967_296.0
  {
    hide Observe, Adopt, Evaluate, ValidTimeline, ValidEstimator, Fixed;
    var o, now := Observe(s.estimator, e), MeasuredAt(e, processed);
    MeasureKeepsValid(s, e, processed);
    AdoptedResync(s.(estimator := o.state, view := s.view.(recovering := o.state.recovery != [])),
                  Evaluate(s.view, now), now);
  }

  lemma AdoptedResync(s: FollowerState, before: Reading, now: nat)
    requires s.view.slewFramesPerSecond >= 0.0
    requires var r := Adopt(s, before, now);
             r.correction.Some? && r.correction.value.HardResync? && Initialized(r.state.view)
    ensures var r := Adopt(s, before, now);
            (Fixed(Evaluate(r.state.view, now).position) - Fixed(before.position)) as real
            == r.correction.value.frames * 4_294_967_296.0
  {
    hide ActiveAt, Evaluate, Fixed;
    UncorrectedOutput(Adopt(s, before, now).state.view, now);
  }

  /** A slew reports the correction it leaves outstanding: the distance still to be travelled. */
  lemma SlewReportsRemaining(s: FollowerState, before: Pos, now: nat, measurement: bool)
    requires Initialized(s.view) && s.view.sync != Uninitialized
    requires var r := Correct(s, before, now, measurement); r.correction.value.Slew?
    ensures var r := Correct(s, before, now, measurement);
            Evaluate(r.state.view, now).correctionFrames == -r.correction.value.frames
  {
    var v := Correct(s, before, now, measurement).state.view;
    var current := EffectiveAt(v.timeline, v.mapping.LeaderTime(now));
    assert v.timeline == s.view.timeline && v.mapping == s.view.mapping;
    hide PhaseError, OutputFixed;
    FullErrorRemains(v, current, now);
    hide Remaining, EffectiveAt, FromFixed;
  }

  /** With a settling time a correction has been worked off exactly once that time has passed and
      the motion has covered ten times the correction, which is what the cap leaves to slewing. */
  lemma SlewSettlesInTime(s: FollowerState, error: real, now: nat, after: nat)
    requires s.policy.settleTimeNs > 0
    ensures var v := SlewFrom(s, error, now).state.view;
            var current := EffectiveAt(v.timeline, v.mapping.LeaderTime(now));
            var motion := Fps(v.timeline.format) * AbsR(RateValue(current.anchor.rate));
            Remaining(v, current, now + after) == 0.0
            <==> || error == 0.0
                 || (after >= s.policy.settleTimeNs
                     && Times(after as real / 1_000_000_000.0, motion) >= 10.0 * AbsR(error))
  {
    hide EffectiveAt, Fps, RateValue, WorkedOff, Times, SlewFrom;
    var v := SlewFrom(s, error, now).state.view;
    var rate := EffectiveAt(v.timeline, v.mapping.LeaderTime(now)).anchor.rate;
    var slew := AbsR(error) * 1_000_000_000.0 / s.policy.settleTimeNs as real;
    var motion := Fps(v.timeline.format) * AbsR(RateValue(rate));
    RemainingOfSlew(s, error, now, after, slew, motion);
    FpsPositive(v.timeline.format);
    MulNonNegativeR(Fps(v.timeline.format), AbsR(RateValue(rate)));
    SettledIff(error, after, s.policy.settleTimeNs, slew, motion);
  }

  lemma RemainingOfSlew(s: FollowerState, error: real, now: nat, after: nat, slew: real, motion: real)
    requires s.policy.settleTimeNs > 0 && slew == AbsR(error) * 1_000_000_000.0 / s.policy.settleTimeNs as real
    requires var v := SlewFrom(s, error, now).state.view;
             motion == Fps(v.timeline.format)
                       * AbsR(RateValue(EffectiveAt(v.timeline, v.mapping.LeaderTime(now)).anchor.rate))
    ensures var v := SlewFrom(s, error, now).state.view;
            Remaining(v, EffectiveAt(v.timeline, v.mapping.LeaderTime(now)), now + after)
            == WorkedOff(error, after, MinR(slew, motion * 0.1))
  {
    hide EffectiveAt, Fps, RateValue, WorkedOff;
    var v := SlewFrom(s, error, now).state.view;
    var current := EffectiveAt(v.timeline, v.mapping.LeaderTime(now));
    var cap := SlewCap(v.slewFramesPerSecond, v.timeline.format, current.anchor.rate);
    assert v.slewFramesPerSecond == slew;
    assert cap == MinR(slew, motion * 0.1);
    assert Monus(now + after, now) == after && v.correctionFrames == error;
    assert Remaining(v, current, now + after) == WorkedOff(error, after, cap);
  }

  lemma SettledIff(error: real, after: nat, settle: nat, slew: real, motion: real)
    requires settle > 0 && motion >= 0.0 && slew == AbsR(error) * 1_000_000_000.0 / settle as real
    ensures WorkedOff(error, after, MinR(slew, motion * 0.1)) == 0.0
            <==> error == 0.0
                 || (after >= settle && Times(after as real / 1_000_000_000.0, motion) >= 10.0 * AbsR(error))
  {
    hide WorkedOff, Times;
    var share := after as real / 1_000_000_000.0;
    TimesSign(share, motion * 0.1);
    TimesSign(share, slew);
    WorkedOffIff(error, after, slew);
    WorkedOffIff(error, after, MinR(slew, motion * 0.1));
    WorkedOffInTime(error, after, settle);
    SlowerOfTwo(share, slew, motion * 0.1);
    TenthOf(share, motion);
  }

  lemma WorkedOffIff(frames: real, after: nat, slew: real)
    requires slew >= 0.0
    ensures WorkedOff(frames, after, slew) == 0.0
       <==> Times(after as real / 1_000_000_000.0, slew) >= AbsR(frames)
  {
    TimesSign(after as real / 1_000_000_000.0, slew);
  }

  lemma SlowerOfTwo(share: real, a: real, b: real)
    requires share >= 0.0
    ensures Times(share, MinR(a, b)) == MinR(Times(share, a), Times(share, b))
  {
    if a <= b {
      MulMonotoneR(share, a, b);
    } else {
      MulMonotoneR(share, b, a);
    }
  }

  lemma TenthOf(x: real, motion: real)
    ensures Times(x, motion * 0.1) == Times(x, motion) / 10.0
  {
  }

  lemma WorkedOffInTime(error: real, after: nat, settle: nat)
    requires settle > 0
    ensures WorkedOff(error, after, AbsR(error) * 1_000_000_000.0 / settle as real) == 0.0
       <==> error == 0.0 || after >= settle
  {
    var e, t := AbsR(error), settle as real;
    var share := after as real / t;
    SlewShare(e, after as real, t);
    ShareOfOne(after as real, t);
    if after >= settle {
      MulMonotoneR(e, 1.0, share);
    } else if e > 0.0 {
      TimesSign(1.0 - share, e);
      assert Times(1.0 - share, e) == e - e * share;
    }
  }

  lemma ShareOfOne(part: real, whole: real)
    requires whole > 0.0
    ensures part / whole >= 1.0 <==> part >= whole
  {
    assert part / whole * whole == part;
  }

  lemma SlewShare(e: real, after: real, settle: real)
    requires settle > 0.0
    ensures after / 1_000_000_000.0 * (e * 1_000_000_000.0 / settle) == e * (after / settle)
  {
    var x, y := e * 1_000_000_000.0 / settle, after / settle;
    assert x * settle == e * 1_000_000_000.0 && y * settle == after;
    assert (after / 1_000_000_000.0 * x) * settle == after / 1_000_000_000.0 * (x * settle);
    assert after / 1_000_000_000.0 * (e * 1_000_000_000.0) == after * e;
    assert (e * y) * settle == e * (y * settle);
  }
}
