/** The follower: output evaluation, correction policy, and the steps of its core. */
module Follower {
  import opened Arithmetic
  import opened Timecode
  import opened Clock
  import opened Timelines

  datatype ConnectionState = Disconnected | Connecting | Connected | Shutdown

  datatype SyncState = Uninitialized | Acquiring | Synchronized | InHoldover

  datatype Correction =
    | Discontinuity(id: nat)
    | Slew(frames: real)
    | HardResync(frames: real)
    | NewSession

  datatype CorrectionPolicy = CorrectionPolicy(
    settleTimeNs: nat,
    slewFramesPerSecond: real,
    hardThresholdFrames: real,
    confirmations: nat)

  /** What the engine demands of a policy before it starts a follower. */
  predicate ValidPolicy(p: CorrectionPolicy) {
    p.slewFramesPerSecond > 0.0 && p.hardThresholdFrames > 0.0 && 1 <= p.confirmations <= 255
  }

  datatype View = View(
    timeline: Timeline,
    fallbackPosition: Pos,
    fallbackFormat: Format,
    mapping: ClockMapping,
    connection: ConnectionState,
    sync: SyncState,
    correctionFrames: real,
    correctionAt: nat,
    slewFramesPerSecond: real,
    correctionDiscontinuity: nat,
    resyncGeneration: nat,
    localClock: bool,
    recovering: bool)

  datatype Reading = Reading(
    position: Pos,
    format: Format,
    rate: Speed,
    discontinuity: nat,
    synchronization: SyncState,
    correctionFrames: real)

  // ---------------------------------------------------------------- evaluation

  /** The slew actually applied: never more than a tenth of the motion. */
  function SlewCap(slew: real, f: Format, rate: Speed): real {
    MinR(slew, Fps(f) * AbsR(RateValue(rate)) * 0.1)
  }

  function Signum(x: real): real {
    if x < 0.0 then -1.0 else 1.0
  }

  /** What is left of a correction after slewing for a while, never past zero. */
  function WorkedOff(frames: real, elapsedNs: nat, slew: real): real {
    MaxR(AbsR(frames) - elapsedNs as real / 1_000_000_000.0 * slew, 0.0) * Signum(frames)
  }

  /** The part of the correction still to be worked off. */
  function Remaining(v: View, current: Scheduled, local: nat): real {
    if current.discontinuity == v.correctionDiscontinuity then
      WorkedOff(v.correctionFrames, Monus(local, v.correctionAt),
                SlewCap(v.slewFramesPerSecond, v.timeline.format, current.anchor.rate))
    else 0.0
  }

  predicate Initialized(v: View) {
    v.mapping.lastSampleNs != 0
  }

  function EvaluationTime(v: View, local: nat): nat {
    if v.sync == Uninitialized then v.timeline.anchor.timeNs else v.mapping.LeaderTime(local)
  }

  /** The corrected position in Q32 units, before the fallback is considered. */
  function OutputFixed(v: View, local: nat): int {
    var time := EvaluationTime(v, local);
    var current := EffectiveAt(v.timeline, time);
    Saturate(Fixed(AnchorAt(current.anchor, time, v.timeline.format))
             + Trunc(Remaining(v, current, local) * 4_294_967_296.0))
  }

  function Evaluate(v: View, local: nat): Reading {
    var current := EffectiveAt(v.timeline, EvaluationTime(v, local));
    FixedRoundTrip(OutputFixed(v, local));
    if Initialized(v) then
      Reading(FromFixed(OutputFixed(v, local)), v.timeline.format, current.anchor.rate, current.discontinuity,
              v.sync, Remaining(v, current, local))
    else
      Reading(v.fallbackPosition, v.fallbackFormat, PAUSED, current.discontinuity, Uninitialized, 0.0)
  }

  // ---------------------------------------------------------------- steps

  datatype Reported = Reported(session: Id16, discontinuity: nat)

  datatype FollowerState = FollowerState(
    view: View,
    estimator: EstimatorState,
    policy: CorrectionPolicy,
    large: nat,
    largeSign: int,
    everLocked: bool,
    expectedSession: Option<Id16>,
    reported: Option<Reported>)

  datatype StepResult = StepResult(state: FollowerState, correction: Option<Correction>)

  function Initial(fallback: Timeline, policy: CorrectionPolicy): FollowerState {
    FollowerState(
      View(fallback, fallback.anchor.position, fallback.format, NO_MAPPING, Disconnected, Uninitialized,
           0.0, 0, policy.slewFramesPerSecond, 0, 0, false, false),
      FRESH, policy, 0, 0, false, None, None)
  }

  function Bumped(generation: nat): nat {
    MinI(generation + 1, U64_MAX)
  }

  /** The discontinuity active at local time `now` under the current mapping. */
  function ActiveAt(v: View, now: nat): nat {
    EffectiveAt(v.timeline, v.mapping.LeaderTime(now)).discontinuity
  }

  function PhaseError(v: View, before: Pos, now: nat): real {
    (Fixed(before) - Fixed(PositionAt(v.timeline, v.mapping.LeaderTime(now)))) as real / 4_294_967_296.0
  }

  predicate IsLarge(policy: CorrectionPolicy, error: real) {
    AbsR(error) > policy.hardThresholdFrames
  }

  /** Confirmations held once a large error of this sign has been seen. */
  function CountLarge(large: nat, largeSign: int, sign: int, measurement: bool): nat {
    var kept := if sign == largeSign then large else 0;
    if measurement then MinI(kept + 1, 255) else kept
  }

  /** Either a confirmed hard realignment or a slew that keeps the output where it was. */
  function Correct(s: FollowerState, before: Pos, now: nat, measurement: bool): StepResult {
    var error := PhaseError(s.view, before, now);
    if IsLarge(s.policy, error) then
      var count := CountLarge(s.large, s.largeSign, SignOf(error), measurement);
      if count >= s.policy.confirmations then
        StepResult(s.(large := 0, largeSign := SignOf(error),
                      view := s.view.(correctionFrames := 0.0, resyncGeneration := Bumped(s.view.resyncGeneration))),
                   Some(HardResync(-error)))
      else SlewFrom(s.(large := count, largeSign := SignOf(error)), error, now)
    else SlewFrom(s.(large := 0), error, now)
  }

  function SlewFrom(s: FollowerState, error: real, now: nat): StepResult {
    StepResult(
      s.(view := s.view.(
           correctionFrames := error,
           slewFramesPerSecond :=
             if s.policy.settleTimeNs == 0 then s.policy.slewFramesPerSecond
             else AbsR(error) * 1_000_000_000.0 / s.policy.settleTimeNs as real,
           correctionAt := now,
           correctionDiscontinuity := ActiveAt(s.view, now))),
      Some(Slew(-error)))
  }

  function Connect(s: FollowerState): FollowerState {
    s.(large := 0, largeSign := 0, expectedSession := None, view := s.view.(connection := Connected))
  }

  /** A connection that has shown its session takes no other. */
  predicate Wanted(s: FollowerState, t: Timeline) {
    s.expectedSession.Some? ==> s.expectedSession.value == t.session
  }

  /** A snapshot received at local time `now`. */
  function Receive(s: FollowerState, t: Timeline, now: nat): StepResult {
    if s.expectedSession.Some? && s.expectedSession.value != t.session then StepResult(s, None)
    else
      var s1 := s.(expectedSession := Some(t.session));
      if s.view.timeline.session != t.session then ReceiveNew(s1, t)
      else if t.revision <= s.view.timeline.revision then StepResult(s1, None)
      else ReceiveNext(s1, t, now)
  }

  function ReceiveNew(s: FollowerState, t: Timeline): StepResult {
    StepResult(
      s.(estimator := FRESH, large := 0, largeSign := 0, everLocked := false,
         view := s.view.(timeline := t, mapping := NO_MAPPING, sync := Acquiring, recovering := false,
                         correctionFrames := 0.0, resyncGeneration := Bumped(s.view.resyncGeneration))),
      Some(NewSession))
  }

  /** The received timeline with everything the follower has applied latched into it. */
  function CaughtUp(s: FollowerState, t: Timeline, now: nat): Timeline {
    Latched(t, MaxI(s.view.timeline.discontinuity, Evaluate(s.view, now).discontinuity))
  }

  /** The rollback check: an applied discontinuity undone, or a format changed without one. */
  predicate RollsBack(s: FollowerState, t: Timeline, now: nat) {
    var before := Evaluate(s.view, now).discontinuity;
    var t1 := CaughtUp(s, t, now);
    t1.discontinuity < before || (t1.format != s.view.timeline.format && t1.discontinuity == before)
  }

  function ReceiveNext(s: FollowerState, t: Timeline, now: nat): StepResult {
    var before := Evaluate(s.view, now);
    var t1 := CaughtUp(s, t, now);
    if RollsBack(s, t, now) then StepResult(s, None)
    else
      var s1 := s.(view := s.view.(timeline := t1));
      if ActiveAt(s1.view, now) != before.discontinuity then
        Jump(s1, ActiveAt(s1.view, now))
      else Correct(s1, before.position, now, false)
  }

  /** An explicit discontinuity ends any correction and any confirmation count. */
  function Jump(s: FollowerState, id: nat): StepResult {
    StepResult(
      s.(large := 0, largeSign := 0, reported := Some(Reported(s.view.timeline.session, id)),
         view := s.view.(correctionFrames := 0.0)),
      Some(Discontinuity(id)))
  }

  /** The local time a measurement takes effect at. */
  function MeasuredAt(e: Exchange, processed: nat): nat {
    MaxI(processed, e.t4)
  }

  function Measure(s: FollowerState, e: Exchange, processed: nat): StepResult {
    if s.expectedSession.None? then StepResult(s, None)
    else
      var o := Observe(s.estimator, e);
      var s1 := s.(estimator := o.state, view := s.view.(recovering := o.state.recovery != []));
      if !o.accepted then StepResult(s1, None)
      else Adopt(s1, Evaluate(s.view, MeasuredAt(e, processed)), MeasuredAt(e, processed))
  }

  /** An accepted measurement replaces the mapping; `before` is the output it had until now. */
  function Adopt(s: FollowerState, before: Reading, now: nat): StepResult {
    var m := s.estimator.mapping;
    var s1 := s.(everLocked := s.everLocked || m.converged,
                 view := s.view.(mapping := m, sync := if m.converged then Synchronized else Acquiring));
    if !s.everLocked then
      StepResult(
        s1.(view := s1.view.(correctionFrames := 0.0, resyncGeneration := Bumped(s1.view.resyncGeneration))),
        Some(HardResync(-PhaseError(s1.view, before.position, now))))
    else if ActiveAt(s1.view, now) != before.discontinuity then Jump(s1, ActiveAt(s1.view, now))
    else Correct(s1, before.position, now, true)
  }

  function Tick(s: FollowerState, now: nat, staleAfter: nat): StepResult {
    if s.view.mapping.lastSampleNs == 0 then StepResult(s, None)
    else
      var sync := if Monus(now, s.view.mapping.lastSampleNs) > staleAfter then InHoldover else s.view.sync;
      var id := ActiveAt(s.view, now);
      var key := Reported(s.view.timeline.session, id);
      var s1 := s.(reported := Some(key), view := s.view.(sync := sync, timeline := Latched(s.view.timeline, id)));
      if s.reported.Some? && s.reported.value.session == key.session && s.reported.value.discontinuity != id then
        StepResult(s1.(large := 0, largeSign := 0), Some(Discontinuity(id)))
      else StepResult(s1, None)
  }

  function Disconnect(s: FollowerState): FollowerState {
    s.(view := s.view.(connection := Disconnected,
                       sync := if s.view.mapping.lastSampleNs != 0 then InHoldover else s.view.sync))
  }
}
