/** The transport-independent follower as the source has it: an object whose methods update
    its view and counters in place. Each method is proved to take exactly the step that
    module `Follower` defines, which is what the safety results are about. */
module FollowerCore {
  import opened Arithmetic
  import opened Timecode
  import opened Clock
  import opened Estimator
  import opened Timelines
  import opened Follower

  class Core {
    var view: View
    var estimator: ClockEstimator
    var policy: CorrectionPolicy
    var large: nat
    var largeSign: int
    var everLocked: bool
    var expectedSession: Option<Id16>
    var reported: Option<Reported>

    function State(): FollowerState
      reads this, estimator
    {
      FollowerState(view, estimator.State(), policy, large, largeSign, everLocked, expectedSession, reported)
    }

    constructor (fallback: Timeline, policy: CorrectionPolicy)
      ensures fresh(estimator) && State() == Initial(fallback, policy)
    {
      view := Initial(fallback, policy).view;
      estimator := new ClockEstimator();
      this.policy := policy;
      large, largeSign, everLocked, expectedSession, reported := 0, 0, false, None, None;
    }

    /** Called once for each new transport; permits another leader session. */
    method Connected()
      modifies this
      ensures estimator == old(estimator) && State() == Connect(old(State()))
    {
      large := 0;
      largeSign := 0;
      expectedSession := None;
      view := view.(connection := ConnectionState.Connected);
    }

    /** A validated snapshot received at local time `now`. */
    method Receive(t: Timeline, now: nat) returns (correction: Option<Correction>)
      modifies this
      ensures estimator == old(estimator) || fresh(estimator)
      ensures State() == Follower.Receive(old(State()), t, now).state
      ensures correction == Follower.Receive(old(State()), t, now).correction
    {
      hide Evaluate, PhaseError, Latched, EffectiveAt, PositionAt;
      if expectedSession.Some? && expectedSession.value != t.session {
        return None;
      }
      expectedSession := Some(t.session);
      var isNew := view.timeline.session != t.session;
      if !isNew && t.revision <= view.timeline.revision {
        return None;
      }
      if isNew {
        ReplaceSession(t);
        return Some(NewSession);
      }
      var before := Evaluate(view, now);
      var latched := Latch(t, MaxI(view.timeline.discontinuity, before.discontinuity));
      if latched.discontinuity < before.discontinuity
         || (latched.format != view.timeline.format && latched.discontinuity == before.discontinuity) {
        return None;
      }
      var _, _, id := At(latched, view.mapping.LeaderTime(now));
      view := view.(timeline := latched);
      if id != before.discontinuity {
        large := 0;
        largeSign := 0;
        view := view.(correctionFrames := 0.0);
        reported := Some(Reported(t.session, id));
        LatchedKeepsSession(t, MaxI(old(view).timeline.discontinuity, before.discontinuity));
        return Some(Discontinuity(id));
      }
      correction := Correct(before.position, now, false);
    }

    /** A first snapshot of another session resets clock estimation and every count. */
    method ReplaceSession(t: Timeline)
      modifies this
      ensures fresh(estimator) && State() == ReceiveNew(old(State()), t).state
    {
      estimator := new ClockEstimator();
      large := 0;
      largeSign := 0;
      everLocked := false;
      view := view.(mapping := NO_MAPPING, sync := Acquiring, recovering := false, timeline := t,
                    correctionFrames := 0.0, resyncGeneration := Bumped(view.resyncGeneration));
    }

    /** A matched exchange, applied where its processing starts. */
    method Measure(e: Exchange, processed: nat) returns (correction: Option<Correction>)
      modifies this, estimator
      ensures estimator == old(estimator)
      ensures State() == Follower.Measure(old(State()), e, processed).state
      ensures correction == Follower.Measure(old(State()), e, processed).correction
    {
      hide Evaluate, PhaseError, EffectiveAt, PositionAt, Clock.Observe;
      if expectedSession.None? {
        return None;
      }
      var now := MaxI(processed, e.t4);
      var before := Evaluate(view, now);
      var accepted := estimator.Observe(e);
      view := view.(recovering := estimator.Recovering());
      if !accepted {
        return None;
      }
      correction := Adopt(before, now);
    }

    method Adopt(before: Reading, now: nat) returns (correction: Option<Correction>)
      modifies this
      ensures estimator == old(estimator)
      ensures State() == Follower.Adopt(old(State()), before, now).state
      ensures correction == Follower.Adopt(old(State()), before, now).correction
    {
      hide EffectiveAt, PositionAt;
      var acquired := everLocked;
      view := view.(mapping := estimator.mapping);
      everLocked := everLocked || view.mapping.converged;
      view := view.(sync := if view.mapping.converged then Synchronized else Acquiring);
      var desired, _, id := At(view.timeline, view.mapping.LeaderTime(now));
      if !acquired {
        view := view.(correctionFrames := 0.0, resyncGeneration := Bumped(view.resyncGeneration));
        return Some(HardResync(-((Fixed(before.position) - Fixed(desired)) as real / 4_294_967_296.0)));
      }
      if id != before.discontinuity {
        large := 0;
        largeSign := 0;
        view := view.(correctionFrames := 0.0);
        reported := Some(Reported(view.timeline.session, id));
        return Some(Discontinuity(id));
      }
      correction := Correct(before.position, now, true);
    }

    method Correct(before: Pos, now: nat, measurement: bool) returns (correction: Option<Correction>)
      modifies this
      ensures estimator == old(estimator)
      ensures State() == Follower.Correct(old(State()), before, now, measurement).state
      ensures correction == Follower.Correct(old(State()), before, now, measurement).correction
    {
      hide EffectiveAt, PositionAt;
      var desired, _, id := At(view.timeline, view.mapping.LeaderTime(now));
      var error := (Fixed(before) - Fixed(desired)) as real / 4_294_967_296.0;
      assert error == PhaseError(view, before, now) && id == ActiveAt(view, now);
      hide Fixed, SlewFrom, PhaseError, ActiveAt;
      if AbsR(error) > policy.hardThresholdFrames {
        var sign := if error > 0.0 then 1 else -1;
        if sign != largeSign {
          large := 0;
        }
        largeSign := sign;
        if measurement {
          large := MinI(large + 1, 255);
        }
        if large >= policy.confirmations {
          large := 0;
          view := view.(correctionFrames := 0.0, resyncGeneration := Bumped(view.resyncGeneration));
          return Some(HardResync(-error));
        }
      } else {
        large := 0;
      }
      correction := StartSlew(error, now, id);
    }

    /** The tail of `correct`: the error becomes the correction to be worked off. */
    method StartSlew(error: real, now: nat, id: nat) returns (correction: Option<Correction>)
      requires id == ActiveAt(view, now)
      modifies this`view
      ensures State() == SlewFrom(old(State()), error, now).state
      ensures correction == SlewFrom(old(State()), error, now).correction
    {
      hide ActiveAt;
      view := view.(
        correctionFrames := error,
        slewFramesPerSecond := if policy.settleTimeNs == 0 then policy.slewFramesPerSecond
                               else AbsR(error) * 1_000_000_000.0 / policy.settleTimeNs as real,
        correctionAt := now,
        correctionDiscontinuity := id);
      return Some(Slew(-error));
    }

    /** Staleness, and latching of the control now in effect. */
    method Tick(now: nat, staleAfter: nat) returns (correction: Option<Correction>)
      modifies this
      ensures estimator == old(estimator)
      ensures State() == Follower.Tick(old(State()), now, staleAfter).state
      ensures correction == Follower.Tick(old(State()), now, staleAfter).correction
    {
      hide EffectiveAt, PositionAt, Latched;
      if view.mapping.lastSampleNs == 0 {
        return None;
      }
      if Monus(now, view.mapping.lastSampleNs) > staleAfter {
        view := view.(sync := InHoldover);
      }
      var _, _, id := At(view.timeline, view.mapping.LeaderTime(now));
      var latched := Latch(view.timeline, id);
      var key := Reported(view.timeline.session, id);
      view := view.(timeline := latched);
      var previous := reported;
      reported := Some(key);
      if previous.Some? && previous.value.session == key.session && previous.value.discontinuity != id {
        large := 0;
        largeSign := 0;
        return Some(Discontinuity(id));
      }
      return None;
    }

    method Disconnected()
      modifies this
      ensures estimator == old(estimator) && State() == Disconnect(old(State()))
    {
      view := view.(connection := ConnectionState.Disconnected);
      if view.mapping.lastSampleNs != 0 {
        view := view.(sync := InHoldover);
      }
    }
  }

  lemma {:induction false} LatchedKeepsSession(t: Timeline, d: nat)
    ensures Latched(t, d).session == t.session
    decreases |t.scheduled|
  {
    if t.scheduled != [] && t.scheduled[0].discontinuity <= d {
      LatchedKeepsSession(Promoted(t), d);
    }
  }
}
