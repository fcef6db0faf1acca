/** What a follower's run can never undo, and exactly when it realigns hard. */
module FollowerHistory {
  import opened Arithmetic
  import opened Timecode
  import opened Clock
  import opened ClockRuns
  import opened Timelines
  import opened Follower
  import opened FollowerRuns

  // ---------------------------------------------------------------- no rollback

  /** The discontinuity a reading shows is never below the latched one. */
  lemma ReadingNotBelowLatched(v: View, local: nat)
    requires ValidTimeline(v.timeline)
    ensures Evaluate(v, local).discontinuity >= v.timeline.discontinuity
    ensures ActiveAt(v, local) >= v.timeline.discontinuity
  {
    EffectiveSound(Active(v.timeline), v.timeline.scheduled, EvaluationTime(v, local));
    EffectiveSound(Active(v.timeline), v.timeline.scheduled, v.mapping.LeaderTime(local));
    hide OutputFixed, Remaining, Effective;
  }

  /** What one step may change about the held timeline. */
  ghost predicate Forward(s: FollowerState, step: Step, r: StepResult) {
    var t, t' := s.view.timeline, r.state.view.timeline;
    && (t'.session == t.session ==>
          && t'.revision >= t.revision
          && t'.discontinuity >= t.discontinuity
          && (t'.revision == t.revision ==> exists d :: t' == Latched(t, d)))
    && (t'.session != t.session ==>
          step.Heard? && s.expectedSession.None? && r.correction == Some(NewSession) && t' == step.timeline)
    && (step.Heard? && r.correction.Some? ==>
          && t'.revision == step.timeline.revision && t'.session == step.timeline.session
          && (t'.session == t.session ==> t'.revision > t.revision))
  }

  lemma StepForward(s: FollowerState, step: Step)
    requires ValidFollower(s) && StepInput(step)
    ensures Forward(s, step, Apply(s, step))
  {
    hide ValidEstimator, Correct, Adopt, Evaluate, ActiveAt, RollsBack, ValidTimeline;
    var t := s.view.timeline;
    LatchedNothing(t);
    match step
    case Connecting =>
    case Heard(u, now) => ReceiveForward(s, u, now);
    case Probed(e, processed) => MeasureKeepsTimeline(s, e, processed);
    case Ticking(now, staleAfter) => TickForward(s, now, staleAfter);
    case Losing =>
  }

  lemma LatchedNothing(t: Timeline)
    requires ValidTimeline(t)
    ensures Latched(t, t.discontinuity) == t
  {
  }

  lemma TickForward(s: FollowerState, now: nat, staleAfter: nat)
    requires ValidFollower(s)
    ensures Forward(s, Ticking(now, staleAfter), Apply(s, Ticking(now, staleAfter)))
  {
    hide Tick, ActiveAt, ValidEstimator, ValidTimeline, Latched;
    LatchedNothing(s.view.timeline);
    LatchedSound(s.view.timeline, ActiveAt(s.view, now));
    TickLatches(s, now, staleAfter);
  }

  lemma TickLatches(s: FollowerState, now: nat, staleAfter: nat)
    ensures Tick(s, now, staleAfter).state.view.timeline
         == if Initialized(s.view) then Latched(s.view.timeline, ActiveAt(s.view, now)) else s.view.timeline
  {
    hide ActiveAt, Latched;
  }

  lemma MeasureKeepsTimeline(s: FollowerState, e: Exchange, processed: nat)
    ensures Measure(s, e, processed).state.view.timeline == s.view.timeline
  {
    hide Observe, Evaluate, PhaseError, ActiveAt;
  }

  lemma CorrectKeepsTimeline(s: FollowerState, before: Pos, now: nat, measurement: bool)
    ensures Correct(s, before, now, measurement).state.view.timeline == s.view.timeline
    ensures Correct(s, before, now, measurement).correction.Some?
    ensures Correct(s, before, now, measurement).correction != Some(NewSession)
  {
    hide PhaseError, ActiveAt;
  }

  lemma ReceiveForward(s: FollowerState, t: Timeline, now: nat)
    requires ValidFollower(s) && ValidTimeline(t)
    ensures Forward(s, Heard(t, now), Receive(s, t, now))
  {
    hide Receive, RollsBack, CaughtUp, Evaluate, ValidTimeline, ValidEstimator, Latched;
    LatchedNothing(s.view.timeline);
    HeldAfterHearing(s, t, now);
    if s.view.timeline.session == t.session && !RollsBack(s, t, now) {
      NotRolledForward(s, t, now);
    }
  }

  /** Unless it is rolled back a snapshot moves the held discontinuity on. */
  lemma NotRolledForward(s: FollowerState, t: Timeline, now: nat)
    requires ValidTimeline(s.view.timeline) && ValidTimeline(t) && !RollsBack(s, t, now)
    ensures var u := CaughtUp(s, t, now);
            && u.session == t.session && u.revision == t.revision
            && u.discontinuity >= s.view.timeline.discontinuity
  {
    hide Evaluate, Latched, ValidTimeline, ActiveAt;
    ReadingNotBelowLatched(s.view, now);
    LatchedSound(t, MaxI(s.view.timeline.discontinuity, Evaluate(s.view, now).discontinuity));
  }

  /** What hearing a snapshot leaves in place, and what it reports, in every case. */
  lemma HeldAfterHearing(s: FollowerState, t: Timeline, now: nat)
    ensures var r := Receive(s, t, now);
            var u, c := r.state.view.timeline, r.correction;
            if !Wanted(s, t) then u == s.view.timeline && c == None
            else if s.view.timeline.session != t.session then u == t && c == Some(NewSession)
            else if t.revision <= s.view.timeline.revision || RollsBack(s, t, now) then
              u == s.view.timeline && c == None
            else u == CaughtUp(s, t, now) && c.Some? && c != Some(NewSession)
  {
    hide Evaluate, ActiveAt, Correct, RollsBack, CaughtUp;
    var s1 := s.(expectedSession := Some(t.session));
    SameChecks(s, t, now);
    CorrectKeepsTimeline(s1.(view := s.view.(timeline := CaughtUp(s1, t, now))),
                         Evaluate(s.view, now).position, now, false);
  }

  ghost predicate SessionHeldAfter(s: FollowerState, steps: seq<Step>, k: nat) {
    k <= |steps| ==> After(s, steps[..k]).view.timeline.session == s.view.timeline.session
  }

  /** Every prefix of the run stays in the session it started in. */
  ghost predicate OneSession(s: FollowerState, steps: seq<Step>) {
    forall k: nat :: SessionHeldAfter(s, steps, k)
  }

  lemma PrefixOneSession(s: FollowerState, steps: seq<Step>)
    requires steps != [] && OneSession(s, steps)
    ensures OneSession(s, steps[..|steps| - 1])
  {
    var before := steps[..|steps| - 1];
    forall k: nat ensures SessionHeldAfter(s, before, k) {
      assert SessionHeldAfter(s, steps, k);
      assert k <= |before| ==> before[..k] == steps[..k];
    }
  }

  /** Within a session nothing goes back: over any run the revision and the latched
      discontinuity never fall, and no clock correction can show an earlier discontinuity
      than one a tick has latched. */
  lemma {:induction false} RunForward(s: FollowerState, steps: seq<Step>, local: nat)
    requires ValidFollower(s) && (forall step <- steps :: StepInput(step)) && OneSession(s, steps)
    ensures var v := After(s, steps).view;
            && v.timeline.revision >= s.view.timeline.revision
            && v.timeline.discontinuity >= s.view.timeline.discontinuity
            && Evaluate(v, local).discontinuity >= s.view.timeline.discontinuity
  {
    hide Evaluate, Apply, ValidTimeline;
    RunStaysValid(s, steps);
    ReadingNotBelowLatched(After(s, steps).view, local);
    if steps != [] {
      var before, step := steps[..|steps| - 1], steps[|steps| - 1];
      PrefixOneSession(s, steps);
      RunForward(s, before, local);
      RunStaysValid(s, before);
      assert step in steps;
      StepForward(After(s, before), step);
      assert steps[..|steps|] == steps && steps[..|before|] == before;
      assert SessionHeldAfter(s, steps, |steps|) && SessionHeldAfter(s, steps, |before|);
    }
  }

  /** A control applied by a tick stays applied, whatever mappings follow in the session. */
  lemma LatchedStaysApplied(s: FollowerState, now: nat, staleAfter: nat, steps: seq<Step>, local: nat)
    requires ValidFollower(s) && Initialized(s.view) && (forall step <- steps :: StepInput(step))
    requires OneSession(Tick(s, now, staleAfter).state, steps)
    ensures Evaluate(After(Tick(s, now, staleAfter).state, steps).view, local).discontinuity >= ActiveAt(s.view, now)
  {
    var r := Tick(s, now, staleAfter).state;
    TickKeepsValid(s, now, staleAfter);
    EffectiveIsUsed(s.view.timeline, s.view.mapping.LeaderTime(now));
    LatchedSound(s.view.timeline, ActiveAt(s.view, now));
    hide Evaluate, Latched, EffectiveAt, ValidTimeline, ValidEstimator, After;
    RunForward(r, steps, local);
  }

  lemma EffectiveIsUsed(t: Timeline, time: nat)
    requires ValidTimeline(t)
    ensures EffectiveAt(t, time).discontinuity in Ids(t) && EffectiveAt(t, time).discontinuity >= t.discontinuity
  {
    EffectiveSound(Active(t), t.scheduled, time);
  }

  /** On a connection that has shown its session, no other session is ever taken. */
  lemma {:induction false} SessionNeedsConnection(s: FollowerState, steps: seq<Step>)
    requires ValidFollower(s) && (forall step <- steps :: StepInput(step) && !step.Connecting?)
    requires s.expectedSession.Some?
    ensures After(s, steps).expectedSession == s.expectedSession
    ensures After(s, steps).view.timeline.session == s.view.timeline.session
  {
    if steps != [] {
      var before, step := steps[..|steps| - 1], steps[|steps| - 1];
      SessionNeedsConnection(s, before);
      RunStaysValid(s, before);
      assert step in steps;
      StepForward(After(s, before), step);
      hide ValidFollower, Forward;
      ExpectationKept(After(s, before), step);
    }
  }

  lemma ExpectationKept(s: FollowerState, step: Step)
    requires s.expectedSession.Some? && !step.Connecting?
    ensures Apply(s, step).state.expectedSession == s.expectedSession
  {
    hide Observe, Evaluate, PhaseError, ActiveAt, Latched;
  }

  // ---------------------------------------------------------------- hard realignment

  /** Output and trajectory are more than the threshold apart, and on which side the output is. */
  predicate Off(policy: CorrectionPolicy, error: real) {
    error > policy.hardThresholdFrames || -error > policy.hardThresholdFrames
  }

  function Side(error: real): int {
    if error > 0.0 then 1 else -1
  }

  /** What a step contributes to the confirmation of a large error. */
  datatype Phase = Reset | Seen(large: bool, sign: int, counted: bool)

  /** Counted large errors of one sign since the last reset, small error or opposite sign. */
  function Streak(log: seq<Phase>, sign: int): nat {
    if log == [] then 0
    else match log[|log| - 1]
      case Reset => 0
      case Seen(large, s, counted) =>
        if !large || s != sign then 0
        else (if counted then 1 else 0) + Streak(log[..|log| - 1], sign)
  }

  /** The phase error a step weighs, if it comes to weighing one. */
  function Judged(s: FollowerState, step: Step): Option<real> {
    match step
    case Heard(t, now) =>
      var s1 := s.(view := s.view.(timeline := CaughtUp(s, t, now)));
      if || (s.expectedSession.Some? && s.expectedSession.value != t.session)
         || s.view.timeline.session != t.session
         || t.revision <= s.view.timeline.revision
         || RollsBack(s, t, now)
         || ActiveAt(s1.view, now) != Evaluate(s.view, now).discontinuity
      then None
      else Some(PhaseError(s1.view, Evaluate(s.view, now).position, now))
    case Probed(e, processed) =>
      var now, o := MeasuredAt(e, processed), Observe(s.estimator, e);
      var v := s.view.(mapping := o.state.mapping);
      if || s.expectedSession.None? || !o.accepted || !s.everLocked
         || ActiveAt(v, now) != Evaluate(s.view, now).discontinuity
      then None
      else Some(PhaseError(v, Evaluate(s.view, now).position, now))
    case _ => None
  }

  /** The error weighed is how far the output shown is from the trajectory then held, in frames. */
  lemma JudgedIsPhase(s: FollowerState, step: Step, now: nat)
    requires (step.Heard? || step.Probed?) && TakesEffectAt(step, now) && Judged(s, step).Some?
    ensures var v := Apply(s, step).state.view;
            Judged(s, step).value * 4_294_967_296.0
            == (Fixed(Evaluate(s.view, now).position)
                - Fixed(PositionAt(v.timeline, v.mapping.LeaderTime(now)))) as real
  {
    hide Observe, Evaluate, ActiveAt, Latched, RollsBack, CaughtUp, PositionAt, Fixed;
    if step.Heard? {
      SameChecks(s, step.timeline, now);
    }
  }

  predicate Resets(step: Step, c: Option<Correction>) {
    step.Connecting? || (c.Some? && (c.value.NewSession? || c.value.Discontinuity?))
  }

  function PhaseOf(s: FollowerState, step: Step): seq<Phase> {
    var judged := Judged(s, step);
    var c := Apply(s, step).correction;
    if judged.Some? then
      [Seen(Off(s.policy, judged.value), Side(judged.value), step.Probed?)]
      + if c.Some? && c.value.HardResync? then [Reset] else []
    else if Resets(step, c) then [Reset]
    else []
  }

  function Log(s: FollowerState, steps: seq<Step>): seq<Phase> {
    if steps == [] then []
    else Log(s, steps[..|steps| - 1]) + PhaseOf(After(s, steps[..|steps| - 1]), steps[|steps| - 1])
  }

  /** The core's two counters are the streak of the log. */
  ghost predicate Tracks(s: FollowerState, log: seq<Phase>) {
    && (s.large > 0 ==> s.largeSign in {1, -1})
    && Streak(log, 1) == (if s.largeSign == 1 then s.large else 0)
    && Streak(log, -1) == (if s.largeSign == -1 then s.large else 0)
  }

  lemma StreakExtended(log: seq<Phase>, p: Phase, sign: int)
    ensures Streak(log + [p], sign)
            == match p
               case Reset => 0
               case Seen(large, s, counted) =>
                 if !large || s != sign then 0 else (if counted then 1 else 0) + Streak(log, sign)
  {
    assert (log + [p])[..|log|] == log;
  }

  /** Weighing an error advances the streak, and realigns exactly when it is completed. */
  lemma CorrectTracks(s: FollowerState, before: Pos, now: nat, measurement: bool, log: seq<Phase>)
    requires ValidPolicy(s.policy) && s.large < s.policy.confirmations && Tracks(s, log)
    ensures var error := PhaseError(s.view, before, now);
            var seen := Seen(Off(s.policy, error), Side(error), measurement);
            var r := Correct(s, before, now, measurement);
            && r.correction.Some? && (r.correction.value.Slew? || r.correction.value.HardResync?)
            && (r.correction.value.HardResync?
                <==> measurement && Streak(log + [seen], Side(error)) == s.policy.confirmations)
            && Tracks(r.state, if r.correction.value.HardResync? then log + [seen] + [Reset] else log + [seen])
  {
    hide PhaseError, ActiveAt;
    var error := PhaseError(s.view, before, now);
    var seen := Seen(Off(s.policy, error), Side(error), measurement);
    StreakExtended(log, seen, 1);
    StreakExtended(log, seen, -1);
    StreakExtended(log + [seen], Reset, 1);
    StreakExtended(log + [seen], Reset, -1);
  }

  /** After first lock, a step realigns hard exactly when it is an accepted measurement whose
      error completes the policy's number of counted large errors of one sign. */
  ghost predicate RealignsExactly(s: FollowerState, step: Step, log: seq<Phase>) {
    var c, judged := Apply(s, step).correction, Judged(s, step);
    s.everLocked ==>
      ((c.Some? && c.value.HardResync?)
       <==> && step.Probed? && judged.Some?
            && Streak(log + [Seen(Off(s.policy, judged.value), Side(judged.value), true)], Side(judged.value))
               == s.policy.confirmations)
  }

  ghost predicate Acquired(s: FollowerState) {
    s.everLocked || s.large == 0
  }

  lemma SnapshotTracks(s: FollowerState, t: Timeline, now: nat, log: seq<Phase>)
    requires ValidFollower(s) && Tracks(s, log) && Acquired(s)
    ensures var r := Receive(s, t, now);
            && Tracks(r.state, log + PhaseOf(s, Heard(t, now))) && Acquired(r.state)
            && RealignsExactly(s, Heard(t, now), log)
  {
    hide Correct, ActiveAt, PhaseError, Evaluate, ValidTimeline, ValidEstimator, RollsBack, Latched, Streak, Off;
    StreakExtended(log, Reset, 1);
    StreakExtended(log, Reset, -1);
    assert log + [] == log;
    var step := Heard(t, now);
    var s1 := s.(expectedSession := Some(t.session));
    SameChecks(s, t, now);
    if Judged(s, step).Some? {
      var s2 := s1.(view := s.view.(timeline := CaughtUp(s1, t, now)));
      CorrectTracks(s2, Evaluate(s.view, now).position, now, false, log);
      CorrectLock(s2, Evaluate(s.view, now).position, now, false, log);
      var error := PhaseError(s2.view, Evaluate(s.view, now).position, now);
      var seen := Seen(Off(s.policy, error), Side(error), false);
      assert log + ([seen] + [Reset]) == log + [seen] + [Reset];
      assert log + ([seen] + []) == log + [seen];
    }
  }

  lemma SameChecks(s: FollowerState, t: Timeline, now: nat)
    ensures var s1 := s.(expectedSession := Some(t.session));
            CaughtUp(s1, t, now) == CaughtUp(s, t, now) && RollsBack(s1, t, now) == RollsBack(s, t, now)
  {
  }

  /** Weighing never unlocks, and a heartbeat never starts a count. */
  lemma CorrectLock(s: FollowerState, before: Pos, now: nat, measurement: bool, log: seq<Phase>)
    requires ValidPolicy(s.policy)
    ensures var r := Correct(s, before, now, measurement);
            r.state.everLocked == s.everLocked && (!measurement && s.large == 0 ==> r.state.large == 0)
  {
    hide PhaseError, ActiveAt;
  }

  lemma MeasurementTracks(s: FollowerState, e: Exchange, processed: nat, log: seq<Phase>)
    requires ValidFollower(s) && Tracks(s, log) && Acquired(s)
    ensures var r := Measure(s, e, processed);
            && Tracks(r.state, log + PhaseOf(s, Probed(e, processed))) && Acquired(r.state)
            && RealignsExactly(s, Probed(e, processed), log)
  {
    hide Observe, Correct, ActiveAt, PhaseError, Evaluate, ValidTimeline, ValidEstimator, MeasuredAt, Streak, Off;
    StreakExtended(log, Reset, 1);
    StreakExtended(log, Reset, -1);
    assert log + [] == log;
    var now, o, step := MeasuredAt(e, processed), Observe(s.estimator, e), Probed(e, processed);
    if Judged(s, step).Some? {
      var m := o.state.mapping;
      var s1 := s.(estimator := o.state, everLocked := s.everLocked || m.converged,
                   view := s.view.(recovering := o.state.recovery != [], mapping := m,
                                   sync := if m.converged then Synchronized else Acquiring));
      SameMeasurement(s.view.(mapping := m), s1.view, Evaluate(s.view, now).position, now);
      CorrectTracks(s1, Evaluate(s.view, now).position, now, true, log);
      CorrectLock(s1, Evaluate(s.view, now).position, now, true, log);
      var error := PhaseError(s1.view, Evaluate(s.view, now).position, now);
      var seen := Seen(Off(s.policy, error), Side(error), true);
      assert log + ([seen] + [Reset]) == log + [seen] + [Reset];
      assert log + ([seen] + []) == log + [seen];
    } else if s.expectedSession.Some? && o.accepted {
      SameMeasurement(s.view.(mapping := o.state.mapping),
                      s.view.(recovering := o.state.recovery != [], mapping := o.state.mapping,
                              sync := if o.state.mapping.converged then Synchronized else Acquiring),
                      Evaluate(s.view, now).position, now);
    }
  }

  lemma SameMeasurement(v: View, w: View, before: Pos, now: nat)
    requires v.timeline == w.timeline && v.mapping == w.mapping
    ensures ActiveAt(v, now) == ActiveAt(w, now) && PhaseError(v, before, now) == PhaseError(w, before, now)
  {
  }

  lemma StepTracks(s: FollowerState, step: Step, log: seq<Phase>)
    requires ValidFollower(s) && StepInput(step) && Tracks(s, log) && Acquired(s)
    ensures Tracks(Apply(s, step).state, log + PhaseOf(s, step)) && Acquired(Apply(s, step).state)
    ensures RealignsExactly(s, step, log)
  {
    hide Receive, Measure, Streak, ActiveAt, Latched, ValidTimeline, ValidEstimator;
    StreakExtended(log, Reset, 1);
    StreakExtended(log, Reset, -1);
    assert log + [] == log;
    match step
    case Connecting =>
    case Heard(t, now) => SnapshotTracks(s, t, now, log);
    case Probed(e, processed) => MeasurementTracks(s, e, processed, log);
    case Ticking(now, staleAfter) =>
    case Losing =>
  }

  /** Over every run from the start, hard realignments after lock are exactly the completed
      confirmations; in particular no heartbeat ever causes one. */
  lemma {:induction false} RealignmentsConfirmed(
      fallback: Timeline, policy: CorrectionPolicy, steps: seq<Step>, step: Step)
    requires ValidTimeline(fallback) && ValidPolicy(policy)
    requires StepInput(step) && forall x <- steps :: StepInput(x)
    ensures var s0 := Initial(fallback, policy);
            && Tracks(After(s0, steps), Log(s0, steps)) && Acquired(After(s0, steps))
            && RealignsExactly(After(s0, steps), step, Log(s0, steps))
  {
    var s0 := Initial(fallback, policy);
    InitialValid(fallback, policy);
    RunStaysValid(s0, steps);
    hide ValidFollower, PhaseOf, RealignsExactly, Apply, ValidTimeline, ValidPolicy;
    if steps == [] {
      assert Streak([], 1) == 0 && Streak([], -1) == 0;
    } else {
      var before, last := steps[..|steps| - 1], steps[|steps| - 1];
      assert last in steps;
      RealignmentsConfirmed(fallback, policy, before, last);
      RunStaysValid(s0, before);
      StepTracks(After(s0, before), last, Log(s0, before));
    }
    StepTracks(After(s0, steps), step, Log(s0, steps));
  }
}
