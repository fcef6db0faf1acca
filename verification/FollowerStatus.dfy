/** What a follower shows besides its position: format, rate, synchronization, counters. */
module FollowerStatus {
  import opened Arithmetic
  import opened Timecode
  import opened Timelines
  import opened Clock
  import opened ClockRuns
  import opened Follower
  import opened FollowerRuns
  import opened FollowerHistory
  import opened Boundary

  // ---------------------------------------------------------------- readings

  lemma StepKeepsFallback(s: FollowerState, step: Step)
    ensures var v := Apply(s, step).state.view;
            && v.fallbackPosition == s.view.fallbackPosition && v.fallbackFormat == s.view.fallbackFormat
            && v.localClock == s.view.localClock
  {
    hide Receive, Measure, Tick;
    match step
    case Connecting =>
    case Heard(t, now) => HearingKeepsFallback(s, t, now);
    case Probed(e, processed) => MeasuringKeepsFallback(s, e, processed);
    case Ticking(now, staleAfter) => TickKeepsFallback(s, now, staleAfter);
    case Losing =>
  }

  lemma CorrectKeepsFallback(s: FollowerState, before: Pos, now: nat, measurement: bool)
    ensures SameFallback(Correct(s, before, now, measurement).state.view, s.view)
  {
    hide PhaseError, ActiveAt;
  }

  predicate SameFallback(v: View, w: View) {
    v.fallbackPosition == w.fallbackPosition && v.fallbackFormat == w.fallbackFormat && v.localClock == w.localClock
  }

  lemma HearingKeepsFallback(s: FollowerState, t: Timeline, now: nat)
    ensures SameFallback(Receive(s, t, now).state.view, s.view)
  {
    hide Evaluate, ActiveAt, CaughtUp, RollsBack, Correct;
    var s1 := s.(expectedSession := Some(t.session));
    CorrectKeepsFallback(s1.(view := s.view.(timeline := CaughtUp(s1, t, now))), Evaluate(s.view, now).position, now,
                         false);
  }

  lemma MeasuringKeepsFallback(s: FollowerState, e: Exchange, processed: nat)
    ensures SameFallback(Measure(s, e, processed).state.view, s.view)
  {
    hide Observe, Evaluate, PhaseError, ActiveAt;
  }

  lemma TickKeepsFallback(s: FollowerState, now: nat, staleAfter: nat)
    ensures SameFallback(Tick(s, now, staleAfter).state.view, s.view)
  {
    hide ActiveAt, Latched;
  }

  lemma {:induction false} RunKeepsFallback(s: FollowerState, steps: seq<Step>)
    ensures var v := After(s, steps).view;
            && v.fallbackPosition == s.view.fallbackPosition && v.fallbackFormat == s.view.fallbackFormat
            && v.localClock == s.view.localClock
  {
    hide Apply;
    if steps != [] {
      RunKeepsFallback(s, steps[..|steps| - 1]);
      StepKeepsFallback(After(s, steps[..|steps| - 1]), steps[|steps| - 1]);
    }
  }

  /** Over every run: once measured, a reading has the format of the held timeline and the rate and
      discontinuity of its entry in effect; until then it is the fallback's position and format,
      paused and uninitialized, with no deadline ahead. */
  lemma RunReading(fallback: Timeline, policy: CorrectionPolicy, steps: seq<Step>, local: nat)
    requires ValidTimeline(fallback) && ValidPolicy(policy) && forall step <- steps :: StepInput(step)
    ensures var v := After(Initial(fallback, policy), steps).view;
            var r, e := Evaluate(v, local), EffectiveAt(v.timeline, v.mapping.LeaderTime(local));
            if v.mapping.lastSampleNs > 0 then
              && r.format == v.timeline.format && r.rate == e.anchor.rate && r.discontinuity == e.discontinuity
              && r.synchronization == v.sync && v.sync != Uninitialized
            else
              && r.position == fallback.anchor.position && r.format == fallback.format && r.rate == Rate(0, 1)
              && r.synchronization == Uninitialized && r.correctionFrames == 0.0
              && NextBoundary(v, local) == None
  {
    InitialValid(fallback, policy);
    RunStaysValid(Initial(fallback, policy), steps);
    RunKeepsFallback(Initial(fallback, policy), steps);
    hide After, EffectiveAt, OutputFixed, Remaining, ValidTimeline, ValidEstimator, FromFixed;
  }

  // ---------------------------------------------------------------- synchronization

  /** What bears on synchronization: a session begins, a measurement is accepted, the latest one is
      found too old, the connection is lost. */
  datatype Event = Began | Measured(receipt: nat, locked: bool) | Expired | Parted

  /** When the latest accepted measurement of the session was received, zero if there is none. */
  function LatestReceipt(log: seq<Event>): nat {
    if log == [] then 0
    else match log[|log| - 1]
      case Began => 0
      case Measured(receipt, _) => receipt
      case _ => LatestReceipt(log[..|log| - 1])
  }

  function Events(s0: FollowerState, steps: seq<Step>): seq<Event> {
    if steps == [] then []
    else
      var front, step := steps[..|steps| - 1], steps[|steps| - 1];
      var log, s := Events(s0, front), After(s0, front);
      log + match step
            case Connecting => []
            case Heard(_, _) => if Apply(s, step).correction == Some(NewSession) then [Began] else []
            case Probed(e, _) =>
              var o := Observe(s.estimator, e);
              if s.expectedSession.Some? && o.accepted then [Measured(e.t4, o.state.mapping.converged)] else []
            case Ticking(now, staleAfter) =>
              if LatestReceipt(log) > 0 && now > LatestReceipt(log) + staleAfter then [Expired] else []
            case Losing => if LatestReceipt(log) > 0 then [Parted] else []
  }

  function SyncOf(log: seq<Event>): SyncState {
    if log == [] then Uninitialized
    else match log[|log| - 1]
      case Began => Acquiring
      case Measured(_, locked) => if locked then Synchronized else Acquiring
      case Expired => InHoldover
      case Parted => InHoldover
  }

  ghost predicate InStatus(s: FollowerState, log: seq<Event>) {
    && s.view.sync == SyncOf(log) && s.view.mapping.lastSampleNs == LatestReceipt(log)
    && s.view.recovering == (s.estimator.recovery != [])
  }

  lemma LogExtended(log: seq<Event>, e: Event)
    ensures SyncOf(log + [e]) == match e
                                 case Began => Acquiring
                                 case Measured(_, locked) => if locked then Synchronized else Acquiring
                                 case _ => InHoldover
    ensures LatestReceipt(log + [e]) == match e
                                        case Began => 0
                                        case Measured(receipt, _) => receipt
                                        case _ => LatestReceipt(log)
  {
    assert (log + [e])[..|log|] == log;
  }

  lemma HearingStatus(s: FollowerState, t: Timeline, now: nat)
    ensures var r := Receive(s, t, now);
            var v := r.state.view;
            if r.correction == Some(NewSession) then
              v.sync == Acquiring && v.mapping.lastSampleNs == 0 && !v.recovering && r.state.estimator == FRESH
            else
              && v.sync == s.view.sync && v.mapping == s.view.mapping && v.recovering == s.view.recovering
              && r.state.estimator == s.estimator
  {
    hide Evaluate, ActiveAt, PhaseError, CaughtUp, RollsBack, Correct;
    var s1 := s.(expectedSession := Some(t.session));
    CorrectStatus(s1.(view := s.view.(timeline := CaughtUp(s1, t, now))), Evaluate(s.view, now).position, now, false);
  }

  lemma CorrectStatus(s: FollowerState, before: Pos, now: nat, measurement: bool)
    ensures var r := Correct(s, before, now, measurement);
            && r.correction.Some? && r.correction.value != NewSession
            && r.state.view.sync == s.view.sync && r.state.view.mapping == s.view.mapping
            && r.state.view.recovering == s.view.recovering && r.state.estimator == s.estimator
  {
    hide PhaseError, ActiveAt;
  }

  lemma MeasuringStatus(s: FollowerState, e: Exchange, processed: nat)
    ensures var v := Measure(s, e, processed).state.view;
            var o := Observe(s.estimator, e);
            if s.expectedSession.None? then Measure(s, e, processed).state == s
            else
              && v.recovering == (o.state.recovery != []) && Measure(s, e, processed).state.estimator == o.state
              && (if !o.accepted then v.sync == s.view.sync && v.mapping == s.view.mapping
                  else v.sync == (if o.state.mapping.converged then Synchronized else Acquiring)
                       && v.mapping == o.state.mapping)
  {
    hide Observe, Evaluate, PhaseError, ActiveAt;
  }

  lemma TickStatus(s: FollowerState, now: nat, staleAfter: nat)
    ensures var r := Tick(s, now, staleAfter);
            var v := r.state.view;
            && v.mapping == s.view.mapping && v.recovering == s.view.recovering && r.state.estimator == s.estimator
            && v.sync == (if s.view.mapping.lastSampleNs > 0 && now > s.view.mapping.lastSampleNs + staleAfter
                          then InHoldover else s.view.sync)
  {
    hide ActiveAt, Latched;
  }

  /** Over every run the synchronization shown is what the latest event that bears on it says, the
      latest receipt is that of the last accepted measurement of the session, and recovery is shown
      exactly while observations are quarantined. */
  lemma {:induction false} RunStatus(fallback: Timeline, policy: CorrectionPolicy, steps: seq<Step>)
    requires ValidTimeline(fallback) && ValidPolicy(policy) && forall step <- steps :: StepInput(step)
    ensures InStatus(After(Initial(fallback, policy), steps), Events(Initial(fallback, policy), steps))
  {
    var s0 := Initial(fallback, policy);
    if steps != [] {
      var front, step := steps[..|steps| - 1], steps[|steps| - 1];
      RunStatus(fallback, policy, front);
      InitialValid(fallback, policy);
      RunStaysValid(s0, front);
      var s, log := After(s0, front), Events(s0, front);
      hide Receive, Measure, Tick, Observe, ValidTimeline, ValidEstimator, Initial;
      LogExtended(log, Began);
      LogExtended(log, Expired);
      LogExtended(log, Parted);
      assert log + [] == log;
      match step
      case Connecting =>
      case Heard(t, now) => HearingStatus(s, t, now);
      case Probed(e, processed) =>
        MeasuringStatus(s, e, processed);
        LogExtended(log, Measured(e.t4, Observe(s.estimator, e).state.mapping.converged));
        if Observe(s.estimator, e).accepted {
          AcceptedReceipt(s.estimator, e);
        }
      case Ticking(now, staleAfter) => TickStatus(s, now, staleAfter);
      case Losing =>
    }
  }

  /** Whether a measurement of the session has ever converged. */
  function EverLocked(log: seq<Event>): bool {
    if log == [] then false
    else match log[|log| - 1]
      case Began => false
      case Measured(_, locked) => locked || EverLocked(log[..|log| - 1])
      case _ => EverLocked(log[..|log| - 1])
  }

  lemma StepLocks(s: FollowerState, step: Step)
    ensures Apply(s, step).state.everLocked
         == match step
            case Heard(_, _) => s.everLocked && Apply(s, step).correction != Some(NewSession)
            case Probed(e, _) =>
              s.everLocked || (s.expectedSession.Some? && Observe(s.estimator, e).accepted
                               && Observe(s.estimator, e).state.mapping.converged)
            case _ => s.everLocked
  {
    hide Observe, Evaluate, PhaseError, ActiveAt, Latched, RollsBack, CaughtUp;
  }

  lemma LockExtended(log: seq<Event>, e: Event)
    ensures EverLocked(log + [e]) == match e
                                     case Began => false
                                     case Measured(_, locked) => locked || EverLocked(log)
                                     case _ => EverLocked(log)
  {
    assert (log + [e])[..|log|] == log;
  }

  /** Over every run acquisition has ended exactly if a measurement of the session has converged. */
  lemma {:induction false} RunLocked(fallback: Timeline, policy: CorrectionPolicy, steps: seq<Step>)
    ensures var s0 := Initial(fallback, policy);
            After(s0, steps).everLocked == EverLocked(Events(s0, steps))
  {
    hide Apply, Observe, LatestReceipt;
    if steps != [] {
      var s0, front, step := Initial(fallback, policy), steps[..|steps| - 1], steps[|steps| - 1];
      RunLocked(fallback, policy, front);
      StepLocks(After(s0, front), step);
      var log := Events(s0, front);
      assert log + [] == log;
      LockExtended(log, Began);
      LockExtended(log, Expired);
      LockExtended(log, Parted);
      if step.Probed? {
        var o := Observe(After(s0, front).estimator, step.exchange);
        LockExtended(log, Measured(step.exchange.t4, o.state.mapping.converged));
      }
    }
  }

  // ---------------------------------------------------------------- connections

  /** Connected from a connection until it is lost. */
  predicate Attached(steps: seq<Step>) {
    steps != []
    && (steps[|steps| - 1].Connecting? || (!steps[|steps| - 1].Losing? && Attached(steps[..|steps| - 1])))
  }

  lemma StepAttaches(s: FollowerState, step: Step)
    ensures Apply(s, step).state.view.connection
         == if step.Connecting? then Connected else if step.Losing? then Disconnected else s.view.connection
  {
    hide Observe, Evaluate, PhaseError, ActiveAt, Latched, RollsBack, CaughtUp;
  }

  lemma {:induction false} RunConnection(fallback: Timeline, policy: CorrectionPolicy, steps: seq<Step>)
    ensures After(Initial(fallback, policy), steps).view.connection
         == if Attached(steps) then Connected else Disconnected
  {
    hide Apply;
    if steps != [] {
      RunConnection(fallback, policy, steps[..|steps| - 1]);
      StepAttaches(After(Initial(fallback, policy), steps[..|steps| - 1]), steps[|steps| - 1]);
    }
  }

  /** The first snapshot on a new connection is always heard: one of another session replaces the held
      timeline and starts the clock over. */
  lemma NewConnectionAdmits(s: FollowerState, t: Timeline, now: nat)
    requires t.session != s.view.timeline.session
    ensures var r := Receive(Apply(s, Step.Connecting).state, t, now);
            && r.correction == Some(NewSession) && r.state.view.timeline == t && r.state.estimator == FRESH
            && r.state.expectedSession == Some(t.session) && !r.state.everLocked
  {
    hide Evaluate;
  }

  /** Within a session the format on show changes only with an announced discontinuity. */
  lemma FormatChangeAnnounced(s: FollowerState, step: Step)
    requires ValidFollower(s) && StepInput(step)
    requires var u := Apply(s, step).state.view.timeline;
             u.session == s.view.timeline.session && u.format != s.view.timeline.format
    ensures step.Heard? && Apply(s, step).correction.Some? && Apply(s, step).correction.value.Discontinuity?
    ensures Apply(s, step).correction.value.id > Evaluate(s.view, step.now).discontinuity
  {
    hide Receive, Measure, Tick, ValidTimeline, ValidEstimator;
    match step
    case Connecting =>
    case Heard(t, now) => HearingKeepsFormat(s, t, now);
    case Probed(e, processed) => MeasureKeepsTimeline(s, e, processed);
    case Ticking(now, staleAfter) =>
      TickLatches(s, now, staleAfter);
      LatchedSound(s.view.timeline, ActiveAt(s.view, now));
    case Losing =>
  }

  lemma HearingKeepsFormat(s: FollowerState, t: Timeline, now: nat)
    requires ValidFollower(s) && ValidTimeline(t)
    requires var u := Receive(s, t, now).state.view.timeline;
             u.session == s.view.timeline.session && u.format != s.view.timeline.format
    ensures var c := Receive(s, t, now).correction;
            c.Some? && c.value.Discontinuity? && c.value.id > Evaluate(s.view, now).discontinuity
  {
    HeldAfterHearing(s, t, now);
    CaughtUpIsLater(s, t, now);
    hide Evaluate, ActiveAt, CaughtUp, Correct, ValidTimeline, ValidEstimator;
    SameChecks(s, t, now);
    JumpsWhenLater(s, t, now);
  }

  /** Unless rolled back, a snapshot of another format is caught up beyond what is on show. */
  lemma CaughtUpIsLater(s: FollowerState, t: Timeline, now: nat)
    requires ValidTimeline(t) && ValidTimeline(s.view.timeline) && !RollsBack(s, t, now)
    ensures var v := s.view.(timeline := CaughtUp(s, t, now));
            && v.timeline.format == t.format
            && (t.format != s.view.timeline.format ==> ActiveAt(v, now) > Evaluate(s.view, now).discontinuity)
  {
    hide Evaluate, ValidTimeline, Latched;
    LatchedSound(t, MaxI(s.view.timeline.discontinuity, Evaluate(s.view, now).discontinuity));
    ReadingNotBelowLatched(s.view.(timeline := CaughtUp(s, t, now)), now);
  }

  lemma JumpsWhenLater(s: FollowerState, t: Timeline, now: nat)
    requires Wanted(s, t) && s.view.timeline.session == t.session && t.revision > s.view.timeline.revision
    requires !RollsBack(s, t, now)
    requires ActiveAt(s.view.(timeline := CaughtUp(s, t, now)), now) > Evaluate(s.view, now).discontinuity
    ensures Receive(s, t, now).correction
         == Some(Discontinuity(ActiveAt(s.view.(timeline := CaughtUp(s, t, now)), now)))
  {
    SameChecks(s, t, now);
    hide Evaluate, CaughtUp, Correct, RollsBack;
  }

  // ---------------------------------------------------------------- realignments and announcements

  predicate Realigns(c: Option<Correction>) {
    c.Some? && (c.value.NewSession? || c.value.HardResync?)
  }

  /** New sessions and hard resyncs reported over a run. */
  function Realignments(s0: FollowerState, steps: seq<Step>): nat {
    if steps == [] then 0
    else
      var front, step := steps[..|steps| - 1], steps[|steps| - 1];
      Realignments(s0, front) + if Realigns(Apply(After(s0, front), step).correction) then 1 else 0
  }

  lemma StepBumps(s: FollowerState, step: Step)
    ensures var r := Apply(s, step);
            r.state.view.resyncGeneration
            == if Realigns(r.correction) then MinI(s.view.resyncGeneration + 1, 0xffff_ffff_ffff_ffff)
               else s.view.resyncGeneration
  {
    hide Observe, Evaluate, PhaseError, ActiveAt, Latched, RollsBack, CaughtUp;
  }

  /** The generation readers watch counts the new sessions and hard resyncs reported, and nothing else. */
  lemma {:induction false} GenerationCounts(fallback: Timeline, policy: CorrectionPolicy, steps: seq<Step>)
    ensures var s0 := Initial(fallback, policy);
            After(s0, steps).view.resyncGeneration == MinI(Realignments(s0, steps), 0xffff_ffff_ffff_ffff)
  {
    hide Apply;
    if steps != [] {
      GenerationCounts(fallback, policy, steps[..|steps| - 1]);
      StepBumps(After(Initial(fallback, policy), steps[..|steps| - 1]), steps[|steps| - 1]);
    }
  }

  lemma ClearedBy(s: FollowerState, step: Step)
    requires (step.Heard? || step.Probed?) && Announced(Apply(s, step).correction)
    ensures Apply(s, step).state.view.correctionFrames == 0.0
  {
    hide Evaluate, PhaseError, ActiveAt, Latched, RollsBack, CaughtUp, Observe;
  }

  /** Whatever a snapshot or a measurement announces, it ends the correction at once: from then on
      the output is the trajectory's own position. */
  lemma AnnouncedClears(s: FollowerState, step: Step, later: nat)
    requires ValidFollower(s) && StepInput(step) && (step.Heard? || step.Probed?)
    requires Announced(Apply(s, step).correction)
    ensures var v := Apply(s, step).state.view;
            && v.correctionFrames == 0.0
            && (v.mapping.lastSampleNs > 0 ==>
                  Evaluate(v, later).position == PositionAt(v.timeline, v.mapping.LeaderTime(later)))
  {
    hide Apply, Evaluate, ValidTimeline, ValidEstimator;
    StepKeepsValid(s, step);
    ClearedBy(s, step);
    var v := Apply(s, step).state.view;
    if v.mapping.lastSampleNs > 0 {
      UncorrectedOutput(v, later);
    }
  }

  /** The discontinuity last announced by a snapshot or a measurement, or seen by a tick, and the
      session it was in. */
  function LastNoted(s0: FollowerState, steps: seq<Step>): Option<Reported> {
    if steps == [] then None
    else
      var front, step := steps[..|steps| - 1], steps[|steps| - 1];
      var s := After(s0, front);
      var r := Apply(s, step);
      if step.Ticking? && s.view.mapping.lastSampleNs > 0 then
        var shown := EffectiveAt(s.view.timeline, s.view.mapping.LeaderTime(step.now));
        Some(Reported(s.view.timeline.session, shown.discontinuity))
      else if r.correction.Some? && r.correction.value.Discontinuity? then
        Some(Reported(r.state.view.timeline.session, r.correction.value.id))
      else LastNoted(s0, front)
  }

  lemma StepNotes(s: FollowerState, step: Step)
    requires !step.Ticking?
    ensures var r := Apply(s, step);
            r.state.reported == if r.correction.Some? && r.correction.value.Discontinuity?
                                then Some(Reported(r.state.view.timeline.session, r.correction.value.id))
                                else s.reported
  {
    hide Observe, Evaluate, PhaseError, ActiveAt, Latched, RollsBack, CaughtUp;
  }

  /** Over every run a tick reports a discontinuity exactly when the one in effect is not the one
      last noted in the same session, and what it reports is the one in effect. */
  lemma {:induction false} TicksReportChanges(
      fallback: Timeline, policy: CorrectionPolicy, steps: seq<Step>, now: nat, staleAfter: nat)
    ensures var s0 := Initial(fallback, policy);
            var s, noted := After(s0, steps), LastNoted(s0, steps);
            var id, c := EffectiveAt(s.view.timeline, s.view.mapping.LeaderTime(now)).discontinuity,
                         Tick(s, now, staleAfter).correction;
            && s.reported == noted
            && c == (if s.view.mapping.lastSampleNs > 0 && noted.Some?
                        && noted.value.session == s.view.timeline.session && noted.value.discontinuity != id
                     then Some(Discontinuity(id)) else None)
  {
    var s0 := Initial(fallback, policy);
    if steps != [] {
      var front, step := steps[..|steps| - 1], steps[|steps| - 1];
      TicksReportChanges(fallback, policy, front, 0, 0);
      if step.Ticking? {
        TickNotes(After(s0, front), step.now, step.staleAfter);
      } else {
        StepNotes(After(s0, front), step);
      }
    }
    hide Apply, Initial, EffectiveAt, After, LastNoted;
    TickNotes(After(s0, steps), now, staleAfter);
  }

  lemma TickNotes(s: FollowerState, now: nat, staleAfter: nat)
    ensures var id, r := EffectiveAt(s.view.timeline, s.view.mapping.LeaderTime(now)).discontinuity,
                         Tick(s, now, staleAfter);
            if s.view.mapping.lastSampleNs > 0 then
              && r.state.reported == Some(Reported(s.view.timeline.session, id))
              && r.correction == (if s.reported.Some? && s.reported.value.session == s.view.timeline.session
                                     && s.reported.value.discontinuity != id
                                  then Some(Discontinuity(id)) else None)
            else r.state.reported == s.reported && r.correction == None
  {
    hide EffectiveAt, Latched;
  }

  /** Without a settling time a correction is worked off at the policy's rate, and never faster than
      a tenth of the motion. */
  lemma SlewsAtPolicyRate(s: FollowerState, error: real, now: nat, after: nat)
    requires s.policy.settleTimeNs == 0
    ensures var v := SlewFrom(s, error, now).state.view;
            var current := EffectiveAt(v.timeline, v.mapping.LeaderTime(now));
            var rate := MinR(s.policy.slewFramesPerSecond,
                             Fps(v.timeline.format) * AbsR(RateValue(current.anchor.rate)) * 0.1);
            var left := AbsR(error) - after as real / 1_000_000_000.0 * rate;
            Remaining(v, current, now + after)
            == (if left <= 0.0 then 0.0 else if error < 0.0 then -left else left)
  {
    hide EffectiveAt, Fps, RateValue;
    assert Monus(now + after, now) == after;
  }
}
