/** How far a follower's output can be from the leader's at the same instant. */
module Accuracy {
  import opened Arithmetic
  import opened Timecode
  import opened Clock
  import opened ClockRuns
  import opened ClockFit
  import opened Timelines
  import opened Leader
  import opened Naming
  import opened Follower
  import opened FollowerRuns
  import opened FollowerHistory
  import opened Trajectory
  import opened Distributed
  import opened Announcements
  import Boundary

  // ---------------------------------------------------------------- one reading

  /** The leader's own evaluation of an entry at a time saturates nothing. */
  predicate LeaderInRange(f: Format, current: Scheduled, time: nat) {
    var elapsed := time - current.anchor.timeNs;
    && I64_MIN <= elapsed <= I64_MAX
    && MIN_FIXED <= Fixed(current.anchor.position) + Delta(elapsed, f, current.anchor.rate) <= MAX_FIXED
  }

  /** `alignment_error_ns` of a status: the clock's uncertainty and the correction outstanding,
      both as media time. */
  function AlignmentError(uncertainty: real, f: Format, rate: Speed, remaining: real): real {
    FpsPositive(f);
    uncertainty * AbsR(RateValue(rate)) + AbsR(remaining) / Fps(f) * 1_000_000_000.0
  }

  /** Q32 units in a nanosecond of media time. */
  function UnitsPerNs(f: Format): real {
    Fps(f) * 4.294967296
  }

  lemma AlignmentInUnits(uncertainty: real, f: Format, rate: Speed, remaining: real)
    ensures Times(AlignmentError(uncertainty, f, rate, remaining), UnitsPerNs(f))
         == Times(AbsR(Velocity(f, rate)), uncertainty) + AbsR(remaining) * 4_294_967_296.0
  {
    hide Fps, RateValue, Times;
    FpsPositive(f);
    MagnitudeOfProduct(Fps(f), RateValue(rate));
    var both := AbsR(Fps(f) * RateValue(rate));
    assert AbsR(Velocity(f, rate)) == both * 4.294967296;
    var error, units := AlignmentError(uncertainty, f, rate, remaining), UnitsPerNs(f);
    AlignmentAlgebra(uncertainty, Fps(f), AbsR(RateValue(rate)), AbsR(remaining), both, error, units);
  }

  lemma AlignmentAlgebra(u: real, fps: real, rate: real, left: real, both: real, error: real, units: real)
    requires fps > 0.0 && fps * rate == both
    requires error == u * rate + left / fps * 1_000_000_000.0 && units == fps * 4.294967296
    ensures Times(error, units) == Times(both * 4.294967296, u) + left * 4_294_967_296.0
  {
    var x := left / fps;
    assert x * fps == left;
    assert u * rate * (fps * 4.294967296) == fps * rate * (u * 4.294967296);
    assert both * (u * 4.294967296) == both * 4.294967296 * u;
    assert x * 1_000_000_000.0 * (fps * 4.294967296) == x * fps * 4_294_967_296.0;
  }

  lemma LeaderNearTravel(f: Format, current: Scheduled, time: nat)
    requires LeaderInRange(f, current, time)
    ensures -1.0 < Fixed(AnchorAt(current.anchor, time, f)) as real
                   - (Fixed(current.anchor.position) as real
                      + Times(Velocity(f, current.anchor.rate), time as real - current.anchor.timeNs as real)) < 1.0
  {
    var elapsed := time - current.anchor.timeNs;
    hide Delta, Fixed, Advance, Velocity, Times;
    AdvanceExact(current.anchor.position, elapsed, f, current.anchor.rate);
    DeltaNearTravel(elapsed, f, current.anchor.rate);
    assert elapsed as real == time as real - current.anchor.timeNs as real;
  }

  lemma OffTime(k: real, x: real, y: real, from: real, most: real)
    requires AbsR(x - y) <= most
    ensures AbsR(Times(k, x - from) - Times(k, y - from)) <= Times(AbsR(k), most)
  {
    assert k * (x - from) - k * (y - from) == k * (x - y);
    ScaleBound(k, x - y, most);
  }

  /** With the same entry in effect on both sides, the follower's output differs from the leader's
      at the same instant by at most its reported alignment error, as media time, and the
      truncation of both: three units and two nanoseconds of travel. */
  ghost predicate Near(v: View, local: nat, p: Timeline, leaderNow: nat, u: real) {
    var current := EffectiveAt(p, leaderNow);
    AbsR(OutputFixed(v, local) as real - Fixed(PositionAt(p, leaderNow)) as real)
    < Times(AlignmentError(u, p.format, current.anchor.rate, Remaining(v, current, local)), UnitsPerNs(p.format))
      + 3.0 + 2.0 * AbsR(Velocity(p.format, current.anchor.rate))
  }

  lemma SameEntryNear(v: View, theta: real -> real, local: nat, p: Timeline, leaderNow: nat, u: real)
    requires v.sync != Uninitialized && v.timeline.format == p.format
    requires v.mapping.UncertaintyAt(local) == Within(u) && !Missed(theta, v.mapping, local)
    requires Reads(theta, local, leaderNow) && InRangeAround(v, local, u)
    requires EffectiveAt(p, leaderNow) == EffectiveAt(v.timeline, v.mapping.LeaderTime(local))
    ensures Near(v, local, p, leaderNow, u)
  {
    hide OutputFixed, Velocity, Remaining, InRange, LeaderInRange, AnchorAt, Fixed, EffectiveAt, AlignmentError,
      UnitsPerNs, IdealTime, IdealRemaining, Times, Missed;
    LeaderTimeNear(v, theta, local, leaderNow, u);
    var f, current := p.format, EffectiveAt(p, leaderNow);
    var speed, from := Velocity(f, current.anchor.rate), current.anchor.timeNs as real;
    EvaluatesNearIdeal(v, local);
    assert LeaderInRange(f, current, leaderNow);
    LeaderNearTravel(f, current, leaderNow);
    RemainingIsIdeal(v, current, local);
    ClockOffByAtMost(v.mapping, theta, local, u);
    OffTime(speed, IdealTime(v.mapping, local as real), leaderNow as real, from, u + 1.0);
    AlignmentInUnits(u, f, current.anchor.rate, Remaining(v, current, local));
    OneMore(AbsR(speed), u);
  }

  /** A clock that counts whole nanoseconds reads `leaderNow` when the follower's reads `local`. */
  ghost predicate Reads(theta: real -> real, local: nat, leaderNow: nat) {
    leaderNow as real <= local as real + theta(local as real) < leaderNow as real + 1.0
  }

  /** Neither side saturates, wherever within its uncertainty the leader's clock is. */
  ghost predicate InRangeAround(v: View, local: nat, u: real) {
    var time := v.mapping.LeaderTime(local);
    && InRange(v, EffectiveAt(v.timeline, time), local)
    && forall t: nat :: AbsR(t as real - time as real) < u + 1.0 ==>
         LeaderInRange(v.timeline.format, EffectiveAt(v.timeline, time), t)
  }

  lemma LeaderTimeNear(v: View, theta: real -> real, local: nat, leaderNow: nat, u: real)
    requires v.mapping.UncertaintyAt(local) == Within(u) && !Missed(theta, v.mapping, local)
    requires Reads(theta, local, leaderNow) && InRangeAround(v, local, u)
    ensures AbsR(leaderNow as real - v.mapping.LeaderTime(local) as real) < u + 1.0
  {
    ClockOffByAtMost(v.mapping, theta, local, u);
    hide Missed, LeaderInRange, EffectiveAt, Delta, Fixed, Remaining;
    assert IdealTime(v.mapping, local as real) == local as real + v.mapping.OffsetAt(local);
  }

  /** What a follower can see: the held anchor lies behind it, and no scheduled time is near it, by
      the clock's uncertainty and a nanosecond. */
  predicate ClearOfChanges(v: View, local: nat, u: real) {
    var time := v.mapping.LeaderTime(local) as real;
    && time >= v.timeline.anchor.timeNs as real + u + 1.0
    && forall e <- v.timeline.scheduled :: AbsR(time - e.anchor.timeNs as real) >= u + 1.0
  }

  /** Nothing becomes due between two times that every scheduled one is before or after. */
  lemma {:induction false} NothingBetween(current: Scheduled, scheduled: seq<Scheduled>, a: nat, b: nat)
    requires forall e <- scheduled :: e.anchor.timeNs <= a <==> e.anchor.timeNs <= b
    ensures Effective(current, scheduled, a) == Effective(current, scheduled, b)
    decreases scheduled
  {
    if scheduled != [] {
      assert scheduled == [scheduled[0]] + scheduled[1..];
      NothingBetween(if scheduled[0].anchor.timeNs <= a then scheduled[0] else current, scheduled[1..], a, b);
    }
  }

  lemma ClearMeansSame(v: View, local: nat, u: real, leaderNow: nat)
    requires ClearOfChanges(v, local, u) && AbsR(leaderNow as real - v.mapping.LeaderTime(local) as real) < u + 1.0
    ensures leaderNow >= v.timeline.anchor.timeNs
    ensures EffectiveAt(v.timeline, leaderNow) == EffectiveAt(v.timeline, v.mapping.LeaderTime(local))
  {
    NothingBetween(Active(v.timeline), v.timeline.scheduled, leaderNow, v.mapping.LeaderTime(local));
  }

  /** What a reading shows besides the position is what the leader shows: format, rate, number. */
  predicate Labelled(r: Reading, p: Timeline, leaderNow: nat) {
    var e := EffectiveAt(p, leaderNow);
    r.format == p.format && r.rate == e.anchor.rate && r.discontinuity == e.discontinuity
  }

  lemma ReadingShows(v: View, local: nat)
    requires Initialized(v) ==> v.sync != Uninitialized
    ensures Initialized(v) ==>
              var r, e := Evaluate(v, local), EffectiveAt(v.timeline, v.mapping.LeaderTime(local));
              r.format == v.timeline.format && r.rate == e.anchor.rate && r.discontinuity == e.discontinuity
  {
    hide OutputFixed, Remaining, EffectiveAt, FromFixed;
  }

  /** A view that is clear of changes is as near to the trajectory it was latched from as its
      alignment error says. Every condition on it can be checked at the follower. */
  lemma ReadingAccurate(v: View, theta: real -> real, local: nat, p: Timeline, leaderNow: nat, u: real)
    requires v.sync != Uninitialized && ValidTimeline(p) && v.timeline == Latched(p, v.timeline.discontinuity)
    requires v.mapping.UncertaintyAt(local) == Within(u) && ClearOfChanges(v, local, u) && InRangeAround(v, local, u)
    requires !Missed(theta, v.mapping, local) && Reads(theta, local, leaderNow)
    ensures EffectiveAt(p, leaderNow) == EffectiveAt(v.timeline, v.mapping.LeaderTime(local))
    ensures Near(v, local, p, leaderNow, u)
    ensures Initialized(v) ==> Labelled(Evaluate(v, local), p, leaderNow)
  {
    LatchedSound(p, v.timeline.discontinuity);
    ReadingShows(v, local);
    hide Missed, InRangeAround, Reads, ClearOfChanges, EffectiveAt, Latched, ValidTimeline, Near;
    LeaderTimeNear(v, theta, local, leaderNow, u);
    ClearMeansSame(v, local, u, leaderNow);
    LatchedAgreesFromAnchor(p, v.timeline.discontinuity, leaderNow);
    SameEntryNear(v, theta, local, p, leaderNow, u);
  }

  lemma OneMore(k: real, u: real)
    ensures Times(k, u + 1.0) == Times(k, u) + k
  {
  }

  lemma ClockOffByAtMost(m: ClockMapping, theta: real -> real, local: nat, u: real)
    requires m.UncertaintyAt(local) == Within(u) && !Missed(theta, m, local)
    ensures AbsR(IdealTime(m, local as real) - (local as real + theta(local as real))) <= u
  {
    assert IdealTime(m, local as real) == local as real + m.OffsetAt(local);
  }

  // ---------------------------------------------------------------- over whole runs

  /** The true offset of each leader's clock, by session. */
  type Clocks = map<Id16, real -> real>

  /** Every exchange measured while a leader's session is held is genuine against that leader's
      clock, and short enough for the uncertainty's floor. */
  ghost predicate Measured(s0: FollowerState, steps: seq<Step>, clocks: Clocks, slack: real) {
    steps == []
    || (&& Measured(s0, steps[..|steps| - 1], clocks, slack)
        && GenuineFor(After(s0, steps[..|steps| - 1]), steps[|steps| - 1], clocks, slack))
  }

  ghost predicate GenuineFor(s: FollowerState, step: Step, clocks: Clocks, slack: real) {
    step.Probed? && s.expectedSession.Some? && s.expectedSession.value in clocks && WellTimed(step.exchange) ==>
      Genuine(clocks[s.expectedSession.value], step.exchange, slack) && CoveredByFloor(SampleOf(step.exchange), slack)
  }

  ghost predicate SlowClocks(clocks: Clocks) {
    forall id <- clocks :: DriftsSlowly(clocks[id])
  }

  /** The estimator knows only truthful samples of the held leader, and its bound is sound. */
  ghost predicate Sound(s: FollowerState, clocks: Clocks, slack: real) {
    var id := s.view.timeline.session;
    id in clocks ==>
      && Trusted(clocks[id], s.estimator.samples, slack) && Trusted(clocks[id], s.estimator.recovery, slack)
      && UncertaintySound(clocks[id], s.estimator.mapping)
  }

  /** What a step does to the estimator. */
  lemma EstimatorAfter(s: FollowerState, step: Step)
    requires ValidFollower(s) && StepInput(step)
    ensures var r := Apply(s, step).state;
            || (r.estimator == s.estimator && r.view.timeline.session == s.view.timeline.session)
            || r.estimator == FRESH
            || (&& step.Probed? && s.expectedSession == Some(s.view.timeline.session)
                && r.estimator == Observe(s.estimator, step.exchange).state
                && r.view.timeline.session == s.view.timeline.session)
  {
    hide Receive, Measure, Tick, ActiveAt, Latched, ValidFollower, ValidTimeline, Observe;
    StepForward(s, step);
    match step
    case Connecting =>
    case Heard(t, now) => HearingKeepsEstimator(s, t, now);
    case Probed(e, processed) =>
      ExpectedIsHeld(s);
      MeasuringUpdates(s, e, processed);
    case Ticking(now, staleAfter) => TickKeepsEstimator(s, now, staleAfter);
    case Losing =>
  }

  lemma ExpectedIsHeld(s: FollowerState)
    requires ValidFollower(s)
    ensures s.expectedSession.Some? ==> s.expectedSession.value == s.view.timeline.session
  {
  }

  lemma TickKeepsEstimator(s: FollowerState, now: nat, staleAfter: nat)
    ensures Tick(s, now, staleAfter).state.estimator == s.estimator
    ensures Tick(s, now, staleAfter).correction != Some(NewSession)
  {
    hide ActiveAt, Latched;
  }

  lemma HearingKeepsEstimator(s: FollowerState, t: Timeline, now: nat)
    ensures var r := Receive(s, t, now);
            if r.correction == Some(NewSession) then r.state.estimator == FRESH else r.state.estimator == s.estimator
  {
    hide Evaluate, ActiveAt, PhaseError, CaughtUp, RollsBack, Correct;
    var s1 := s.(expectedSession := Some(t.session));
    CorrectKeepsEstimator(s1.(view := s.view.(timeline := CaughtUp(s1, t, now))), Evaluate(s.view, now).position, now);
  }

  lemma CorrectKeepsEstimator(s: FollowerState, before: Pos, now: nat)
    ensures var r := Correct(s, before, now, false);
            r.state.estimator == s.estimator && r.correction != Some(NewSession)
  {
    hide PhaseError, ActiveAt;
  }

  lemma MeasuringUpdates(s: FollowerState, e: Exchange, processed: nat)
    ensures var r := Measure(s, e, processed).state;
            && r.view.timeline == s.view.timeline
            && r.estimator == (if s.expectedSession.None? then s.estimator else Observe(s.estimator, e).state)
  {
    hide Observe, Evaluate, PhaseError, ActiveAt;
    MeasureKeepsTimeline(s, e, processed);
  }

  lemma StepKeepsSound(s: FollowerState, step: Step, clocks: Clocks, slack: real)
    requires ValidFollower(s) && StepInput(step) && Sound(s, clocks, slack) && SlowClocks(clocks)
    requires GenuineFor(s, step, clocks, slack)
    ensures Sound(Apply(s, step).state, clocks, slack)
  {
    hide Apply, Trusted, UncertaintySound, Observe, Genuine, CoveredByFloor, DriftsSlowly, ValidEstimator,
      ValidTimeline;
    EstimatorAfter(s, step);
    var id, r := s.view.timeline.session, Apply(s, step).state;
    if r.estimator == FRESH {
      if r.view.timeline.session in clocks {
        FreshSound(clocks[r.view.timeline.session], slack);
      }
    } else if r.estimator != s.estimator && id in clocks {
      ObserveUncertainty(clocks[id], s.estimator, step.exchange, slack);
    }
  }

  lemma FreshSound(theta: real -> real, slack: real)
    ensures Trusted(theta, FRESH.samples, slack) && Trusted(theta, FRESH.recovery, slack)
    ensures UncertaintySound(theta, FRESH.mapping)
  {
  }

  lemma {:induction false} RunKeepsSound(
      fallback: Timeline, policy: CorrectionPolicy, steps: seq<Step>, clocks: Clocks, slack: real)
    requires ValidTimeline(fallback) && ValidPolicy(policy) && SlowClocks(clocks)
    requires (forall step <- steps :: StepInput(step)) && Measured(Initial(fallback, policy), steps, clocks, slack)
    ensures Sound(After(Initial(fallback, policy), steps), clocks, slack)
  {
    var s0 := Initial(fallback, policy);
    hide Apply, Trusted, UncertaintySound, GenuineFor, ValidFollower, ValidTimeline, SlowClocks;
    if steps == [] {
      if fallback.session in clocks {
        FreshSound(clocks[fallback.session], slack);
      }
    } else {
      var front, last := steps[..|steps| - 1], steps[|steps| - 1];
      InitialValid(fallback, policy);
      assert last in steps;
      RunKeepsSound(fallback, policy, front, clocks, slack);
      RunStaysValid(s0, front);
      hide Initial, Sound;
      StepKeepsSound(After(s0, front), last, clocks, slack);
    }
  }

  /** A measured follower reports a finite uncertainty. */
  lemma MeasuredBound(s: FollowerState, local: nat)
    requires ValidFollower(s) && Initialized(s.view)
    ensures s.view.mapping.UncertaintyAt(local).Within? && s.view.sync != Uninitialized
    ensures s.view.mapping == s.estimator.mapping
    ensures Fixed(Evaluate(s.view, local).position) == OutputFixed(s.view, local)
  {
    hide OutputFixed, FromFixed, Fixed, EffectiveAt, Remaining, ValidTimeline, Evaluate;
    Boundary.EvaluatedFixed(s.view, local);
    assert s.estimator.mapping.evidence.Some?;
  }

  /** Measured, past the last accepted receipt, clear of changes and in range: all of it visible. */
  ghost predicate Clear(v: View, local: nat) {
    && Initialized(v) && local >= v.mapping.lastSampleNs && v.mapping.UncertaintyAt(local).Within?
    && ClearOfChanges(v, local, v.mapping.UncertaintyAt(local).ns)
    && InRangeAround(v, local, v.mapping.UncertaintyAt(local).ns)
  }

  /** End to end: any leaders under orderly inputs, any delivery, exchanges genuine against the
      clock of whichever leader is held. From the last accepted receipt on, whenever the follower
      sees itself clear of changes, its position differs from the leader's at the same instant by
      at most the reported alignment error and the truncation. */
  lemma FollowerAccurate(
      runs: map<Id16, LeaderRun>, clocks: Clocks, slack: real, fallback: Timeline, policy: CorrectionPolicy,
      steps: seq<Step>, local: nat, leaderNow: nat)
    requires ProperRuns(runs) && SlowClocks(clocks) && ValidTimeline(fallback) && ValidPolicy(policy)
    requires fallback.session !in runs && Delivers(Sending(runs), steps)
    requires Measured(Initial(fallback, policy), steps, clocks, slack)
    requires var v := After(Initial(fallback, policy), steps).view;
             && v.timeline.session in runs && v.timeline.session in clocks
             && Clear(v, local) && Reads(clocks[v.timeline.session], local, leaderNow)
    ensures Faithful(Sending(runs), After(Initial(fallback, policy), steps).view.timeline)
    ensures var v := After(Initial(fallback, policy), steps).view;
            v.mapping.UncertaintyAt(local).Within?
            && var p, u := PublishedAs(Sending(runs), v.timeline), v.mapping.UncertaintyAt(local).ns;
            && Labelled(Evaluate(v, local), p, leaderNow)
            && Fixed(Evaluate(v, local).position) == OutputFixed(v, local)
            && Near(v, local, p, leaderNow, u)
  {
    hide After, Lineages, Faithful, ProperRuns, Measured, Sound, ValidFollower, Delivers, Initial, ValidTimeline,
      SlowClocks, UncertaintySound, Missed, Evaluate, OutputFixed, InRangeAround, ClearOfChanges, Reads, Near,
      EffectiveAt, Fixed, Published, Latched, Labelled;
    var s := After(Initial(fallback, policy), steps);
    MeasuredRun(runs, clocks, slack, fallback, policy, steps, local);
    FaithfulLatched(Sending(runs), s.view.timeline);
    var p, u := PublishedAs(Sending(runs), s.view.timeline), s.view.mapping.UncertaintyAt(local).ns;
    ReadingAccurate(s.view, clocks[s.view.timeline.session], local, p, leaderNow, u);
  }

  lemma MeasuredRun(
      runs: map<Id16, LeaderRun>, clocks: Clocks, slack: real, fallback: Timeline, policy: CorrectionPolicy,
      steps: seq<Step>, local: nat)
    requires ProperRuns(runs) && SlowClocks(clocks) && ValidTimeline(fallback) && ValidPolicy(policy)
    requires fallback.session !in runs && Delivers(Sending(runs), steps)
    requires Measured(Initial(fallback, policy), steps, clocks, slack)
    requires var v := After(Initial(fallback, policy), steps).view;
             && v.timeline.session in runs && v.timeline.session in clocks
             && Initialized(v) && local >= v.mapping.lastSampleNs
    ensures var s := After(Initial(fallback, policy), steps);
            && ValidFollower(s) && Lineages(Sending(runs)) && Faithful(Sending(runs), s.view.timeline)
            && s.view.mapping.UncertaintyAt(local).Within? && s.view.sync != Uninitialized
            && Fixed(Evaluate(s.view, local).position) == OutputFixed(s.view, local)
            && !Missed(clocks[s.view.timeline.session], s.view.mapping, local)
  {
    hide After, Lineages, Faithful, ProperRuns, Measured, Sound, ValidFollower, Delivers, Initial, ValidTimeline,
      SlowClocks, UncertaintySound, Missed, Evaluate, OutputFixed, Fixed, Published;
    var s := After(Initial(fallback, policy), steps);
    RunsAreLineages(runs);
    DeliversValid(Sending(runs), steps);
    InitialValid(fallback, policy);
    RunStaysValid(Initial(fallback, policy), steps);
    HoldsWhatWasPublished(fallback, policy, Sending(runs), steps, 0);
    RunKeepsSound(fallback, policy, steps, clocks, slack);
    MeasuredBound(s, local);
    SoundAt(s, clocks, slack, local);
  }

  lemma FaithfulLatched(leaders: Leaders, t: Timeline)
    requires Lineages(leaders) && Faithful(leaders, t)
    ensures t.session in leaders && 1 <= t.revision <= |leaders[t.session]|
    ensures var p := PublishedAs(leaders, t);
            && ValidTimeline(p) && Numbered(p) && t == Latched(p, t.discontinuity)
            && p in leaders[t.session] && p.revision == t.revision && p.session == t.session
  {
    PublishedValid(leaders, t);
    hide Lineages, Latched, ValidTimeline, Numbered;
  }

  lemma SoundAt(s: FollowerState, clocks: Clocks, slack: real, local: nat)
    requires Sound(s, clocks, slack) && s.view.timeline.session in clocks && s.view.mapping == s.estimator.mapping
    requires local >= s.view.mapping.lastSampleNs && s.view.mapping.UncertaintyAt(local).Within?
    ensures !Missed(clocks[s.view.timeline.session], s.view.mapping, local)
  {
    hide Trusted, Missed;
  }

  // ---------------------------------------------------------------- against what the leader plays now

  /** Two published timelines of a leader driven by controls alone that show one discontinuity show
      one entry, even when the earlier has been latched in between. */
  lemma SameNumberSameEntry(run: LeaderRun, p: Timeline, d: nat, time: nat, q: Timeline, leaderNow: nat)
    requires Proper(run) && FedOver(run.passes) == 0
    requires p in Published(run.start, run.passes) && q in Published(run.start, run.passes)
    requires p.revision <= q.revision
    requires EffectiveAt(Latched(p, d), time).discontinuity == EffectiveAt(q, leaderNow).discontinuity
    ensures EffectiveAt(Latched(p, d), time) == EffectiveAt(q, leaderNow) && p.format == q.format
  {
    var published := Published(run.start, run.passes);
    hide Published, AllOrderly, Effective, Latched, Leading, InTime, Under, ToWire, ValidTimeline, Numbered, Ordered;
    EveryPublishSound(run.start, run.passes, run.clock);
    RunLineage(run.start, run.passes, run.clock);
    var i, j := p.revision - 1, q.revision - 1;
    assert Indexed(published, p) && Indexed(published, q) by {
      Numbering(published, p);
      Numbering(published, q);
    }
    assert Publishable(published[i], i + 1) && Publishable(published[j], j + 1);
    assert Extends(published[i], published[j]);
    LatchedNothing(q);
    ShownUnder(p, d, time);
    ShownUnder(q, q.discontinuity, leaderNow);
    ControlledNamesExactly(run.start, run.passes, run.clock, i, j, EffectiveAt(q, leaderNow).discontinuity);
  }

  predicate Indexed(published: seq<Timeline>, t: Timeline) {
    1 <= t.revision <= |published| && published[t.revision - 1] == t
  }

  lemma Numbering(published: seq<Timeline>, t: Timeline)
    requires t in published && forall i :: 0 <= i < |published| ==> Publishable(published[i], i + 1)
    ensures Indexed(published, t)
  {
    hide ValidTimeline, Numbered, SnapshotValid, FromWire;
    var i :| 0 <= i < |published| && published[i] == t;
    assert Publishable(published[i], i + 1);
  }

  /** With a leader driven by controls alone the bound holds against every timeline it publishes
      from the held one on, so against the one it plays, whenever both show one discontinuity. */
  lemma CurrentAccurate(
      runs: map<Id16, LeaderRun>, clocks: Clocks, slack: real, fallback: Timeline, policy: CorrectionPolicy,
      steps: seq<Step>, local: nat, leaderNow: nat, q: Timeline)
    requires ProperRuns(runs) && SlowClocks(clocks) && ValidTimeline(fallback) && ValidPolicy(policy)
    requires fallback.session !in runs && Delivers(Sending(runs), steps)
    requires Measured(Initial(fallback, policy), steps, clocks, slack)
    requires Sent(Sending(runs), q) && q.session in clocks && FedOver(runs[q.session].passes) == 0
    requires var v := After(Initial(fallback, policy), steps).view;
             && v.timeline.session == q.session && v.timeline.revision <= q.revision
             && Initialized(v) && local >= v.mapping.lastSampleNs && v.mapping.UncertaintyAt(local).Within?
             && InRangeAround(v, local, v.mapping.UncertaintyAt(local).ns)
             && Reads(clocks[q.session], local, leaderNow)
             && Evaluate(v, local).discontinuity == EffectiveAt(q, leaderNow).discontinuity
    ensures var v := After(Initial(fallback, policy), steps).view;
            && Fixed(Evaluate(v, local).position) == OutputFixed(v, local)
            && Labelled(Evaluate(v, local), q, leaderNow)
            && Near(v, local, q, leaderNow, v.mapping.UncertaintyAt(local).ns)
  {
    hide After, Lineages, Faithful, ProperRuns, Measured, Sound, ValidFollower, Delivers, Initial, ValidTimeline,
      SlowClocks, UncertaintySound, Missed, Evaluate, OutputFixed, InRangeAround, Reads, Near,
      EffectiveAt, Fixed, Published, Latched, Numbered, Proper;
    var s := After(Initial(fallback, policy), steps);
    assert Proper(runs[q.session]) by {
      ProperOf(runs, q.session);
    }
    MeasuredRun(runs, clocks, slack, fallback, policy, steps, local);
    FaithfulLatched(Sending(runs), s.view.timeline);
    var p := PublishedAs(Sending(runs), s.view.timeline);
    ShownInReading(s.view, local);
    ReadingShows(s.view, local);
    assert EvaluationTime(s.view, local) == s.view.mapping.LeaderTime(local);
    LatchedFormat(p, s.view.timeline.discontinuity);
    SameNumberSameEntry(runs[q.session], p, s.view.timeline.discontinuity, s.view.mapping.LeaderTime(local),
                        q, leaderNow);
    SameEntryNear(s.view, clocks[q.session], local, q, leaderNow, s.view.mapping.UncertaintyAt(local).ns);
  }

  lemma ProperOf(runs: map<Id16, LeaderRun>, id: Id16)
    requires ProperRuns(runs) && id in runs
    ensures Proper(runs[id])
  {
    hide Proper;
  }

  lemma LatchedFormat(p: Timeline, d: nat)
    requires ValidTimeline(p)
    ensures Latched(p, d).format == p.format
  {
    LatchedSound(p, d);
  }
}
