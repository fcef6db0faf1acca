/** What a hurried snapshot does: a control applied before its time that nothing undoes. */
module HurriedRun {
  import opened Arithmetic
  import opened Timecode
  import opened Timelines
  import opened Leader
  import opened Naming
  import opened Retention
  import opened Clock
  import opened ClockRuns
  import opened ClockFit
  import opened Follower
  import opened FollowerRuns
  import opened FollowerHistory
  import opened Distributed
  import opened CancelledControls
  import opened Accuracy
  import opened EarlyControls

  // ---------------------------------------------------------------- every leader and follower

  /** Any follower that hears a leader's timeline twice before its first exchange, the second time
      when a control of it is dated at or before the local clock, has that control active; and
      whatever follows in the session, exact measurements included, it never shows an earlier
      entry again, although the leader plays one until its clock reaches the control. */
  lemma HurriedControlStays(
      fallback: Timeline, policy: CorrectionPolicy, p: Timeline, revision: nat, e: Scheduled, first: nat, now: nat,
      more: seq<Step>, local: nat, leaderNow: nat)
    requires ValidTimeline(fallback) && ValidPolicy(policy) && ValidTimeline(p) && fallback.session != p.session
    requires revision > p.revision && e in p.scheduled && e.anchor.timeNs <= now <= I64_MAX
    requires forall step <- more :: StepInput(step)
    requires OneSession(Twice(fallback, policy, p, revision, first, now), more)
    ensures var s, q := Twice(fallback, policy, p, revision, first, now), p.(revision := revision);
            && !Initialized(s.view) && s.view.timeline.revision == revision && e !in s.view.timeline.scheduled
            && Evaluate(After(s, more).view, local).discontinuity >= e.discontinuity
            && (leaderNow < e.anchor.timeNs ==> EffectiveAt(q, leaderNow).discontinuity < e.discontinuity)
  {
    hide After, Evaluate, EffectiveAt, Receive, ValidTimeline, ValidFollower, ValidPolicy, Twice, OneSession;
    TwiceHeard(fallback, policy, p, revision, e, first, now);
    RunForward(Twice(fallback, policy, p, revision, first, now), more, local);
    DueWhenShown(p, leaderNow, e);
    SameSchedule(p, revision, leaderNow);
  }

  function Twice(fallback: Timeline, policy: CorrectionPolicy, p: Timeline, revision: nat, first: nat, now: nat)
    : FollowerState
  {
    After(Initial(fallback, policy), [Step.Connecting, Heard(p, first), Heard(p.(revision := revision), now)])
  }

  lemma SameSchedule(p: Timeline, revision: nat, time: nat)
    ensures EffectiveAt(p.(revision := revision), time) == EffectiveAt(p, time)
    ensures ValidTimeline(p) ==> ValidTimeline(p.(revision := revision))
  {
  }

  lemma TwiceHeard(
      fallback: Timeline, policy: CorrectionPolicy, p: Timeline, revision: nat, e: Scheduled, first: nat, now: nat)
    requires ValidTimeline(fallback) && ValidPolicy(policy) && ValidTimeline(p) && fallback.session != p.session
    requires revision > p.revision && e in p.scheduled && e.anchor.timeNs <= now <= I64_MAX
    ensures var s := Twice(fallback, policy, p, revision, first, now);
            && ValidFollower(s) && !Initialized(s.view) && s.expectedSession == Some(p.session)
            && s.view.timeline.session == p.session && s.view.timeline.revision == revision
            && s.view.timeline.discontinuity >= e.discontinuity && e !in s.view.timeline.scheduled
            && s.view.mapping == NO_MAPPING && s.estimator == FRESH && Active(s.view.timeline) in p.scheduled
  {
    hide After, Evaluate, EffectiveAt, Receive, ValidTimeline, ValidFollower, ValidPolicy, Initial;
    var q := p.(revision := revision);
    var s := After(Initial(fallback, policy), [Step.Connecting, Heard(p, first)]);
    FirstHeard(fallback, policy, p, first, now);
    FirstMapping(fallback, policy, p, first);
    ThirdHeard(Initial(fallback, policy), p, first, q, now);
    SameSchedule(p, revision, now);
    ReceiveKeepsValid(s, q, now);
    DueWhenShown(p, now, e);
    TakenUp(s, q, e, now);
  }

  lemma FirstMapping(fallback: Timeline, policy: CorrectionPolicy, p: Timeline, first: nat)
    requires fallback.session != p.session
    ensures var s0 := Initial(fallback, policy);
            && After(s0, [Step.Connecting]) == Connect(s0)
            && var s := After(s0, [Step.Connecting, Heard(p, first)]);
               s.view.mapping == NO_MAPPING && s.estimator == FRESH
  {
    var steps := [Step.Connecting, Heard(p, first)];
    assert steps[..1] == [Step.Connecting] && [Step.Connecting][..0] == [];
    assert After(Initial(fallback, policy), [Step.Connecting]) == Connect(Initial(fallback, policy));
  }

  lemma TakenUp(s: FollowerState, q: Timeline, e: Scheduled, now: nat)
    requires ValidFollower(s) && ValidTimeline(q) && Wanted(s, q)
    requires s.view.mapping == NO_MAPPING && s.estimator == FRESH
    requires s.view.timeline == q.(revision := s.view.timeline.revision) && q.revision > s.view.timeline.revision
    requires Evaluate(s.view, now).discontinuity == EffectiveAt(q, now).discontinuity
    requires e in q.scheduled && e.discontinuity <= EffectiveAt(q, now).discontinuity
    ensures var r := Receive(s, q, now).state;
            && r.view.mapping == NO_MAPPING && r.estimator == FRESH && r.expectedSession == Some(q.session)
            && Active(r.view.timeline) in q.scheduled
            && r.view.timeline.session == q.session && r.view.timeline.revision == q.revision
            && r.view.timeline.discontinuity >= e.discontinuity && e !in r.view.timeline.scheduled
  {
    var d := EffectiveAt(q, now).discontinuity;
    EffectiveIsUsed(q, now);
    LatchedSound(q, d);
    HeldAfterHearing(s, q, now);
    HearingKeepsMapping(s, q, now);
    SameChecks(s, q, now);
    hide Evaluate, EffectiveAt, Latched, ValidTimeline, ValidEstimator, ActiveAt, Correct;
    assert CaughtUp(s, q, now) == Latched(q, d);
    assert !RollsBack(s, q, now);
    var u := Latched(q, d);
    assert e in u.scheduled ==> e.discontinuity in Reserved(u.scheduled);
    ExpectedAfter(s, q, now);
    HearingKeepsEstimator(s, q, now);
    OrderedAbove(Active(q), q.scheduled, e);
  }

  lemma ExpectedAfter(s: FollowerState, q: Timeline, now: nat)
    requires Wanted(s, q)
    ensures Receive(s, q, now).state.expectedSession == Some(q.session)
  {
    hide Evaluate, ActiveAt, PhaseError, Latched;
  }

  // ---------------------------------------------------------------- a concrete run

  const CONTROL_AT: nat := 60_000_000_000
  const AHEAD: nat := 120_000_000_000

  const PLAYING := Started(NAME, NAME, FORMAT, Generated, Position(0, 0), NORMAL, 0)

  /** A seek scheduled one minute ahead, and a heartbeat soon after it. */
  const SEEKING := Pass([SeekAt(CONTROL_AT, 5, 11)], 13, 1000, false, false)
  const HEARTBEAT := Pass([], 20, 1000, true, false)
  const RUN := LeaderRun(PLAYING, 0, [SEEKING, HEARTBEAT])

  lemma SeekingPass()
    ensures var h := Progress(PLAYING, SEEKING);
            var t := h.state.timeline;
            && h.publish && t.sourceKind == Generated && t.session == NAME && t.revision == 2 && Numbered(t)
            && |t.scheduled| == 1 && t.scheduled[0].discontinuity == 1 && t.scheduled[0].anchor.timeNs == CONTROL_AT
            && t.discontinuity == 0
  {
    DrainOne(PLAYING, SeekAt(CONTROL_AT, 5, 11));
    SeekStep(PLAYING, CONTROL_AT, 5, 11);
    hide Handle, ToWire;
    SameNumbering(Drained(PLAYING, SEEKING.requests).state.timeline, Progress(PLAYING, SEEKING).state.timeline);
  }

  lemma HeartbeatPass(st: LeaderState)
    requires st.timeline.sourceKind == Generated && |st.timeline.scheduled| == 1
    requires st.timeline.scheduled[0].anchor.timeNs == CONTROL_AT
    ensures var h := Progress(st, HEARTBEAT);
            h.publish && h.state.timeline == st.timeline.(revision := st.timeline.revision + 1)
  {
    hide ToWire;
  }

  lemma NothingTimed(from: nat, to: nat)
    requires from <= to
    ensures Timed([], from, to)
  {
  }

  lemma PassesInTime()
    ensures InTime(RUN.passes, 0)
  {
    var r, passes := SEEKING.requests, [SEEKING, HEARTBEAT];
    assert passes[..1] == [SEEKING] && [SEEKING][..0] == [] && r[..0] == [];
    NothingTimed(13, 20);
    assert Timed(r, 0, 13);
    assert InTime([], 0) && InTime([SEEKING], 0);
  }

  lemma NothingFed()
    ensures FedOver(RUN.passes) == 0
  {
    var r, passes := SEEKING.requests, [SEEKING, HEARTBEAT];
    assert passes[..1] == [SEEKING] && [SEEKING][..0] == [] && r[..0] == [];
    assert FedBy([]) == 0;
    assert FedBy(r) == 0 && FedOver([]) == 0;
    assert FedOver([SEEKING]) == 0;
  }

  lemma RunInOrder()
    ensures InTime(RUN.passes, 0) && AllOrderly(PLAYING, RUN.passes) && Leading(PLAYING, 0)
  {
    hide Leading, InTime, AllOrderly, AllExclusive, Published, FedOver;
    StartedLeading(NAME, NAME, FORMAT, Generated, Position(0, 0), NORMAL, 0);
    PassesInTime();
    NothingFed();
    UnfedAllExclusive(PLAYING, RUN.passes);
    RunNames(PLAYING, RUN.passes, 0);
  }

  /** The leader's run, all of it in order, and what it publishes when. */
  lemma RunIsProper()
    ensures Proper(RUN) && RUN.start.timeline.session == NAME
    ensures var published := Published(RUN.start, RUN.passes);
            && |published| == 3 && published[2] == published[1].(revision := 3) && published[1].revision == 2
            && published[1].session == NAME && |published[1].scheduled| == 1
            && published[1].scheduled[0].anchor.timeNs == CONTROL_AT && published[1].scheduled[0].discontinuity == 1
            && published[1].discontinuity == 0 && ValidTimeline(published[2])
            && PublishedTimes(RUN.start, RUN.passes, RUN.clock) == [0, 13, 20]
  {
    RunInOrder();
    SeekingPass();
    HeartbeatPass(Progress(PLAYING, SEEKING).state);
    hide Progress, Published, Leading, InTime, AllOrderly, Numbered;
    TwoPasses(PLAYING, SEEKING, HEARTBEAT);
    TwoTimes(PLAYING, SEEKING, HEARTBEAT, 0);
    EveryPublishSound(PLAYING, RUN.passes, 0);
    assert Publishable(Published(PLAYING, RUN.passes)[2], 3);
  }

  lemma TwoTimes(st: LeaderState, p: Pass, q: Pass, start: nat)
    requires Progress(st, p).publish && Progress(Progress(st, p).state, q).publish
    ensures PublishedTimes(st, [p, q], start) == [start, p.now, q.now]
  {
    assert [p, q][..1] == [p] && [p][..0] == [];
    hide Progress;
    assert StateAfter(st, []) == st && StateAfter(st, [p]) == Progress(st, p).state;
    assert PublishedTimes(st, [p], start) == [start, p.now];
  }

  /** The leader's clock started two minutes after the follower's. */
  ghost function Behind(): real -> real {
    (x: real) => -120_000_000_000.0
  }

  /** An exchange answered at once over a path without delay. */
  const PING := Exchange(AHEAD + 30, 30, 30, AHEAD + 30)

  function Runs(): map<Id16, LeaderRun> {
    map[NAME := RUN]
  }

  ghost function TrueClocks(): Clocks {
    map[NAME := Behind()]
  }

  lemma PingIsExact()
    ensures WellTimed(PING) && Genuine(Behind(), PING, 0.0) && CoveredByFloor(SampleOf(PING), 0.0)
    ensures DriftsSlowly(Behind())
  {
    var u := PING.t1 as real;
    assert HappenedAt(Behind(), PING, u, u, 0.0);
  }

  lemma FreshAccepts(e: Exchange)
    requires WellTimed(e)
    ensures Observe(FRESH, e).accepted
  {
    hide Fit, WellTimed, Midpoint, SampleOf;
  }

  lemma FreshReceipt(e: Exchange)
    requires WellTimed(e)
    ensures Observe(FRESH, e).state.mapping.lastSampleNs == e.t4
  {
    hide Observe, ValidEstimator;
    FreshAccepts(e);
    RunsStayValid([]);
    AcceptedReceipt(FRESH, e);
  }

  lemma FirstPingTaken(s: FollowerState)
    requires s.estimator == FRESH && s.expectedSession.Some?
    ensures var r := Measure(s, PING, PING.t4).state;
            Initialized(r.view) && r.view.timeline == s.view.timeline
  {
    hide Measure, Observe;
    PingIsExact();
    MeasureKeepsTimeline(s, PING, PING.t4);
    MeasuredMapping(s, PING, PING.t4);
    FreshAccepts(PING);
    FreshReceipt(PING);
  }

  /** What the follower goes through: connected, the timeline and its heartbeat, one exchange. */
  function Steps(p: Timeline): seq<Step> {
    [Step.Connecting, Heard(p, AHEAD + 15), Heard(p.(revision := 3), AHEAD + 25), Probed(PING, PING.t4)]
  }

  lemma Prefixes(p: Timeline)
    ensures var steps := Steps(p);
            && steps[..0] == [] && steps[..1] == [Step.Connecting]
            && steps[..2] == [Step.Connecting, Heard(p, AHEAD + 15)]
            && steps[..3] == [Step.Connecting, Heard(p, AHEAD + 15), Heard(p.(revision := 3), AHEAD + 25)]
            && steps[..3][..2] == steps[..2] && steps[..2][..1] == steps[..1] && steps[..1][..0] == []
  {
  }

  /** What such a leader sends: its timeline with the one control. */
  predicate OneControl(p: Timeline) {
    && ValidTimeline(p) && p.session == NAME && p.revision == 2 && |p.scheduled| == 1
    && p.scheduled[0].anchor.timeNs == CONTROL_AT
  }

  /** The states of the run: unmeasured until the exchange, on the control from the heartbeat on. */
  lemma StatesOfRun(fallback: Timeline, policy: CorrectionPolicy, p: Timeline)
    requires ValidTimeline(fallback) && ValidPolicy(policy) && fallback.session != NAME && OneControl(p)
    ensures var s0, steps := Initial(fallback, policy), Steps(p);
            && After(s0, steps[..1]).view.mapping == NO_MAPPING && After(s0, steps[..2]).view.mapping == NO_MAPPING
            && After(s0, steps[..3]).view.mapping == NO_MAPPING && After(s0, steps[..3]).estimator == FRESH
            && After(s0, steps[..3]).expectedSession == Some(NAME)
            && Initialized(After(s0, steps).view)
            && var t := After(s0, steps).view.timeline;
               t.session == NAME && Active(t) == p.scheduled[0]
  {
    hide After, Receive, ValidTimeline, ValidPolicy, ValidFollower, Measure, Initial;
    Prefixes(p);
    FirstMapping(fallback, policy, p, AHEAD + 15);
    TwiceHeard(fallback, policy, p, 3, p.scheduled[0], AHEAD + 15, AHEAD + 25);
    var s0 := Initial(fallback, policy);
    FirstPingTaken(After(s0, Steps(p)[..3]));
    StepAfter(s0, Steps(p));
    assert After(s0, [Step.Connecting]).view.mapping == NO_MAPPING by {
      ConnectedUnmeasured(fallback, policy);
    }
  }

  lemma ConnectedUnmeasured(fallback: Timeline, policy: CorrectionPolicy)
    ensures Connect(Initial(fallback, policy)).view.mapping == NO_MAPPING
  {
  }

  /** The control was a minute ahead of the leader's clock when the follower took it over. */
  lemma NotReached(fallback: Timeline, policy: CorrectionPolicy, p: Timeline, leaders: Leaders)
    requires ValidTimeline(fallback) && ValidPolicy(policy) && fallback.session != NAME && OneControl(p)
    requires NAME in leaders
    ensures !AnchorReached(Initial(fallback, policy), Steps(p), leaders, TrueClocks())
  {
    hide After, ValidTimeline, ValidPolicy;
    StatesOfRun(fallback, policy, p);
    var s0, steps := Initial(fallback, policy), Steps(p);
    forall k: nat ensures !ReachedIn(s0, steps, k, CONTROL_AT, Behind()) {
      if k == 1 || k == 2 {
        assert !ReachedBy(After(s0, steps[..k]), steps[k], CONTROL_AT, Behind());
      }
    }
  }

  /** The exchange is exact, and nothing else is measured. */
  lemma AllMeasured(fallback: Timeline, policy: CorrectionPolicy, p: Timeline)
    requires ValidTimeline(fallback) && ValidPolicy(policy) && fallback.session != NAME && OneControl(p)
    ensures Measured(Initial(fallback, policy), Steps(p), TrueClocks(), 0.0) && SlowClocks(TrueClocks())
    ensures Onward(Initial(fallback, policy), Steps(p))
  {
    hide After, ValidTimeline, ValidPolicy, DriftsSlowly, Genuine, CoveredByFloor, Initial;
    StatesOfRun(fallback, policy, p);
    PingIsExact();
    Prefixes(p);
    var s0, steps := Initial(fallback, policy), Steps(p);
    assert Measured(s0, steps[..1], TrueClocks(), 0.0) && Onward(s0, steps[..1]);
    assert Measured(s0, steps[..2], TrueClocks(), 0.0) && Onward(s0, steps[..2]);
    assert Measured(s0, steps[..3], TrueClocks(), 0.0) && Onward(s0, steps[..3]);
  }

  lemma AllSent(p: Timeline)
    requires |Published(RUN.start, RUN.passes)| == 3 && p == Published(RUN.start, RUN.passes)[1]
    ensures Delivers(Sending(Runs()), Steps(p)) && ProperRuns(Runs()) && OneControl(p)
    ensures forall step <- Steps(p) :: HeardAfterSent(Runs(), step, TrueClocks())
  {
    RunIsProper();
    hide Proper, Published, PublishedTimes, ValidTimeline;
    var published := Published(RUN.start, RUN.passes);
    assert p in published && p.(revision := 3) == published[2] && published[2] in published;
    RunsAreLineages(Runs());
    SentValid(Sending(Runs()), p);
  }

  lemma ShowsControl(fallback: Timeline, policy: CorrectionPolicy, p: Timeline)
    requires ValidTimeline(fallback) && ValidPolicy(policy) && fallback.session != NAME && OneControl(p)
    requires p.scheduled[0].discontinuity == 1
    ensures Evaluate(After(Initial(fallback, policy), Steps(p)).view, AHEAD + 40).discontinuity >= 1
  {
    hide After, ValidPolicy, Initial, Evaluate;
    StatesOfRun(fallback, policy, p);
    SameSchedule(p, 3, 0);
    InitialValid(fallback, policy);
    RunStaysValid(Initial(fallback, policy), Steps(p));
    ReadingNotBelowLatched(After(Initial(fallback, policy), Steps(p)).view, AHEAD + 40);
  }

  lemma NotYetDue(q: Timeline)
    requires ValidTimeline(q) && q.discontinuity == 0 && |q.scheduled| == 1
    requires q.scheduled[0].anchor.timeNs == CONTROL_AT
    ensures EffectiveAt(q, 40).discontinuity == 0
  {
    NothingDue(Active(q), q.scheduled, 40);
  }

  /** A complete run with orderly inputs, exact exchanges and snapshots heard two nanoseconds after
      they are sent. The follower's clock started two minutes before the leader's, so a control
      dated one minute from now lies in its past, and the heartbeat makes it apply that control.
      The exact exchange that follows does not bring it back: at 40 ns of leader time it plays the
      control the leader will not reach for a minute. */
  lemma HurriedControlHappens(fallback: Timeline, policy: CorrectionPolicy)
    requires ValidTimeline(fallback) && ValidPolicy(policy) && fallback.session != NAME
    ensures |Published(RUN.start, RUN.passes)| == 3
    ensures var p := Published(RUN.start, RUN.passes)[1];
            var s0, steps := Initial(fallback, policy), Steps(p);
            && ProperRuns(Runs()) && SlowClocks(TrueClocks()) && Delivers(Sending(Runs()), steps)
            && Measured(s0, steps, TrueClocks(), 0.0) && Onward(s0, steps)
            && (forall step <- steps :: HeardAfterSent(Runs(), step, TrueClocks()))
            && !Patient(s0, steps) && !AnchorReached(s0, steps, Sending(Runs()), TrueClocks())
            && Initialized(After(s0, steps).view) && Reads(Behind(), AHEAD + 40, 40)
            && Evaluate(After(s0, steps).view, AHEAD + 40).discontinuity >= 1
            && EffectiveAt(Published(RUN.start, RUN.passes)[2], 40).discontinuity == 0
  {
    hide After, Published, ProperRuns, SlowClocks, Delivers, Measured, Onward, HeardAfterSent, Patient, AnchorReached,
      Initial, ValidTimeline, ValidPolicy, Evaluate, Proper;
    RunIsProper();
    var p := Published(RUN.start, RUN.passes)[1];
    var s0, steps := Initial(fallback, policy), Steps(p);
    AllSent(p);
    AllMeasured(fallback, policy, p);
    StatesOfRun(fallback, policy, p);
    NotReached(fallback, policy, p, Sending(Runs()));
    if Patient(s0, steps) {
      NoControlEarly(Runs(), TrueClocks(), 0.0, fallback, policy, steps);
    }
    ShowsControl(fallback, policy, p);
    NotYetDue(Published(RUN.start, RUN.passes)[2]);
  }
}
