/** Controls a follower applies before the leader's clock has reached them, and when none is. */
module EarlyControls {
  import opened Arithmetic
  import opened Timelines
  import opened Leader
  import opened Retention
  import opened Clock
  import opened ClockRuns
  import opened ClockFit
  import opened Follower
  import opened FollowerRuns
  import opened FollowerHistory
  import opened Distributed
  import opened Announcements
  import opened Accuracy

  /** Leaders that never change a control they have reserved. */
  ghost predicate Retaining(leaders: Leaders) {
    Lineages(leaders) && forall id <- leaders :: AllRetain(leaders[id])
  }

  // ---------------------------------------------------------------- hurried snapshots

  /** A newer snapshot of the held session comes before the first accepted exchange, while a control
      in both the held timeline and the snapshot is dated at or before the follower's time, which
      until that exchange is its own clock. */
  predicate Hurried(s: FollowerState, step: Step) {
    && step.Heard? && !Initialized(s.view) && Wanted(s, step.timeline)
    && step.timeline.session == s.view.timeline.session && step.timeline.revision > s.view.timeline.revision
    && exists e <- step.timeline.scheduled ::
         e in s.view.timeline.scheduled && e.anchor.timeNs <= EvaluationTime(s.view, step.now)
  }

  predicate Known(leaders: Leaders, t: Timeline) {
    t.session in leaders && 1 <= t.revision <= |leaders[t.session]|
  }

  /** Until its first accepted exchange the follower holds its leader's timeline as published. */
  predicate Untouched(s: FollowerState, leaders: Leaders) {
    var t := s.view.timeline;
    t.session in leaders && !Initialized(s.view) ==> Known(leaders, t) && t == PublishedAs(leaders, t)
  }

  /** Latching either keeps an entry scheduled or takes it, and then is anchored no earlier. */
  lemma {:induction false} LatchedEntry(p: Timeline, d: nat, e: Scheduled)
    requires ValidTimeline(p) && e in p.scheduled
    ensures var t := Latched(p, d);
            if e.discontinuity > t.discontinuity then e in t.scheduled else e.anchor.timeNs <= t.anchor.timeNs
    decreases |p.scheduled|
  {
    LatchedSound(p, d);
    if p.scheduled[0].discontinuity > d {
      OrderedAbove(Active(p), p.scheduled, e);
    } else {
      assert p.scheduled == [p.scheduled[0]] + p.scheduled[1..];
      LatchedSound(Promoted(p), d);
      if e != p.scheduled[0] {
        LatchedEntry(Promoted(p), d, e);
      }
    }
  }

  lemma DueWhenShown(t: Timeline, time: nat, e: Scheduled)
    requires ValidTimeline(t) && e in t.scheduled
    ensures e.discontinuity <= EffectiveAt(t, time).discontinuity <==> e.anchor.timeNs <= time
    ensures e.discontinuity > t.discontinuity && EffectiveAt(t, time).discontinuity >= t.discontinuity
  {
    EffectiveSound(Active(t), t.scheduled, time);
    OrderedAbove(Active(t), t.scheduled, e);
  }

  lemma NewerRetains(leaders: Leaders, t: Timeline, q: Timeline)
    requires Retaining(leaders) && Faithful(leaders, t) && Sent(leaders, q)
    requires q.session == t.session && q.revision > t.revision
    ensures Retains(PublishedAs(leaders, t), q) && PublishedAs(leaders, q) == q && ValidTimeline(q) && Numbered(q)
  {
    FaithfulHere(leaders, q);
    SentValid(leaders, q);
    hide Retains, Lineages, Latched, ValidTimeline, Numbered;
    assert AllRetain(leaders[t.session]);
  }

  /** An entry taken over by catching up was due in the held timeline, or is no later than its anchor. */
  lemma CaughtUpFrom(s: FollowerState, q: Timeline, now: nat, e: Scheduled, leaders: Leaders)
    requires Retaining(leaders) && Faithful(leaders, s.view.timeline) && Sent(leaders, q)
    requires q.session == s.view.timeline.session && q.revision > s.view.timeline.revision
    requires e in q.scheduled
    requires e.discontinuity <= MaxI(s.view.timeline.discontinuity, Evaluate(s.view, now).discontinuity)
    ensures var t := s.view.timeline;
            if e.discontinuity > t.discontinuity then e in t.scheduled && e.anchor.timeNs <= EvaluationTime(s.view, now)
            else e.anchor.timeNs <= t.anchor.timeNs
    ensures Known(leaders, s.view.timeline) && e in PublishedAs(leaders, s.view.timeline).scheduled
  {
    var t := s.view.timeline;
    NewerRetains(leaders, t, q);
    FaithfulLatched(leaders, t);
    var p := PublishedAs(leaders, t);
    ShowsReserved(leaders, s.view, now);
    LatchedSound(p, t.discontinuity);
    ReadingNotBelowLatched(s.view, now);
    ShownInReading(s.view, now);
    hide Evaluate, Latched, Lineages, Faithful, EffectiveAt, Numbered, ValidTimeline, Extends, EvaluationTime, ActiveAt;
    LatchedEntry(p, t.discontinuity, e);
    if e.discontinuity > t.discontinuity {
      DueWhenShown(t, EvaluationTime(s.view, now), e);
    }
  }

  lemma LatchedUnchangedIff(q: Timeline, d: nat)
    requires ValidTimeline(q)
    ensures Latched(q, d) == q <==> forall e <- q.scheduled :: e.discontinuity > d
  {
    if q.scheduled != [] {
      if q.scheduled[0].discontinuity > d {
        forall e | e in q.scheduled ensures e.discontinuity > d {
          LatchedEntry(q, d, e);
          OrderedAbove(Active(q), q.scheduled, e);
          assert q.scheduled == [q.scheduled[0]] + q.scheduled[1..];
          if e != q.scheduled[0] {
            OrderedAbove(q.scheduled[0], q.scheduled[1..], e);
          }
        }
      } else {
        LatchedSound(Promoted(q), d);
        assert q.scheduled[0] in q.scheduled;
      }
    }
  }

  lemma LatchedLater(q: Timeline, d: nat)
    requires ValidTimeline(q)
    ensures Latched(q, d) != q <==> Latched(q, d).anchor.timeNs > q.anchor.timeNs
  {
    if q.scheduled != [] && q.scheduled[0].discontinuity <= d {
      LatchedSound(Promoted(q), d);
    }
  }

  lemma UntouchedFaithful(t: Timeline, leaders: Leaders)
    requires Known(leaders, t) && t == PublishedAs(leaders, t) && ValidTimeline(t)
    ensures Faithful(leaders, t)
  {
    LatchedNothing(t);
  }

  lemma SentKnown(leaders: Leaders, q: Timeline)
    requires Sent(leaders, q)
    ensures q.session in leaders
  {
  }

  lemma RetainingLineages(leaders: Leaders)
    requires Retaining(leaders)
    ensures Lineages(leaders)
  {
  }

  /** A snapshot is hurried exactly when some entry of it is up to the discontinuity on show. */
  lemma HurriedMeansShown(s: FollowerState, q: Timeline, now: nat, leaders: Leaders)
    requires ValidTimeline(s.view.timeline) && Retaining(leaders) && Sent(leaders, q) && !Initialized(s.view)
    requires Untouched(s, leaders) && s.view.timeline.session == q.session && Wanted(s, q)
    requires q.revision > s.view.timeline.revision
    ensures Hurried(s, Heard(q, now))
       <==> exists e <- q.scheduled ::
              e.discontinuity <= MaxI(s.view.timeline.discontinuity, Evaluate(s.view, now).discontinuity)
  {
    hide Evaluate, Latched, Retaining, EffectiveAt, EvaluationTime, Sent, ValidTimeline, Faithful;
    var t := s.view.timeline;
    var d := MaxI(t.discontinuity, Evaluate(s.view, now).discontinuity);
    SentKnown(leaders, q);
    UntouchedFaithful(t, leaders);
    ShownInReading(s.view, now);
    if e :| e in q.scheduled && e.discontinuity <= d {
      CaughtUpFrom(s, q, now, e, leaders);
      DueWhenShown(t, EvaluationTime(s.view, now), e);
    }
    if e :| e in q.scheduled && e in t.scheduled && e.anchor.timeNs <= EvaluationTime(s.view, now) {
      DueWhenShown(t, EvaluationTime(s.view, now), e);
    }
  }

  /** Exactly the hurried snapshots are latched before the clock has been measured. */
  lemma HurriedIff(s: FollowerState, q: Timeline, now: nat, leaders: Leaders)
    requires ValidFollower(s) && Retaining(leaders) && Sent(leaders, q) && !Initialized(s.view)
    requires Untouched(s, leaders) && s.view.timeline.session == q.session && Wanted(s, q)
    requires q.revision > s.view.timeline.revision
    ensures var u := Receive(s, q, now).state.view.timeline;
            && u.revision == q.revision && u.session == q.session
            && (u == q <==> !Hurried(s, Heard(q, now)))
            && (u.anchor.timeNs > q.anchor.timeNs <==> Hurried(s, Heard(q, now)))
  {
    hide Evaluate, Receive, Latched, Lineages, Faithful, ValidEstimator, EvaluationTime, Sent, Hurried, ValidTimeline;
    var t := s.view.timeline;
    var d := MaxI(t.discontinuity, Evaluate(s.view, now).discontinuity);
    RetainingLineages(leaders);
    SentKnown(leaders, q);
    UntouchedFaithful(t, leaders);
    SentValid(leaders, q);
    hide Untouched, Retaining;
    NeverDiscarded(s, q, now, leaders);
    HurriedMeansShown(s, q, now, leaders);
    LatchedUnchangedIff(q, d);
    LatchedLater(q, d);
  }

  /** A step that is no hurried snapshot keeps the published timeline until the clock is measured. */
  lemma StepUntouched(s: FollowerState, step: Step, leaders: Leaders)
    requires ValidFollower(s) && Retaining(leaders) && Untouched(s, leaders)
    requires step.Heard? ==> Sent(leaders, step.timeline)
    ensures Untouched(Apply(s, step).state, leaders) <==> !Hurried(s, step)
  {
    hide Receive, Measure, Tick, Hurried, Lineages, ValidFollower, ValidTimeline, Sent;
    match step
    case Connecting =>
      assert !Hurried(s, step) by { NotHeard(s, step); }
    case Heard(q, now) => HeardUntouched(s, q, now, leaders);
    case Probed(e, processed) =>
      NotHeard(s, step);
      MeasureKeepsTimeline(s, e, processed);
      StaysInitialized(s, e, processed);
    case Ticking(now, staleAfter) =>
      NotHeard(s, step);
      TickUnmeasured(s, now, staleAfter);
    case Losing =>
      assert !Hurried(s, step) by { NotHeard(s, step); }
  }

  lemma NotHeard(s: FollowerState, step: Step)
    requires !step.Heard?
    ensures !Hurried(s, step)
  {
  }

  lemma MeasuredMapping(s: FollowerState, e: Exchange, processed: nat)
    ensures Measure(s, e, processed).state.view.mapping
         == if s.expectedSession.Some? && Observe(s.estimator, e).accepted then Observe(s.estimator, e).state.mapping
            else s.view.mapping
  {
    hide Observe, Evaluate, PhaseError, ActiveAt;
  }

  lemma StaysInitialized(s: FollowerState, e: Exchange, processed: nat)
    requires ValidFollower(s)
    ensures Initialized(s.view) ==> Initialized(Measure(s, e, processed).state.view)
  {
    MeasuredMapping(s, e, processed);
    hide Observe, Measure, ValidEstimator, ValidTimeline;
    if Observe(s.estimator, e).accepted {
      AcceptedReceipt(s.estimator, e);
    }
  }

  lemma TickUnmeasured(s: FollowerState, now: nat, staleAfter: nat)
    ensures var v := Tick(s, now, staleAfter).state.view;
            v.mapping == s.view.mapping && (!Initialized(s.view) ==> v.timeline == s.view.timeline)
  {
    hide ActiveAt, Latched;
  }

  lemma HeardUntouched(s: FollowerState, q: Timeline, now: nat, leaders: Leaders)
    requires ValidFollower(s) && Retaining(leaders) && Untouched(s, leaders) && Sent(leaders, q)
    ensures Untouched(Receive(s, q, now).state, leaders) <==> !Hurried(s, Heard(q, now))
  {
    hide Receive, Retaining, ValidFollower, Sent, EvaluationTime;
    var t := s.view.timeline;
    if t.session == q.session && q.revision > t.revision && Wanted(s, q) && !Initialized(s.view) {
      NewerUntouched(s, q, now, leaders);
    } else {
      RetainingLineages(leaders);
      OtherUntouched(s, q, now, leaders);
    }
  }

  lemma NewerUntouched(s: FollowerState, q: Timeline, now: nat, leaders: Leaders)
    requires ValidFollower(s) && Retaining(leaders) && Untouched(s, leaders) && Sent(leaders, q)
    requires s.view.timeline.session == q.session && q.revision > s.view.timeline.revision && Wanted(s, q)
    requires !Initialized(s.view)
    ensures Untouched(Receive(s, q, now).state, leaders) <==> !Hurried(s, Heard(q, now))
  {
    hide Receive, Retaining, ValidFollower, Hurried, Wanted, Sent, Lineages;
    HurriedIff(s, q, now, leaders);
    HearingKeepsMapping(s, q, now);
    RetainingLineages(leaders);
    QIsPublished(leaders, q);
    assert PublishedAs(leaders, Receive(s, q, now).state.view.timeline) == q;
  }

  lemma QIsPublished(leaders: Leaders, q: Timeline)
    requires Lineages(leaders) && Sent(leaders, q)
    ensures Known(leaders, q) && PublishedAs(leaders, q) == q
  {
    SentValid(leaders, q);
    FaithfulHere(leaders, q);
    hide Lineages, ValidTimeline, Numbered, Latched;
  }

  lemma OtherUntouched(s: FollowerState, q: Timeline, now: nat, leaders: Leaders)
    requires Lineages(leaders) && Untouched(s, leaders) && Sent(leaders, q)
    requires s.view.timeline.session != q.session || q.revision <= s.view.timeline.revision || !Wanted(s, q)
          || Initialized(s.view)
    ensures Untouched(Receive(s, q, now).state, leaders) && !Hurried(s, Heard(q, now))
  {
    hide Receive, Evaluate, RollsBack, CaughtUp, Lineages, EvaluationTime, Sent, ValidTimeline, Faithful;
    HearingKeepsMapping(s, q, now);
    HeldAfterHearing(s, q, now);
    QIsPublished(leaders, q);
    SentValid(leaders, q);
    CaughtUpIdentity(s, q, now);
  }

  lemma HearingKeepsMapping(s: FollowerState, q: Timeline, now: nat)
    ensures s.view.timeline.session == q.session ==>
              Receive(s, q, now).state.view.mapping == s.view.mapping
    ensures !Wanted(s, q) ==> Receive(s, q, now).state == s
  {
    hide Evaluate, ActiveAt, PhaseError, CaughtUp, RollsBack, Correct;
    var s1 := s.(expectedSession := Some(q.session));
    CorrectKeepsView(s1.(view := s.view.(timeline := CaughtUp(s1, q, now))), Evaluate(s.view, now).position, now);
  }

  // ---------------------------------------------------------------- over whole runs

  /** No snapshot of the run is hurried. */
  predicate Patient(s0: FollowerState, steps: seq<Step>) {
    steps == []
    || (var front, last := steps[..|steps| - 1], steps[|steps| - 1];
        Patient(s0, front) && !Hurried(After(s0, front), last))
  }

  predicate AlwaysUntouched(s0: FollowerState, steps: seq<Step>, leaders: Leaders) {
    Untouched(After(s0, steps), leaders) && (steps == [] || AlwaysUntouched(s0, steps[..|steps| - 1], leaders))
  }

  /** Over every run and any delivery: a follower that has not measured its leader's clock never
      applies a control by its own clock, if and only if no snapshot is hurried. */
  lemma {:induction false} UntouchedIffPatient(
      fallback: Timeline, policy: CorrectionPolicy, leaders: Leaders, steps: seq<Step>)
    requires ValidTimeline(fallback) && ValidPolicy(policy) && fallback.session !in leaders
    requires Retaining(leaders) && Delivers(leaders, steps)
    ensures AlwaysUntouched(Initial(fallback, policy), steps, leaders) <==> Patient(Initial(fallback, policy), steps)
  {
    var s0 := Initial(fallback, policy);
    hide Retaining, Untouched, Hurried, Apply, ValidFollower, ValidTimeline, ValidPolicy, Sent;
    if steps == [] {
      FallbackUntouched(fallback, policy, leaders);
    } else {
      var front, last := steps[..|steps| - 1], steps[|steps| - 1];
      UntouchedIffPatient(fallback, policy, leaders, front);
      RetainingLineages(leaders);
      InitialValid(fallback, policy);
      DeliversValid(leaders, front);
      RunStaysValid(s0, front);
      assert last in steps;
      if AlwaysUntouched(s0, front, leaders) {
        StepUntouched(After(s0, front), last, leaders);
      }
    }
  }

  lemma FallbackUntouched(fallback: Timeline, policy: CorrectionPolicy, leaders: Leaders)
    requires fallback.session !in leaders
    ensures Untouched(Initial(fallback, policy), leaders)
  {
  }

  // ---------------------------------------------------------------- anchors already reached

  /** A snapshot arrives once its leader's clock has reached its anchor, and the local clock does
      not read less than it did at the last receipt. */
  ghost predicate Timely(s: FollowerState, step: Step, clocks: Clocks) {
    && (step.Heard? && step.timeline.session in clocks ==>
          step.timeline.anchor.timeNs as real <= LeaderClock(clocks[step.timeline.session], step.now))
    && (step.Heard? || step.Ticking? ==> step.now >= s.view.mapping.lastSampleNs)
  }

  ghost predicate AllTimely(s0: FollowerState, steps: seq<Step>, clocks: Clocks) {
    steps == []
    || (var front, last := steps[..|steps| - 1], steps[|steps| - 1];
        AllTimely(s0, front, clocks) && Timely(After(s0, front), last, clocks))
  }

  /** What the leader's clock reads at a local time, fractions included. */
  ghost function LeaderClock(theta: real -> real, local: nat): real {
    local as real + theta(local as real)
  }

  /** The leader's clock had reached a time when the step took effect, or lacked no more than the
      uncertainty the follower reported then. */
  ghost predicate ReachedBy(s: FollowerState, step: Step, time: nat, theta: real -> real) {
    && (step.Heard? || step.Ticking?)
    && var lead, bound := LeaderClock(theta, step.now), s.view.mapping.UncertaintyAt(step.now);
    && (time as real <= lead || (bound.Within? && time as real <= lead + bound.ns))
  }

  ghost predicate ReachedIn(s0: FollowerState, steps: seq<Step>, k: nat, time: nat, theta: real -> real) {
    k < |steps| && ReachedBy(After(s0, steps[..k]), steps[k], time, theta)
  }

  /** The held anchor was no more than the uncertainty ahead of the leader when it was taken over. */
  ghost predicate AnchorReached(s0: FollowerState, steps: seq<Step>, leaders: Leaders, clocks: Clocks) {
    var t := After(s0, steps).view.timeline;
    t.session in leaders && t.session in clocks ==>
      exists k: nat :: ReachedIn(s0, steps, k, t.anchor.timeNs, clocks[t.session])
  }

  lemma ShownIsReached(m: ClockMapping, theta: real -> real, now: nat, time: nat)
    requires 1 <= time <= m.LeaderTime(now) && m.UncertaintyAt(now).Within? && !Missed(theta, m, now)
    ensures time as real <= LeaderClock(theta, now) + m.UncertaintyAt(now).ns
  {
  }

  /** One step takes over no anchor the leader's clock has not reached, up to the uncertainty. */
  ghost predicate Prompt(s: FollowerState, step: Step, clocks: Clocks) {
    var t, u := s.view.timeline, Apply(s, step).state.view.timeline;
    u.session in clocks ==>
      || (u.session == t.session && u.anchor.timeNs <= t.anchor.timeNs)
      || ReachedBy(s, step, u.anchor.timeNs, clocks[u.session])
  }

  lemma TickPrompt(s: FollowerState, now: nat, staleAfter: nat, clocks: Clocks, slack: real)
    requires ValidFollower(s) && Sound(s, clocks, slack) && Timely(s, Ticking(now, staleAfter), clocks)
    ensures Prompt(s, Ticking(now, staleAfter), clocks)
  {
    var t, id := s.view.timeline, ActiveAt(s.view, now);
    LatchedSound(t, id);
    EffectiveIsUsed(t, s.view.mapping.LeaderTime(now));
    TickLatches(s, now, staleAfter);
    var u := Latched(t, id);
    hide Tick, Latched, ValidEstimator, ValidTimeline, EffectiveAt, Missed, Trusted, UncertaintySound;
    if Initialized(s.view) && t.session in clocks && Active(u) != Active(t) {
      DueWhenShown(t, s.view.mapping.LeaderTime(now), Active(u));
      OrderedAbove(Active(t), t.scheduled, Active(u));
      MeasuredBound(s, now);
      SoundAt(s, clocks, slack, now);
      ShownIsReached(s.view.mapping, clocks[t.session], now, u.anchor.timeNs);
    }
  }

  lemma HearingPrompt(s: FollowerState, q: Timeline, now: nat, leaders: Leaders, clocks: Clocks, slack: real)
    requires ValidFollower(s) && Sound(s, clocks, slack) && Timely(s, Heard(q, now), clocks)
    requires Retaining(leaders) && Sent(leaders, q) && Untouched(s, leaders)
    requires s.view.timeline.session in leaders ==> Faithful(leaders, s.view.timeline)
    requires !Hurried(s, Heard(q, now))
    ensures Prompt(s, Heard(q, now), clocks)
  {
    hide Receive, Latched, ValidEstimator, ValidTimeline, Evaluate, Missed, Trusted, UncertaintySound, Lineages,
      Sent, RollsBack, CaughtUp, Untouched, Hurried, Faithful;
    HeldAfterHearing(s, q, now);
    SentValid(leaders, q);
    CaughtUpIdentity(s, q, now);
    var t, u := s.view.timeline, Receive(s, q, now).state.view.timeline;
    if q.session in clocks && Wanted(s, q) && t.session == q.session && q.revision > t.revision && u != t {
      assert u == CaughtUp(s, q, now);
      SentKnown(leaders, q);
      if Initialized(s.view) {
        CatchingUpPrompt(s, q, now, leaders, clocks, slack);
      } else {
        HurriedIff(s, q, now, leaders);
      }
    }
  }

  lemma CatchingUpPrompt(s: FollowerState, q: Timeline, now: nat, leaders: Leaders, clocks: Clocks, slack: real)
    requires ValidFollower(s) && Sound(s, clocks, slack) && Initialized(s.view) && now >= s.view.mapping.lastSampleNs
    requires Retaining(leaders) && Sent(leaders, q) && Faithful(leaders, s.view.timeline)
    requires q.session in clocks && s.view.timeline.session == q.session && q.revision > s.view.timeline.revision
    ensures var t, u := s.view.timeline, CaughtUp(s, q, now);
            var lead, bound := LeaderClock(clocks[q.session], now), s.view.mapping.UncertaintyAt(now);
            || u.anchor == q.anchor || u.anchor.timeNs <= t.anchor.timeNs
            || (bound.Within? && u.anchor.timeNs as real <= lead + bound.ns)
  {
    var t, u := s.view.timeline, CaughtUp(s, q, now);
    NewerRetains(leaders, t, q);
    LatchedSound(q, MaxI(t.discontinuity, Evaluate(s.view, now).discontinuity));
    hide Latched, ValidEstimator, Evaluate, Missed, Trusted, UncertaintySound, Lineages, Sent, Faithful, CaughtUp,
      Retaining;
    if Active(u) in q.scheduled {
      OrderedAbove(Active(q), q.scheduled, Active(u));
      CaughtUpFrom(s, q, now, Active(u), leaders);
      MeasuredBound(s, now);
      SoundAt(s, clocks, slack, now);
      if u.anchor.timeNs > t.anchor.timeNs {
        ShownIsReached(s.view.mapping, clocks[q.session], now, u.anchor.timeNs);
      }
    }
  }

  lemma StepPrompt(s: FollowerState, step: Step, leaders: Leaders, clocks: Clocks, slack: real)
    requires ValidFollower(s) && Sound(s, clocks, slack) && Timely(s, step, clocks)
    requires Retaining(leaders) && (step.Heard? ==> Sent(leaders, step.timeline)) && Untouched(s, leaders)
    requires s.view.timeline.session in leaders ==> Faithful(leaders, s.view.timeline)
    requires !Hurried(s, step)
    ensures Prompt(s, step, clocks)
  {
    hide Receive, Measure, Tick, ValidFollower, Sound, Timely, Retaining, Sent, Untouched, Hurried, ReachedBy;
    match step
    case Connecting =>
    case Heard(q, now) => HearingPrompt(s, q, now, leaders, clocks, slack);
    case Probed(e, processed) => MeasureKeepsTimeline(s, e, processed);
    case Ticking(now, staleAfter) => TickPrompt(s, now, staleAfter, clocks, slack);
    case Losing =>
  }

  /** Over every run that hears no hurried snapshot: the anchor a follower holds was, when it was
      taken over, at most the uncertainty reported then ahead of its leader's clock. */
  lemma {:induction false} HeldAnchorReached(
      fallback: Timeline, policy: CorrectionPolicy, leaders: Leaders, clocks: Clocks, slack: real, steps: seq<Step>)
    requires ValidTimeline(fallback) && ValidPolicy(policy) && fallback.session !in leaders && SlowClocks(clocks)
    requires Retaining(leaders) && Delivers(leaders, steps)
    requires Measured(Initial(fallback, policy), steps, clocks, slack)
    requires AllTimely(Initial(fallback, policy), steps, clocks) && Patient(Initial(fallback, policy), steps)
    ensures AnchorReached(Initial(fallback, policy), steps, leaders, clocks)
  {
    hide Retaining, Untouched, Hurried, Apply, ValidFollower, ValidTimeline, ValidPolicy, Sent, Sound, Faithful,
      ReachedBy, Timely, GenuineFor, Lineages, SlowClocks;
    var s0 := Initial(fallback, policy);
    if steps != [] {
      var front, last := steps[..|steps| - 1], steps[|steps| - 1];
      var s := After(s0, front);
      HeldAnchorReached(fallback, policy, leaders, clocks, slack, front);
      RetainingLineages(leaders);
      InitialValid(fallback, policy);
      DeliversValid(leaders, front);
      RunStaysValid(s0, front);
      RunKeepsSound(fallback, policy, front, clocks, slack);
      UntouchedIffPatient(fallback, policy, leaders, front);
      HoldsWhatWasPublished(fallback, policy, leaders, front, 0);
      assert last in steps;
      hide Initial;
      StepPrompt(s, last, leaders, clocks, slack);
      PromptKeepsReached(s0, steps, leaders, clocks);
    } else {
      assert After(s0, steps).view.timeline == fallback;
    }
  }

  lemma PromptKeepsReached(s0: FollowerState, steps: seq<Step>, leaders: Leaders, clocks: Clocks)
    requires steps != [] && AnchorReached(s0, steps[..|steps| - 1], leaders, clocks)
    requires Prompt(After(s0, steps[..|steps| - 1]), steps[|steps| - 1], clocks)
    ensures AnchorReached(s0, steps, leaders, clocks)
  {
    hide Apply, After;
    var front, last := steps[..|steps| - 1], steps[|steps| - 1];
    StepAfter(s0, steps);
    var t, u := After(s0, front).view.timeline, After(s0, steps).view.timeline;
    if u.session in leaders && u.session in clocks {
      var theta := clocks[u.session];
      if ReachedBy(After(s0, front), last, u.anchor.timeNs, theta) {
        assert ReachedIn(s0, steps, |front|, u.anchor.timeNs, theta);
      } else {
        var k: nat :| ReachedIn(s0, front, k, t.anchor.timeNs, theta);
        assert front[..k] == steps[..k];
        assert ReachedIn(s0, steps, k, u.anchor.timeNs, theta);
      }
    }
  }

  lemma StepAfter(s0: FollowerState, steps: seq<Step>)
    requires steps != []
    ensures After(s0, steps) == Apply(After(s0, steps[..|steps| - 1]), steps[|steps| - 1]).state
  {
    hide Apply;
  }

  // ---------------------------------------------------------------- with the leaders' own runs

  lemma RunsRetain(runs: map<Id16, LeaderRun>)
    requires ProperRuns(runs)
    ensures Retaining(Sending(runs))
  {
    hide Published, Leading, InTime, AllOrderly, AllRetain, Lineages;
    RunsAreLineages(runs);
    forall id | id in runs ensures AllRetain(Sending(runs)[id]) {
      assert Proper(runs[id]);
      RunRetains(runs[id].start, runs[id].passes, runs[id].clock);
    }
  }

  /** A snapshot is heard no earlier than its leader published it, by that leader's clock. */
  ghost predicate HeardAfterSent(runs: map<Id16, LeaderRun>, step: Step, clocks: Clocks) {
    step.Heard? && step.timeline.session in runs && step.timeline.session in clocks ==>
      var run, id := runs[step.timeline.session], step.timeline.session;
      var times := PublishedTimes(run.start, run.passes, run.clock);
      1 <= step.timeline.revision <= |times|
      && times[step.timeline.revision - 1] as real <= LeaderClock(clocks[id], step.now)
  }

  /** The local clock never reads less than it did at the last receipt. */
  predicate Onward(s0: FollowerState, steps: seq<Step>) {
    steps == []
    || (var front, last := steps[..|steps| - 1], steps[|steps| - 1];
        && Onward(s0, front)
        && (last.Heard? || last.Ticking? ==> last.now >= After(s0, front).view.mapping.lastSampleNs))
  }

  lemma ProperAnchored(run: LeaderRun)
    requires Proper(run)
    ensures |PublishedTimes(run.start, run.passes, run.clock)| == |Published(run.start, run.passes)|
    ensures forall i :: 0 <= i < |Published(run.start, run.passes)| ==>
              Published(run.start, run.passes)[i].anchor.timeNs <= PublishedTimes(run.start, run.passes, run.clock)[i]
  {
    hide Published, PublishedTimes, Leading, InTime, AllOrderly;
    AnchoredByThen(run.start, run.passes, run.clock);
  }

  lemma SentByThen(runs: map<Id16, LeaderRun>, step: Step, clocks: Clocks)
    requires ProperRuns(runs) && step.Heard? && Sent(Sending(runs), step.timeline)
    requires HeardAfterSent(runs, step, clocks) && step.timeline.session in clocks
    ensures step.timeline.anchor.timeNs as real <= LeaderClock(clocks[step.timeline.session], step.now)
  {
    hide Published, PublishedTimes, Leading, InTime, AllOrderly, Lineages, Proper;
    var t := step.timeline;
    var run := runs[t.session];
    ProperOf(runs, t.session);
    RunsAreLineages(runs);
    QIsPublished(Sending(runs), t);
    ProperAnchored(run);
  }

  lemma {:induction false} OnwardIsTimely(
      runs: map<Id16, LeaderRun>, clocks: Clocks, s0: FollowerState, steps: seq<Step>)
    requires ProperRuns(runs) && Delivers(Sending(runs), steps) && Onward(s0, steps)
    requires forall step <- steps :: HeardAfterSent(runs, step, clocks)
    ensures AllTimely(s0, steps, clocks)
  {
    hide ProperRuns, HeardAfterSent, After;
    if steps != [] {
      var front, last := steps[..|steps| - 1], steps[|steps| - 1];
      OnwardIsTimely(runs, clocks, s0, front);
      assert last in steps;
      if last.Heard? && last.timeline.session in clocks {
        SentByThen(runs, last, clocks);
      }
    }
  }

  /** End to end: any leaders under orderly inputs, any delivery after publication, genuine
      exchanges, an onward local clock, and no hurried snapshot. Then no control is ever applied
      while the leader's clock still lacked more than the uncertainty reported at that moment. */
  lemma NoControlEarly(
      runs: map<Id16, LeaderRun>, clocks: Clocks, slack: real, fallback: Timeline, policy: CorrectionPolicy,
      steps: seq<Step>)
    requires ProperRuns(runs) && SlowClocks(clocks) && ValidTimeline(fallback) && ValidPolicy(policy)
    requires fallback.session !in runs && Delivers(Sending(runs), steps)
    requires Measured(Initial(fallback, policy), steps, clocks, slack)
    requires forall step <- steps :: HeardAfterSent(runs, step, clocks)
    requires Onward(Initial(fallback, policy), steps) && Patient(Initial(fallback, policy), steps)
    ensures AnchorReached(Initial(fallback, policy), steps, Sending(runs), clocks)
  {
    hide ProperRuns, HeardAfterSent, After, Initial, Onward, Patient, AllTimely, AnchorReached, Retaining, Measured,
      Delivers, SlowClocks;
    RunsRetain(runs);
    OnwardIsTimely(runs, clocks, Initial(fallback, policy), steps);
    HeldAnchorReached(fallback, policy, Sending(runs), clocks, slack, steps);
  }

  /** From an anchor taken over so, the follower soon sees itself past it by more than its clock's
      uncertainty: after little more than twice that and what the anchor was ahead by. */
  lemma AnchorSoonPassed(
      m: ClockMapping, theta: real -> real, time: nat, taken: nat, ahead: real, local: nat, u: real)
    requires DriftsSlowly(theta) && time as real <= LeaderClock(theta, taken) + ahead && taken <= local
    requires m.UncertaintyAt(local) == Within(u) && !Missed(theta, m, local)
    requires local as real + m.OffsetAt(local) <= LEADER_TIME_MAX
    requires 0.9995 * (local - taken) as real >= ahead + 2.0 * u + 2.0
    ensures m.LeaderTime(local) as real >= time as real + u + 1.0
  {
    assert AbsR(theta(local as real) - theta(taken as real)) <= Drifted(AbsR(local as real - taken as real));
    assert AbsR(m.OffsetAt(local) - theta(local as real)) <= u;
    hide DriftsSlowly, Missed;
    assert (local - taken) as real == local as real - taken as real;
  }
}
