/** Leaders and one follower, with snapshots lost, reordered and repeated in between. */
module Distributed {
  import opened Arithmetic
  import opened Timelines
  import opened Leader
  import opened ClockRuns
  import opened Follower
  import opened FollowerRuns
  import opened FollowerHistory

  // ---------------------------------------------------------------- what a leader publishes

  /** Revisions count up from one and every later snapshot covers what earlier ones reserved. */
  ghost predicate Lineage(published: seq<Timeline>) {
    && (forall i :: 0 <= i < |published| ==> Publishable(published[i], i + 1))
    && forall i, j :: 0 <= i <= j < |published| ==> Extends(published[i], published[j])
  }

  /** Whatever mix of inputs a leader takes, its published snapshots form a lineage, provided no
      discontinuous sample arrives over two or more pending controls. */
  lemma {:induction false} RunLineage(st: LeaderState, passes: seq<Pass>, start: nat)
    requires Leading(st, start) && st.timeline.revision == 1 && InTime(passes, start) && AllOrderly(st, passes)
    ensures Lineage(Published(st, passes))
    ensures forall t <- Published(st, passes) :: Extends(t, StateAfter(st, passes).timeline)
  {
    EveryPublishSound(st, passes, start);
    if passes == [] {
    } else {
      var front, last := passes[..|passes| - 1], passes[|passes| - 1];
      RunLineage(st, front, start);
      EveryPublishSound(st, front, start);
      PassSound(StateAfter(st, front), last, ClockAfter(start, front));
      var published, current := Published(st, front), StateAfter(st, front).timeline;
      var h := Progress(StateAfter(st, front), last);
      assert h.publish ==> Published(st, passes) == published + [h.state.timeline];
      assert h.publish ==> Publishable(Published(st, passes)[|published|], |published| + 1);
      assert !h.publish ==> Published(st, passes) == published;
      assert StateAfter(st, passes) == h.state;
      hide Progress, Published, StateAfter, Publishable, Leading, Orderly, Timed, InTime, AllOrderly;
      LineageExtended(published, current, h.state.timeline);
    }
  }

  lemma LineageExtended(published: seq<Timeline>, current: Timeline, next: Timeline)
    requires Lineage(published) && (forall t <- published :: Extends(t, current)) && Extends(current, next)
    ensures forall t <- published :: Extends(t, next)
    ensures Publishable(next, |published| + 1) ==>
              Lineage(published + [next]) && forall t <- published + [next] :: Extends(t, next)
  {
    hide Publishable;
    forall t | t in published ensures Extends(t, next) {
      assert Extends(t, current);
    }
    var longer := published + [next];
    forall i, j | 0 <= i <= j < |longer| ensures Extends(longer[i], longer[j]) {
      assert i < |published| ==> published[i] in published;
    }
  }

  // ---------------------------------------------------------------- what a follower holds

  /** Leaders by session, each with everything it publishes over its run. */
  type Leaders = map<Id16, seq<Timeline>>

  ghost predicate Lineages(leaders: Leaders) {
    forall id <- leaders :: Lineage(leaders[id]) && forall t <- leaders[id] :: t.session == id
  }

  predicate Sent(leaders: Leaders, t: Timeline) {
    t.session in leaders && t in leaders[t.session]
  }

  /** Any published snapshot may arrive, at any time, any number of times or never. */
  predicate Delivers(leaders: Leaders, steps: seq<Step>) {
    forall step <- steps :: step.Heard? ==> Sent(leaders, step.timeline)
  }

  function PublishedAs(leaders: Leaders, t: Timeline): Timeline
    requires t.session in leaders && 1 <= t.revision <= |leaders[t.session]|
  {
    leaders[t.session][t.revision - 1]
  }

  /** A timeline that is the published one of its revision, advanced by latching only. */
  predicate Faithful(leaders: Leaders, t: Timeline) {
    && t.session in leaders && 1 <= t.revision <= |leaders[t.session]|
    && t == Latched(PublishedAs(leaders, t), t.discontinuity)
  }

  lemma {:induction false} LatchedCanonical(t: Timeline, d: nat)
    requires ValidTimeline(t)
    ensures Latched(t, Latched(t, d).discontinuity) == Latched(t, d)
    decreases |t.scheduled|
  {
    if t.scheduled != [] && t.scheduled[0].discontinuity <= d {
      LatchedSound(Promoted(t), d);
      LatchedCanonical(Promoted(t), d);
    }
  }

  lemma SentValid(leaders: Leaders, t: Timeline)
    requires Lineages(leaders) && Sent(leaders, t)
    ensures ValidTimeline(t) && Faithful(leaders, t)
  {
    var published := leaders[t.session];
    var i :| 0 <= i < |published| && published[i] == t;
    assert Publishable(published[i], i + 1);
    LatchedNothing(t);
  }

  lemma FaithfulLatch(leaders: Leaders, t: Timeline, d: nat)
    requires Lineages(leaders) && Faithful(leaders, t)
    ensures Faithful(leaders, Latched(t, d))
  {
    hide Latched, ValidTimeline, Numbered, SnapshotValid, FromWire;
    var p := PublishedAs(leaders, t);
    PublishedValid(leaders, t);
    hide Lineages;
    LatchedTwice(p, t.discontinuity, d);
    LatchedSound(p, MaxI(t.discontinuity, d));
    LatchedCanonical(p, MaxI(t.discontinuity, d));
  }

  lemma PublishedValid(leaders: Leaders, t: Timeline)
    requires Lineages(leaders) && t.session in leaders && 1 <= t.revision <= |leaders[t.session]|
    ensures var p := PublishedAs(leaders, t);
            ValidTimeline(p) && Numbered(p) && p.revision == t.revision && p.session == t.session
  {
    hide ValidTimeline, Numbered, SnapshotValid, FromWire;
    assert PublishedAs(leaders, t) in leaders[t.session];
    assert Publishable(leaders[t.session][t.revision - 1], t.revision);
  }

  /** One step keeps the held timeline faithful, whatever snapshots were dropped, reordered or
      repeated before it. */
  lemma StepFaithful(s: FollowerState, step: Step, leaders: Leaders)
    requires ValidFollower(s) && Lineages(leaders) && (step.Heard? ==> Sent(leaders, step.timeline))
    requires s.view.timeline.session in leaders ==> Faithful(leaders, s.view.timeline)
    ensures var t := Apply(s, step).state.view.timeline;
            t.session in leaders ==> Faithful(leaders, t)
  {
    if step.Heard? {
      SentValid(leaders, step.timeline);
    }
    StepForward(s, step);
    var t, u := s.view.timeline, Apply(s, step).state.view.timeline;
    hide Apply, ValidFollower, Lineages, Faithful;
    if u.session == t.session && u.session in leaders {
      if u.revision == t.revision {
        var d :| u == Latched(t, d);
        FaithfulLatch(leaders, t, d);
      } else {
        NewerIsLatched(s, step);
        var d :| u == Latched(step.timeline, d);
        FaithfulLatch(leaders, step.timeline, d);
      }
    }
  }

  lemma NewerIsLatched(s: FollowerState, step: Step)
    requires ValidFollower(s) && StepInput(step)
    requires Apply(s, step).state.view.timeline.session == s.view.timeline.session
    requires Apply(s, step).state.view.timeline.revision != s.view.timeline.revision
    ensures step.Heard? && exists d :: Apply(s, step).state.view.timeline == Latched(step.timeline, d)
  {
    match step
    case Connecting =>
    case Heard(t, now) => HeldAfterHearing(s, t, now);
    case Probed(e, processed) => MeasureKeepsTimeline(s, e, processed);
    case Ticking(now, staleAfter) => LatchedSound(s.view.timeline, ActiveAt(s.view, now));
    case Losing =>
  }

  /** Over every run: whenever the follower is in a known leader's session, what it holds is the
      snapshot published under its revision, advanced by latching only, and from its anchor on it
      gives exactly the positions and identities the leader published. */
  lemma {:induction false} HoldsWhatWasPublished(
      fallback: Timeline, policy: CorrectionPolicy, leaders: Leaders, steps: seq<Step>, time: nat)
    requires ValidTimeline(fallback) && ValidPolicy(policy) && fallback.session !in leaders
    requires Lineages(leaders) && Delivers(leaders, steps)
    ensures var t := After(Initial(fallback, policy), steps).view.timeline;
            t.session in leaders ==>
              && Faithful(leaders, t)
              && (time >= t.anchor.timeNs ==>
                    && EffectiveAt(t, time) == EffectiveAt(PublishedAs(leaders, t), time)
                    && PositionAt(t, time) == PositionAt(PublishedAs(leaders, t), time))
  {
    var s0 := Initial(fallback, policy);
    if steps != [] {
      var before, step := steps[..|steps| - 1], steps[|steps| - 1];
      HoldsWhatWasPublished(fallback, policy, leaders, before, time);
      DeliversValid(leaders, before);
      InitialValid(fallback, policy);
      RunStaysValid(s0, before);
      assert step in steps;
      hide Apply, ValidFollower, Lineages, Faithful;
      StepFaithful(After(s0, before), step, leaders);
    }
    var t := After(s0, steps).view.timeline;
    hide After;
    if t.session in leaders && time >= t.anchor.timeNs {
      FaithfulAgrees(leaders, t, time);
    }
  }

  lemma FaithfulAgrees(leaders: Leaders, t: Timeline, time: nat)
    requires Lineages(leaders) && Faithful(leaders, t) && time >= t.anchor.timeNs
    ensures EffectiveAt(t, time) == EffectiveAt(PublishedAs(leaders, t), time)
    ensures PositionAt(t, time) == PositionAt(PublishedAs(leaders, t), time)
  {
    var p := PublishedAs(leaders, t);
    PublishedValid(leaders, t);
    hide Lineages, ValidTimeline;
    LatchedSound(p, t.discontinuity);
    LatchedAgreesFromAnchor(p, t.discontinuity, time);
    hide EffectiveAt, Latched, AnchorAt;
  }

  lemma DeliversValid(leaders: Leaders, steps: seq<Step>)
    requires Lineages(leaders) && Delivers(leaders, steps)
    ensures forall step <- steps :: StepInput(step)
  {
    forall step | step in steps ensures StepInput(step) {
      if step.Heard? {
        SentValid(leaders, step.timeline);
      }
    }
  }

  // ---------------------------------------------------------------- no honest update is lost

  /** The rollback check fires exactly when the discontinuity on show lies beyond everything the
      snapshot uses, or the snapshot has another format and uses the discontinuity on show. */
  lemma DiscardedIff(s: FollowerState, t: Timeline, now: nat)
    requires ValidFollower(s) && ValidTimeline(t) && Numbered(t)
    ensures RollsBack(s, t, now)
       <==> || Evaluate(s.view, now).discontinuity > Horizon(t)
            || (t.format != s.view.timeline.format && Evaluate(s.view, now).discontinuity >= t.discontinuity)
  {
    var before := Evaluate(s.view, now).discontinuity;
    ReadingNotBelowLatched(s.view, now);
    hide Evaluate, ValidEstimator;
    LatchedSound(t, before);
    IdsNumbered(t, before);
    IdsNumbered(t, Latched(t, before).discontinuity);
    hide Latched, Numbered, ValidTimeline;
    assert MaxI(s.view.timeline.discontinuity, before) == before;
    var r := Latched(t, before);
    assert r.discontinuity in Ids(t) by {
      assert Active(r) == Active(t) || Active(r) in t.scheduled;
    }
  }

  /** A faithful timeline shows only discontinuities its published snapshot uses. */
  lemma ShowsReserved(leaders: Leaders, v: View, local: nat)
    requires Lineages(leaders) && Faithful(leaders, v.timeline)
    ensures Evaluate(v, local).discontinuity <= Horizon(PublishedAs(leaders, v.timeline))
    ensures v.timeline.format == PublishedAs(leaders, v.timeline).format
  {
    var t, p := v.timeline, PublishedAs(leaders, v.timeline);
    PublishedValid(leaders, t);
    LatchedSound(p, t.discontinuity);
    EffectiveIsUsed(t, EvaluationTime(v, local));
    var id := EffectiveAt(t, EvaluationTime(v, local)).discontinuity;
    assert Evaluate(v, local).discontinuity == id;
    hide Evaluate, Latched, EffectiveAt, ValidTimeline, Lineages, Faithful;
    assert id in Ids(p) by {
      if id == t.discontinuity {
        assert Active(t) == Active(p) || Active(t) in p.scheduled;
      }
    }
    IdsNumbered(p, id);
  }

  /** A snapshot of the held session with a higher revision is never discarded: hearing it leaves
      the follower holding that revision. */
  lemma NeverDiscarded(s: FollowerState, t: Timeline, now: nat, leaders: Leaders)
    requires ValidFollower(s) && Lineages(leaders) && Sent(leaders, t) && Wanted(s, t)
    requires s.view.timeline.session == t.session && Faithful(leaders, s.view.timeline)
    requires t.revision > s.view.timeline.revision
    ensures Receive(s, t, now).state.view.timeline == CaughtUp(s, t, now)
    ensures Receive(s, t, now).state.view.timeline.revision == t.revision
    ensures Receive(s, t, now).state.view.timeline.session == t.session
    ensures Receive(s, t, now).correction.Some?
  {
    hide Evaluate, Latched, Lineages, Faithful, Numbered, RollsBack, CaughtUp, ValidFollower, Receive, ValidTimeline;
    SentValid(leaders, t);
    NotRolledBack(s, t, now, leaders);
    HeldAfterHearing(s, t, now);
    CaughtUpIdentity(s, t, now);
  }

  lemma CaughtUpIdentity(s: FollowerState, t: Timeline, now: nat)
    requires ValidTimeline(t)
    ensures CaughtUp(s, t, now).session == t.session && CaughtUp(s, t, now).revision == t.revision
  {
    hide Evaluate, Latched, ValidTimeline;
    LatchedSound(t, MaxI(s.view.timeline.discontinuity, Evaluate(s.view, now).discontinuity));
  }

  lemma NotRolledBack(s: FollowerState, t: Timeline, now: nat, leaders: Leaders)
    requires ValidFollower(s) && Lineages(leaders) && Sent(leaders, t)
    requires s.view.timeline.session == t.session && Faithful(leaders, s.view.timeline)
    requires t.revision > s.view.timeline.revision
    ensures !RollsBack(s, t, now)
  {
    hide Evaluate, ValidEstimator, Latched, Faithful, RollsBack, Numbered, ValidTimeline;
    SentValid(leaders, t);
    FaithfulHere(leaders, t);
    ShowsReserved(leaders, s.view, now);
    PublishedExtends(leaders, s.view.timeline, t);
    DiscardedIff(s, t, now);
  }

  lemma PublishedExtends(leaders: Leaders, t: Timeline, u: Timeline)
    requires Lineages(leaders) && Faithful(leaders, t) && Faithful(leaders, u)
    requires u.session == t.session && t.revision <= u.revision
    ensures Extends(PublishedAs(leaders, t), PublishedAs(leaders, u))
  {
    hide Extends, Publishable, Latched;
  }

  lemma FaithfulHere(leaders: Leaders, t: Timeline)
    requires Lineages(leaders) && Sent(leaders, t)
    ensures PublishedAs(leaders, t) == t && Numbered(t)
  {
    var published := leaders[t.session];
    var i :| 0 <= i < |published| && published[i] == t;
    assert Publishable(published[i], i + 1);
  }

  /** After any run, a wanted snapshot from a leader leaves the follower at the newer of the
      two revisions, or in the leader's session if it was in another. */
  lemma HonestUpdateTaken(
      fallback: Timeline, policy: CorrectionPolicy, leaders: Leaders, steps: seq<Step>, t: Timeline, now: nat)
    requires ValidTimeline(fallback) && ValidPolicy(policy) && fallback.session !in leaders
    requires Lineages(leaders) && Delivers(leaders, steps) && Sent(leaders, t)
    requires Wanted(After(Initial(fallback, policy), steps), t)
    ensures var held := After(Initial(fallback, policy), steps).view.timeline;
            var u := After(Initial(fallback, policy), steps + [Heard(t, now)]).view.timeline;
            && u.session == t.session && Faithful(leaders, u)
            && u.revision == (if held.session == t.session then MaxI(held.revision, t.revision) else t.revision)
  {
    var s0 := Initial(fallback, policy);
    var s := After(s0, steps);
    InitialValid(fallback, policy);
    DeliversValid(leaders, steps);
    RunStaysValid(s0, steps);
    HoldsWhatWasPublished(fallback, policy, leaders, steps, 0);
    assert (steps + [Heard(t, now)])[..|steps|] == steps;
    assert After(s0, steps + [Heard(t, now)]) == Receive(s, t, now).state;
    hide After, Lineages, Faithful, ValidFollower, Receive, Delivers, Initial;
    TakesNewer(s, t, now, leaders);
  }

  lemma TakesNewer(s: FollowerState, t: Timeline, now: nat, leaders: Leaders)
    requires ValidFollower(s) && Lineages(leaders) && Sent(leaders, t) && Wanted(s, t)
    requires s.view.timeline.session in leaders ==> Faithful(leaders, s.view.timeline)
    ensures var held, u := s.view.timeline, Receive(s, t, now).state.view.timeline;
            && u.session == t.session && Faithful(leaders, u)
            && u.revision == (if held.session == t.session then MaxI(held.revision, t.revision) else t.revision)
  {
    var u := Receive(s, t, now).state.view.timeline;
    assert Apply(s, Heard(t, now)).state.view.timeline == u;
    assert t.session in leaders;
    hide Lineages, Faithful, ValidFollower, Receive, CaughtUp, RollsBack, Evaluate, Apply, Latched, Sent, Wanted,
      Ordered;
    StepFaithful(s, Heard(t, now), leaders);
    HeldAfterHearing(s, t, now);
    if s.view.timeline.session == t.session && t.revision > s.view.timeline.revision {
      NeverDiscarded(s, t, now, leaders);
    }
  }

  // ---------------------------------------------------------------- end to end

  /** One leader's life: where it starts, its clock then, and its passes. */
  datatype LeaderRun = LeaderRun(start: LeaderState, clock: nat, passes: seq<Pass>)

  ghost predicate Proper(run: LeaderRun) {
    && Leading(run.start, run.clock) && run.start.timeline.revision == 1
    && InTime(run.passes, run.clock) && AllOrderly(run.start, run.passes)
  }

  ghost predicate ProperRuns(runs: map<Id16, LeaderRun>) {
    forall id <- runs :: Proper(runs[id]) && runs[id].start.timeline.session == id
  }

  function Sending(runs: map<Id16, LeaderRun>): Leaders {
    map id | id in runs :: Published(runs[id].start, runs[id].passes)
  }

  lemma {:induction false} FirstPublished(st: LeaderState, passes: seq<Pass>)
    ensures Published(st, passes) != [] && Published(st, passes)[0] == st.timeline
  {
    if passes != [] {
      FirstPublished(st, passes[..|passes| - 1]);
      hide Progress;
    }
  }

  lemma RunsAreLineages(runs: map<Id16, LeaderRun>)
    requires ProperRuns(runs)
    ensures Lineages(Sending(runs))
  {
    var leaders: Leaders := Sending(runs);
    forall id | id in leaders ensures Lineage(leaders[id]) && forall t <- leaders[id] :: t.session == id {
      var run := runs[id];
      assert Proper(run) && run.start.timeline.session == id;
      RunLineage(run.start, run.passes, run.clock);
      FirstPublished(run.start, run.passes);
      hide Published, Publishable, Proper;
      forall t | t in leaders[id] ensures t.session == id {
        var i :| 0 <= i < |leaders[id]| && leaders[id][i] == t;
        assert Extends(leaders[id][0], leaders[id][i]);
      }
    }
  }

  /** Any leaders, each driven by any orderly inputs, and one follower hearing any of their
      snapshots in any order, with losses and repeats: it always holds a snapshot as published,
      advanced by latching only, and takes every wanted snapshot that is newer. */
  lemma EndToEnd(
      runs: map<Id16, LeaderRun>, fallback: Timeline, policy: CorrectionPolicy, steps: seq<Step>, t: Timeline, now: nat)
    requires ProperRuns(runs) && ValidTimeline(fallback) && ValidPolicy(policy) && fallback.session !in runs
    requires Delivers(Sending(runs), steps) && Sent(Sending(runs), t)
    ensures var held := After(Initial(fallback, policy), steps).view.timeline;
            held.session in runs ==> Faithful(Sending(runs), held)
    ensures Wanted(After(Initial(fallback, policy), steps), t) ==>
              var held := After(Initial(fallback, policy), steps).view.timeline;
              var u := After(Initial(fallback, policy), steps + [Heard(t, now)]).view.timeline;
              && u.session == t.session && Faithful(Sending(runs), u)
              && u.revision == (if held.session == t.session then MaxI(held.revision, t.revision) else t.revision)
  {
    RunsAreLineages(runs);
    hide After, Lineages, Faithful, ProperRuns, Wanted, Sent, Delivers;
    HoldsWhatWasPublished(fallback, policy, Sending(runs), steps, 0);
    if Wanted(After(Initial(fallback, policy), steps), t) {
      HonestUpdateTaken(fallback, policy, Sending(runs), steps, t, now);
    }
  }
}
