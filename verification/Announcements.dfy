/** Followers compare discontinuities only; that this is enough, and when. */
module Announcements {
  import opened Arithmetic
  import opened Timecode
  import opened Timelines
  import opened Leader
  import opened Naming
  import opened Follower
  import opened FollowerRuns
  import opened FollowerHistory
  import opened Distributed

  /** Leaders whose published timelines agree on what a discontinuity names. */
  ghost predicate NamingLeaders(leaders: Leaders, most: nat) {
    Lineages(leaders) && forall id <- leaders :: AllName(leaders[id], most)
  }

  lemma {:induction false} LatchedEntries(t: Timeline, d: nat, s: Scheduled)
    requires s in Latched(t, d).scheduled || s == Active(Latched(t, d))
    ensures s in t.scheduled || s == Active(t)
    decreases |t.scheduled|
  {
    if t.scheduled != [] && t.scheduled[0].discontinuity <= d {
      assert t.scheduled == [t.scheduled[0]] + t.scheduled[1..];
      LatchedEntries(Promoted(t), d, s);
    }
  }

  lemma EntryUnder(t: Timeline, s: Scheduled)
    requires Numbered(t) && (s in t.scheduled || s == Active(t))
    ensures t.discontinuity <= s.discontinuity <= Horizon(t) && Under(t, s.discontinuity) == s.anchor
  {
    if s != Active(t) {
      var k :| 0 <= k < |t.scheduled| && t.scheduled[k] == s;
      assert NumberedEntry(t, k);
    }
  }

  /** What a latched timeline shows is what the original gives under the same discontinuity. */
  lemma ShownUnder(p: Timeline, d: nat, time: nat)
    requires ValidTimeline(p) && Numbered(p)
    ensures var e := EffectiveAt(Latched(p, d), time);
            && p.discontinuity <= e.discontinuity <= Horizon(p) && Under(p, e.discontinuity) == e.anchor
  {
    LatchedSound(p, d);
    var h := Latched(p, d);
    EffectiveSound(Active(h), h.scheduled, time);
    hide Latched, EffectiveAt, Effective, Numbered, ValidTimeline, Ordered;
    var e := EffectiveAt(h, time);
    assert e in h.scheduled || e == Active(h) by {
      EffectiveIsEntry(h, time);
    }
    LatchedEntries(p, d, e);
    EntryUnder(p, e);
  }

  lemma EffectiveIsEntry(t: Timeline, time: nat)
    requires ValidTimeline(t)
    ensures EffectiveAt(t, time) in t.scheduled || EffectiveAt(t, time) == Active(t)
  {
    EffectiveSound(Active(t), t.scheduled, time);
  }

  /** The entry in effect in the output. */
  function Shown(v: View, local: nat): Scheduled {
    EffectiveAt(v.timeline, EvaluationTime(v, local))
  }

  predicate SaysJump(c: Option<Correction>) {
    c.Some? && (c.value.NewSession? || c.value.Discontinuity?)
  }

  /** An accepted snapshot that puts another trajectory in effect is announced as a new session or
      a discontinuity; one that is not continues the trajectory that was in effect. */
  lemma JumpAnnounced(s: FollowerState, t: Timeline, now: nat, leaders: Leaders, most: nat)
    requires ValidFollower(s) && NamingLeaders(leaders, most) && Sent(leaders, t)
    requires s.view.timeline.session in leaders ==> Faithful(leaders, s.view.timeline)
    requires Receive(s, t, now).correction.Some? && !SaysJump(Receive(s, t, now).correction)
    ensures var v := Receive(s, t, now).state.view;
            && ActiveAt(v, now) == Evaluate(s.view, now).discontinuity
            && SameTrajectory(t.sourceKind, t.format, Shown(s.view, now).anchor,
                              EffectiveAt(v.timeline, v.mapping.LeaderTime(now)).anchor, most)
  {
    var held := s.view.timeline;
    var p, d := PublishedAs(leaders, held), MaxI(held.discontinuity, Evaluate(s.view, now).discontinuity);
    UnannouncedKeepsEntry(s, t, now);
    FaithfulHere(leaders, t);
    SentValid(leaders, t);
    PublishedValid(leaders, held);
    hide Receive, Faithful, Lineages, Evaluate, Latched, EffectiveAt, Numbered, ValidTimeline, Ordered, Names, Under,
      SameTrajectory, ValidFollower, Sent, Publishable;
    ShownUnder(p, held.discontinuity, EvaluationTime(s.view, now));
    ShownUnder(t, d, s.view.mapping.LeaderTime(now));
    assert Names(p, t, most);
    NamedAlike(p, t, Shown(s.view, now).discontinuity, most);
  }

  lemma NamedAlike(a: Timeline, b: Timeline, id: nat, most: nat)
    requires Names(a, b, most) && b.discontinuity <= id <= Horizon(a)
    ensures id <= Horizon(b) && a.discontinuity <= id
    ensures SameTrajectory(b.sourceKind, b.format, Under(a, id), Under(b, id), most)
  {
    assert NamesOne(a, b, id, most);
    hide SameTrajectory;
  }

  /** Without an announcement the entry in effect keeps its discontinuity. */
  lemma UnannouncedKeepsEntry(s: FollowerState, t: Timeline, now: nat)
    requires Receive(s, t, now).correction.Some? && !SaysJump(Receive(s, t, now).correction)
    ensures var v := Receive(s, t, now).state.view;
            && s.view.timeline.session == t.session && t.revision > s.view.timeline.revision
            && v.timeline == CaughtUp(s, t, now) && v.mapping == s.view.mapping
            && ActiveAt(v, now) == Evaluate(s.view, now).discontinuity == Shown(s.view, now).discontinuity
  {
    ShownInReading(s.view, now);
    hide Evaluate, PhaseError, Latched, EffectiveAt, RollsBack, Correct, CaughtUp, Shown;
    var s1 := s.(expectedSession := Some(t.session));
    SameChecks(s, t, now);
    CorrectKeepsView(s1.(view := s.view.(timeline := CaughtUp(s1, t, now))), Evaluate(s.view, now).position, now);
  }

  lemma ShownInReading(v: View, local: nat)
    ensures Evaluate(v, local).discontinuity == Shown(v, local).discontinuity
  {
    hide OutputFixed, Remaining, EffectiveAt, FromFixed;
  }

  lemma CorrectKeepsView(s: FollowerState, before: Pos, now: nat)
    ensures var v := Correct(s, before, now, false).state.view;
            v.timeline == s.view.timeline && v.mapping == s.view.mapping
  {
    hide PhaseError, ActiveAt;
  }

  // ---------------------------------------------------------------- end to end

  /** As `Proper`, with no sample that jumps over a pending control and at most so many samples. */
  ghost predicate NamingRuns(runs: map<Id16, LeaderRun>, most: nat) {
    forall id <- runs :: NamingRun(runs[id], most) && runs[id].start.timeline.session == id
  }

  ghost predicate NamingRun(run: LeaderRun, most: nat) {
    && Leading(run.start, run.clock) && run.start.timeline.revision == 1
    && InTime(run.passes, run.clock) && AllExclusive(run.start, run.passes) && FedOver(run.passes) <= most
  }

  lemma RunsName(runs: map<Id16, LeaderRun>, most: nat)
    requires NamingRuns(runs, most)
    ensures ProperRuns(runs) && NamingLeaders(Sending(runs), most)
  {
    hide Leading, InTime, AllExclusive, AllOrderly, Published, AllName, Lineages;
    forall id | id in runs ensures Proper(runs[id]) && AllName(Sending(runs)[id], most) {
      var run := runs[id];
      assert NamingRun(run, most);
      RunNames(run.start, run.passes, run.clock);
      NameWithMore(Published(run.start, run.passes), FedOver(run.passes), most);
    }
    RunsAreLineages(runs);
  }

  lemma NameWithMore(published: seq<Timeline>, m: nat, n: nat)
    requires AllName(published, m) && m <= n
    ensures AllName(published, n)
  {
    hide Names;
    forall i, j | 0 <= i <= j < |published| ensures Names(published[i], published[j], n) {
      NamesWithMore(published[i], published[j], m, n);
    }
  }

  /** Over any run of any such leaders and any delivery of what they publish: every accepted
      snapshot that puts another trajectory in effect at that instant is announced. */
  lemma EveryJumpAnnounced(
      runs: map<Id16, LeaderRun>, most: nat, fallback: Timeline, policy: CorrectionPolicy, steps: seq<Step>,
      t: Timeline, now: nat)
    requires NamingRuns(runs, most) && ValidTimeline(fallback) && ValidPolicy(policy) && fallback.session !in runs
    requires Delivers(Sending(runs), steps) && Sent(Sending(runs), t)
    ensures var s := After(Initial(fallback, policy), steps);
            var r := Receive(s, t, now);
            r.correction.Some? ==>
              || SaysJump(r.correction)
              || SameTrajectory(t.sourceKind, t.format, Shown(s.view, now).anchor,
                                EffectiveAt(r.state.view.timeline, r.state.view.mapping.LeaderTime(now)).anchor, most)
  {
    RunsName(runs, most);
    InitialValid(fallback, policy);
    hide After, Lineages, Faithful, NamingRuns, ProperRuns, Sent, Delivers, Receive, SameTrajectory, ValidFollower,
      EffectiveAt, Initial, AllName;
    DeliversValid(Sending(runs), steps);
    RunStaysValid(Initial(fallback, policy), steps);
    HoldsWhatWasPublished(fallback, policy, Sending(runs), steps, 0);
    var s := After(Initial(fallback, policy), steps);
    if Receive(s, t, now).correction.Some? && !SaysJump(Receive(s, t, now).correction) {
      JumpAnnounced(s, t, now, Sending(runs), most);
    }
  }
}
