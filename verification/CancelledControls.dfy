/** What becomes of a follower when a discontinuous sample cancels pending controls. */
module CancelledControls {
  import opened Arithmetic
  import opened Timecode
  import opened Timelines
  import opened Tracking
  import opened Leader
  import opened Naming
  import opened Clock
  import opened ClockRuns
  import opened Follower
  import opened FollowerRuns
  import opened FollowerHistory
  import opened Distributed

  // ---------------------------------------------------------------- three ways to take it

  /** The snapshot of a leader in which a discontinuous sample has just cancelled pending controls. */
  function Jumped(st: LeaderState, r: Request, revision: nat): Timeline {
    Handle(st, r).state.timeline.(revision := revision)
  }

  /** Such a snapshot comes as a newer one of the session and format a follower holds. */
  predicate Meets(st: LeaderState, r: Request, s: FollowerState, revision: nat) {
    && Numbered(st.timeline) && st.timeline.anchor.timeNs <= r.now <= I64_MAX && TakesReserved(st, r)
    && s.view.timeline.format == st.timeline.format && Wanted(s, st.timeline)
    && s.view.timeline.session == st.timeline.session && revision > s.view.timeline.revision
  }

  /** A follower that shows the second reserved number, or a later one, discards the snapshot, at
      any time. */
  lemma JumpOverControlsDiscarded(st: LeaderState, r: Request, s: FollowerState, revision: nat, now: nat)
    requires ValidFollower(s) && Meets(st, r, s, revision)
    requires Evaluate(s.view, now).discontinuity > st.timeline.discontinuity + 1
    ensures RollsBack(s, Jumped(st, r, revision), now)
    ensures var h := Receive(s, Jumped(st, r, revision), now);
            h.state.view == s.view && h.correction == None
  {
    JumpTaken(st, r);
    hide Evaluate, Handle, Numbered, ValidTimeline, ValidEstimator, TakesReserved, Correct, ActiveAt;
    LatchedBare(Jumped(st, r, revision));
    SameChecks(s, Jumped(st, r, revision), now);
  }

  /** A follower that shows the first reserved number, however many are pending, takes the snapshot
      without an announcement: the output stays where it was and slews, although the leader has
      jumped elsewhere under that number. */
  lemma JumpOverControlUnannounced(st: LeaderState, r: Request, s: FollowerState, revision: nat, now: nat)
    requires ValidFollower(s) && Meets(st, r, s, revision)
    requires Evaluate(s.view, now).discontinuity == st.timeline.discontinuity + 1
    ensures var t := Jumped(st, r, revision);
            var heard := Receive(s, t, now);
            && t.anchor.position == r.command.sample.position && t.scheduled == []
            && t.discontinuity == st.timeline.scheduled[0].discontinuity
            && heard.state.view.timeline == t
            && heard.correction.Some? && heard.correction.value.Slew?
            && Evaluate(heard.state.view, now).position == Evaluate(s.view, now).position
  {
    var t := Jumped(st, r, revision);
    assert NumberedEntry(st.timeline, 0);
    JumpTaken(st, r);
    hide Evaluate, Handle, Numbered, ValidTimeline, ValidEstimator, PhaseError, TakesReserved;
    SameEntryTaken(s, t, now);
    ReceiveContinuous(s, t, now);
  }

  /** A follower that shows no reserved number yet announces the discontinuity. */
  lemma JumpOverControlsAnnounced(st: LeaderState, r: Request, s: FollowerState, revision: nat, now: nat)
    requires ValidFollower(s) && Meets(st, r, s, revision)
    requires Evaluate(s.view, now).discontinuity <= st.timeline.discontinuity
    ensures var t := Jumped(st, r, revision);
            var heard := Receive(s, t, now);
            heard.state.view.timeline == t && heard.correction == Some(Discontinuity(t.discontinuity))
  {
    var t := Jumped(st, r, revision);
    JumpTaken(st, r);
    ReadingNotBelowLatched(s.view, now);
    hide Evaluate, Handle, Numbered, ValidTimeline, ValidEstimator, TakesReserved, Correct;
    LatchedBare(t);
    NothingScheduled(t, s.view.mapping.LeaderTime(now));
  }

  /** So the jump is announced exactly to followers that show none of the reserved numbers. */
  lemma JumpAnnouncedIff(st: LeaderState, r: Request, s: FollowerState, revision: nat, now: nat)
    requires ValidFollower(s) && Meets(st, r, s, revision)
    ensures var c := Receive(s, Jumped(st, r, revision), now).correction;
            c.Some? && c.value.Discontinuity? <==> Evaluate(s.view, now).discontinuity <= st.timeline.discontinuity
  {
    hide Evaluate, Receive, Jumped, Meets, ValidFollower, RollsBack;
    var shown := Evaluate(s.view, now).discontinuity;
    if shown <= st.timeline.discontinuity {
      JumpOverControlsAnnounced(st, r, s, revision, now);
    } else if shown == st.timeline.discontinuity + 1 {
      JumpOverControlUnannounced(st, r, s, revision, now);
    } else {
      JumpOverControlsDiscarded(st, r, s, revision, now);
    }
  }

  lemma LatchedBare(t: Timeline)
    requires t.scheduled == []
    ensures forall d: nat :: Latched(t, d) == t
  {
  }

  lemma JumpTaken(st: LeaderState, r: Request)
    requires TakesReserved(st, r)
    ensures var u := Handle(st, r).state.timeline;
            && u.anchor.position == r.command.sample.position && u.scheduled == []
            && u.discontinuity == st.timeline.discontinuity + 1
            && u.session == st.timeline.session && u.format == st.timeline.format
  {
    hide ChooseRate, SourceError, Nudged, Speculated, JumpCount;
  }

  /** A snapshot without schedule under the discontinuity on show is taken with a slew. */
  lemma SameEntryTaken(s: FollowerState, t: Timeline, now: nat)
    requires ValidFollower(s) && Wanted(s, t) && s.view.timeline.session == t.session
    requires t.revision > s.view.timeline.revision && t.format == s.view.timeline.format && t.scheduled == []
    requires t.discontinuity == Evaluate(s.view, now).discontinuity
    ensures var heard := Receive(s, t, now);
            heard.state.view.timeline == t && heard.correction.Some? && heard.correction.value.Slew?
  {
    var s1 := s.(expectedSession := Some(t.session));
    assert CaughtUp(s1, t, now) == t;
    assert ActiveAt(s1.view.(timeline := t), now) == t.discontinuity;
    hide Evaluate, PhaseError, ActiveAt, Latched, ValidTimeline, ValidEstimator;
  }

  // ---------------------------------------------------------------- concrete runs

  const NAME: Id16 := [7, 0, 0, 0, 0, 0, 0, 0, 0, 0, 0, 0, 0, 0, 0, 0]

  function JumpAt(time: nat, frames: nat): Request
    requires frames <= 1000
  {
    Request(Feed(SourceSample(time, Position(frames, 0), None, true)), time)
  }

  function SeekAt(time: nat, frames: nat, now: nat): Request
    requires frames <= 1000
  {
    Request(Alter(Seek(Position(frames, 0)), Some(time)), now)
  }

  lemma JumpStep(st: LeaderState, time: nat, frames: nat)
    requires frames <= 1000 && st.timeline.sourceKind == Tracked
    requires st.tracker.last.Some? ==> st.tracker.last.value.timestampNs < time
    ensures var h := Handle(st, JumpAt(time, frames));
            var u := h.state.timeline;
            && h.publish && u.anchor.timeNs == time && u.anchor.position == Position(frames, 0)
            && u == st.timeline.(anchor := u.anchor, sourceHealth := Healthy,
                                 discontinuity := st.timeline.discontinuity + 1, scheduled := [])
            && h.state.tracker.last.Some? && h.state.tracker.last.value.timestampNs == time
  {
    hide ChooseRate, SourceError, Nudged, Speculated;
  }

  lemma SeekStep(st: LeaderState, time: nat, frames: nat, now: nat)
    requires frames <= 1000 && now < time <= I64_MAX && Numbered(st.timeline) && |st.timeline.scheduled| < 4
    requires st.timeline.scheduled != [] ==> st.timeline.scheduled[|st.timeline.scheduled| - 1].anchor.timeNs < time
    requires st.timeline.anchor.timeNs <= now
    ensures var h := Handle(st, SeekAt(time, frames, now));
            var t, u := st.timeline, h.state.timeline;
            && h.publish && h.state.tracker == st.tracker && Numbered(u)
            && |u.scheduled| == |t.scheduled| + 1
            && u == t.(scheduled := t.scheduled + [u.scheduled[|t.scheduled|]])
            && u.scheduled[|t.scheduled|].discontinuity == Horizon(t) + 1
            && u.scheduled[|t.scheduled|].anchor.timeNs == time
            && u.scheduled[|t.scheduled|].anchor.position == Position(frames, 0)
  {
    ControlNumber(st.timeline, time);
    ControlSound(st.timeline, Seek(Position(frames, 0)), Some(time), now);
    hide Effective, AnchorAt, Numbered;
  }

  /** A pass whose commands want publication, with nothing due and a recent sample. */
  lemma QuietPass(st: LeaderState, p: Pass)
    requires var h := Drained(st, p.requests);
             && h.publish && h.state.timeline.sourceKind == Tracked && h.state.timeline.sourceHealth == Healthy
             && h.state.tracker.last.Some?
             && h.state.tracker.last.value.timestampNs <= p.now <= h.state.tracker.last.value.timestampNs + p.timeoutNs
             && (h.state.timeline.scheduled != [] ==> h.state.timeline.scheduled[0].anchor.timeNs > p.now)
    ensures Progress(st, p).publish
    ensures var t := Drained(st, p.requests).state.timeline;
            Progress(st, p).state.timeline == t.(revision := t.revision + 1)
    ensures Progress(st, p).state.tracker == Drained(st, p.requests).state.tracker
  {
    hide ToWire;
  }

  const FORMAT: Format := FrameFormat(30, 1, false)
  const LEADER := Started(NAME, NAME, FORMAT, Tracked, Position(0, 0), NORMAL, 0)

  /** A first sample and two controls, or only one. */
  const TWO_CONTROLS := Pass([JumpAt(10, 0), SeekAt(100, 5, 11), SeekAt(200, 9, 12)], 13, 1000, false, false)
  const ONE_CONTROL := Pass([JumpAt(10, 0), SeekAt(100, 5, 11), Request(Unrelated, 12)], 13, 1000, false, false)

  /** A discontinuous sample leads the next pass. */
  function JumpPass(time: nat): Pass {
    Pass([JumpAt(time, 50)], time + 1, 1000, false, false)
  }

  lemma RunInTime(first: Pass, time: nat)
    requires first in {TWO_CONTROLS, ONE_CONTROL} && 13 <= time <= 900
    ensures InTime([first, JumpPass(time)], 0)
  {
    var r := first.requests;
    assert r[..2][..1] == r[..1] && r[..1][..0] == [] && JumpPass(time).requests[..0] == [];
    assert Timed(r[..1], 0, 11);
    assert Timed(r[..2], 0, 12);
    assert Timed(r, 0, 13);
    assert [first, JumpPass(time)][..1] == [first] && [first][..0] == [];
    assert InTime([], 0);
    assert InTime([first], 0);
  }

  lemma BareNumbered(t: Timeline)
    requires t.scheduled == []
    ensures Numbered(t)
  {
  }

  lemma UnrelatedStep(st: LeaderState, now: nat)
    ensures Handle(st, Request(Unrelated, now)) == Handled(st, false)
  {
  }

  lemma FirstPass(st: LeaderState, first: Pass)
    requires st == LEADER && first in {TWO_CONTROLS, ONE_CONTROL}
    ensures var h := Progress(st, first);
            var t := h.state.timeline;
            && h.publish && t.sourceKind == Tracked && t.discontinuity == 1
            && t.session == NAME && t.format == FORMAT && t.revision == 2
            && |t.scheduled| == (if first == TWO_CONTROLS then 2 else 1)
            && t.scheduled[0].discontinuity == 2
            && t.scheduled[0].anchor.timeNs == 100 && t.scheduled[0].anchor.position == Position(5, 0)
            && (first == TWO_CONTROLS ==> t.scheduled[1].discontinuity == 3 && t.scheduled[1].anchor.timeNs == 200)
            && h.state.tracker.last.Some? && h.state.tracker.last.value.timestampNs == 10
  {
    hide Handle, Progress, Drained, Numbered;
    var last := first.requests[2];
    var a := Handle(st, JumpAt(10, 0)).state;
    BareNumbered(st.timeline);
    JumpStep(st, 10, 0);
    BareNumbered(a.timeline);
    SeekStep(a, 100, 5, 11);
    var b := Handle(a, SeekAt(100, 5, 11)).state;
    if first == TWO_CONTROLS {
      SeekStep(b, 200, 9, 12);
    } else {
      UnrelatedStep(b, 12);
    }
    DrainThree(st, JumpAt(10, 0), SeekAt(100, 5, 11), last);
    assert first.requests == [JumpAt(10, 0), SeekAt(100, 5, 11), last];
    QuietPass(st, first);
  }

  lemma SecondPass(st: LeaderState, time: nat)
    requires st.timeline.sourceKind == Tracked && st.timeline.discontinuity == 1 && 13 <= time <= 900
    requires st.tracker.last.Some? && st.tracker.last.value.timestampNs == 10
    ensures var h := Progress(st, JumpPass(time));
            var t := h.state.timeline;
            && h.publish && t.discontinuity == 2 && t.scheduled == []
            && t.anchor.timeNs == time && t.anchor.position == Position(50, 0)
            && t.session == st.timeline.session && t.format == st.timeline.format
            && t.revision == st.timeline.revision + 1
  {
    JumpStep(st, time, 50);
    DrainOne(st, JumpAt(time, 50));
    hide Handle, Progress, Drained;
    assert JumpPass(time).requests == [JumpAt(time, 50)];
    QuietPass(st, JumpPass(time));
  }

  /** The published timelines of the two-pass run, all sound. */
  lemma RunPublishes(first: Pass, time: nat)
    requires first in {TWO_CONTROLS, ONE_CONTROL} && 13 <= time <= 900
    ensures var published := Published(LEADER, [first, JumpPass(time)]);
            var a := Progress(LEADER, first).state;
            && published == [LEADER.timeline, a.timeline, Progress(a, JumpPass(time)).state.timeline]
            && (forall i :: 0 <= i < 3 ==> Publishable(published[i], i + 1))
  {
    var st := LEADER;
    StartedLeading(NAME, NAME, FORMAT, Tracked, Position(0, 0), NORMAL, 0);
    RunInTime(first, time);
    hide Progress, Published, InTime, ToWire, Publishable, Numbered, Leading;
    FirstPass(st, first);
    SecondPass(Progress(st, first).state, time);
    TwoPasses(st, first, JumpPass(time));
    EveryPublishSound(st, [first, JumpPass(time)], 0);
  }

  /** A follower that has just heard its first snapshot runs on the leader's time until it has
      measured its clock, and shows what is in effect then. */
  lemma FirstHeard(fallback: Timeline, policy: CorrectionPolicy, p: Timeline, first: nat, now: nat)
    requires ValidTimeline(fallback) && ValidPolicy(policy) && ValidTimeline(p) && fallback.session != p.session
    requires now <= I64_MAX
    ensures var s := After(Initial(fallback, policy), [Step.Connecting, Heard(p, first)]);
            && ValidFollower(s) && s.view.timeline == p && s.expectedSession == Some(p.session)
            && Evaluate(s.view, now).discontinuity == EffectiveAt(p, now).discontinuity
  {
    var s0, steps := Initial(fallback, policy), [Step.Connecting, Heard(p, first)];
    InitialValid(fallback, policy);
    RunStaysValid(s0, steps);
    assert steps[..1] == [Step.Connecting] && [Step.Connecting][..0] == [];
    var s := After(s0, steps);
    assert After(s0, [Step.Connecting]) == Connect(s0);
    assert s == Receive(Connect(s0), p, first).state;
    hide After, EffectiveAt, OutputFixed, Remaining, ValidTimeline;
    assert s.view.mapping == NO_MAPPING && s.view.sync == Acquiring;
    assert NO_MAPPING.LeaderTime(now) == now;
  }

  lemma ThirdHeard(s0: FollowerState, p: Timeline, first: nat, t: Timeline, now: nat)
    ensures var s := After(s0, [Step.Connecting, Heard(p, first)]);
            After(s0, [Step.Connecting, Heard(p, first), Heard(t, now)]) == Receive(s, t, now).state
  {
    assert [Step.Connecting, Heard(p, first), Heard(t, now)][..2] == [Step.Connecting, Heard(p, first)];
  }

  /** A complete run of leader and follower with perfect clocks: two controls are scheduled, both
      come due before the leader's next pass, and a discontinuous sample leads that pass. The
      follower has applied both; it discards the leader's newer snapshot and keeps the old one. */
  lemma JumpOverControlsHappens(fallback: Timeline, policy: CorrectionPolicy)
    requires ValidTimeline(fallback) && ValidPolicy(policy) && fallback.session != NAME
    ensures var passes := [TWO_CONTROLS, JumpPass(205)];
            var published := Published(LEADER, passes);
            && InTime(passes, 0) && |published| == 3 && published[2].revision == 3 && !Lineage(published)
            && var steps := [Step.Connecting, Heard(published[1], 60), Heard(published[2], 207)];
               After(Initial(fallback, policy), steps).view.timeline == published[1]
  {
    hide Progress, Published, InTime, Publishable, Numbered, ValidFollower, ValidTimeline, ValidPolicy, Evaluate,
      EffectiveAt, RollsBack, Receive, After, Initial;
    RunInTime(TWO_CONTROLS, 205);
    RunPublishes(TWO_CONTROLS, 205);
    FirstPass(LEADER, TWO_CONTROLS);
    SecondPass(Progress(LEADER, TWO_CONTROLS).state, 205);
    var published := Published(LEADER, [TWO_CONTROLS, JumpPass(205)]);
    var p, t := published[1], published[2];
    assert Publishable(p, 2) && Publishable(t, 3);
    PublishableValid(p, 2);
    PublishableValid(t, 3);
    LastInEffect(p, 207);
    FirstHeard(fallback, policy, p, 60, 207);
    ThirdHeard(Initial(fallback, policy), p, 60, t, 207);
    FollowerDiscards(After(Initial(fallback, policy), [Step.Connecting, Heard(p, 60)]), t, 207);
    assert !Extends(p, t);
  }

  lemma PublishableValid(t: Timeline, revision: nat)
    requires Publishable(t, revision)
    ensures ValidTimeline(t) && Numbered(t)
  {
  }

  /** The last of the two controls, once its time has come. */
  lemma LastInEffect(p: Timeline, now: nat)
    requires |p.scheduled| == 2 && p.scheduled[1].anchor.timeNs <= now
    ensures EffectiveAt(p, now) == p.scheduled[1]
  {
    EffectiveAppend(Active(p), p.scheduled[..1], p.scheduled[1], now);
    assert p.scheduled == p.scheduled[..1] + [p.scheduled[1]];
  }

  lemma FollowerDiscards(s: FollowerState, t: Timeline, now: nat)
    requires ValidFollower(s) && ValidTimeline(t) && Numbered(t) && t.format == s.view.timeline.format
    requires s.view.timeline.session == t.session && Evaluate(s.view, now).discontinuity > Horizon(t)
    ensures Receive(s, t, now).state.view.timeline == s.view.timeline
  {
    DiscardedIff(s, t, now);
    SameChecks(s, t, now);
    hide Evaluate, RollsBack, ValidTimeline, Numbered, Receive;
    HeldAfterHearing(s, t, now);
  }

  /** A complete run with one control: the follower shows it from 100 on, the leader jumps to frame
      50 at 105 under the same number, and the follower takes that snapshot with a mere slew. */
  lemma JumpOverControlHappens(fallback: Timeline, policy: CorrectionPolicy)
    requires ValidTimeline(fallback) && ValidPolicy(policy) && fallback.session != NAME
    ensures var passes := [ONE_CONTROL, JumpPass(105)];
            var published := Published(LEADER, passes);
            && InTime(passes, 0) && |published| == 3
            && EffectiveAt(published[1], 107).discontinuity == EffectiveAt(published[2], 107).discontinuity == 2
            && EffectiveAt(published[1], 107).anchor.position == Position(5, 0)
            && EffectiveAt(published[2], 107).anchor.position == Position(50, 0)
            && var s := After(Initial(fallback, policy), [Step.Connecting, Heard(published[1], 60)]);
               var heard := Receive(s, published[2], 107);
               heard.state.view.timeline == published[2] && heard.correction.Some? && heard.correction.value.Slew?
  {
    hide Progress, Published, InTime, Publishable, Numbered, ValidFollower, ValidTimeline, ValidPolicy, Evaluate,
      RollsBack, Receive, After, Initial;
    RunInTime(ONE_CONTROL, 105);
    RunPublishes(ONE_CONTROL, 105);
    FirstPass(LEADER, ONE_CONTROL);
    SecondPass(Progress(LEADER, ONE_CONTROL).state, 105);
    var published := Published(LEADER, [ONE_CONTROL, JumpPass(105)]);
    var p, t := published[1], published[2];
    assert Publishable(p, 2) && Publishable(t, 3);
    PublishableValid(p, 2);
    PublishableValid(t, 3);
    OnlyInEffect(p, 107);
    hide EffectiveAt;
    FirstHeard(fallback, policy, p, 60, 107);
    SameEntryTaken(After(Initial(fallback, policy), [Step.Connecting, Heard(p, 60)]), t, 107);
    NothingScheduled(t, 107);
  }

  lemma OnlyInEffect(p: Timeline, now: nat)
    requires |p.scheduled| == 1 && p.scheduled[0].anchor.timeNs <= now
    ensures EffectiveAt(p, now) == p.scheduled[0]
  {
    EffectiveAppend(Active(p), [], p.scheduled[0], now);
    assert p.scheduled == [] + [p.scheduled[0]];
  }

  lemma NothingScheduled(t: Timeline, now: nat)
    requires t.scheduled == []
    ensures EffectiveAt(t, now) == Active(t)
  {
  }

  lemma DrainOne(st: LeaderState, r: Request)
    ensures Drained(st, [r]) == Handle(st, r)
  {
    assert [r][..0] == [];
    hide Handle;
  }

  lemma DrainThree(st: LeaderState, r: Request, s: Request, q: Request)
    ensures var a := Handle(st, r);
            var b := Handle(a.state, s);
            var c := Handle(b.state, q);
            Drained(st, [r, s, q]) == Handled(c.state, a.publish || b.publish || c.publish)
  {
    DrainOne(st, r);
    assert [r, s, q][..2] == [r, s] && [r, s][..1] == [r];
    hide Handle;
    assert Drained(st, [r, s]).state == Handle(Drained(st, [r]).state, s).state;
  }

  lemma TwoPasses(st: LeaderState, p: Pass, q: Pass)
    requires Progress(st, p).publish && Progress(Progress(st, p).state, q).publish
    ensures Published(st, [p, q]) == [st.timeline, Progress(st, p).state.timeline,
                                      Progress(Progress(st, p).state, q).state.timeline]
  {
    assert [p, q][..1] == [p] && [p][..0] == [];
    hide Progress;
    assert StateAfter(st, []) == st && StateAfter(st, [p]) == Progress(st, p).state;
    assert Published(st, [p]) == [st.timeline, Progress(st, p).state.timeline];
  }
}
