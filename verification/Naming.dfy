/** A discontinuity names one trajectory: what a leader must keep for followers to rely on it. */
module Naming {
  import opened Arithmetic
  import opened Timecode
  import opened Timelines
  import opened Tracking
  import opened Leader

  /** The anchor a timeline gives a discontinuity it uses. */
  function Under(t: Timeline, id: nat): Anchor
    requires t.discontinuity <= id <= Horizon(t)
  {
    if id == t.discontinuity then t.anchor else t.scheduled[id - t.discontinuity - 1].anchor
  }

  /** What a routine sample does to the active anchor: the rate stays, and at its own time the
      position is within a fiftieth of a frame of the trajectory so far. */
  predicate Routine(f: Format, a: Anchor, b: Anchor) {
    b.rate == a.rate && Abs(Fixed(b.position) - Fixed(AnchorAt(a, b.timeNs, f))) <= 85_899_345
  }

  /** The second anchor is the first, moved by this many routine samples. */
  ghost predicate NudgedTo(f: Format, a: Anchor, b: Anchor, times: nat)
    decreases times
  {
    if times == 0 then a == b
    else exists m: Anchor :: NudgedTo(f, a, m, times - 1) && Routine(f, m, b)
  }

  /** One trajectory: the same anchor, or for a tracked source one that at most so many routine
      samples have moved, and nothing else. */
  ghost predicate SameTrajectory(kind: SourceKind, f: Format, a: Anchor, b: Anchor, most: nat) {
    a == b || (kind == Tracked && exists times: nat :: times <= most && NudgedTo(f, a, b, times))
  }

  lemma OneNudgeMore(f: Format, a: Anchor, x: Anchor, c: Anchor, times: nat)
    requires times > 0 && NudgedTo(f, a, x, times - 1) && Routine(f, x, c)
    ensures NudgedTo(f, a, c, times)
  {
    hide Routine;
  }

  lemma {:induction false} NudgedFurther(f: Format, a: Anchor, b: Anchor, c: Anchor, m: nat, n: nat)
    requires NudgedTo(f, a, b, m) && NudgedTo(f, b, c, n)
    ensures NudgedTo(f, a, c, m + n)
    decreases n
  {
    hide Routine;
    if n > 0 {
      var x: Anchor :| NudgedTo(f, b, x, n - 1) && Routine(f, x, c);
      NudgedFurther(f, a, b, x, m, n - 1);
      OneNudgeMore(f, a, x, c, m + n);
    }
  }

  lemma SameTransitive(kind: SourceKind, f: Format, a: Anchor, b: Anchor, c: Anchor, m: nat, n: nat)
    requires SameTrajectory(kind, f, a, b, m) && SameTrajectory(kind, f, b, c, n)
    ensures SameTrajectory(kind, f, a, c, m + n)
  {
    hide NudgedTo;
    if a != b && b != c {
      var x: nat :| x <= m && NudgedTo(f, a, b, x);
      var y: nat :| y <= n && NudgedTo(f, b, c, y);
      NudgedFurther(f, a, b, c, x, y);
      assert x + y <= m + n && NudgedTo(f, a, c, x + y);
    }
  }

  /** Every discontinuity used by both timelines, the second being later, is one trajectory, moved
      by at most so many samples. */
  ghost predicate Names(a: Timeline, b: Timeline, most: nat) {
    Extends(a, b) && forall id: nat :: b.discontinuity <= id <= Horizon(a) ==> NamesOne(a, b, id, most)
  }

  ghost predicate NamesOne(a: Timeline, b: Timeline, id: nat, most: nat)
    requires Extends(a, b) && b.discontinuity <= id <= Horizon(a)
  {
    SameTrajectory(b.sourceKind, b.format, Under(a, id), Under(b, id), most)
  }

  lemma NamesTransitive(a: Timeline, b: Timeline, c: Timeline, m: nat, n: nat)
    requires Names(a, b, m) && Names(b, c, n)
    ensures Names(a, c, m + n)
  {
    hide SameTrajectory, Under;
    var most := m + n;
    forall id: nat | c.discontinuity <= id <= Horizon(a) ensures NamesOne(a, c, id, most) {
      assert NamesOne(a, b, id, m) && NamesOne(b, c, id, n);
      SameTransitive(c.sourceKind, c.format, Under(a, id), Under(b, id), Under(c, id), m, n);
    }
  }

  lemma NamesWithMore(a: Timeline, b: Timeline, m: nat, n: nat)
    requires Names(a, b, m) && m <= n
    ensures Names(a, b, n)
  {
    hide NudgedTo, Under;
    forall id: nat | b.discontinuity <= id <= Horizon(a) ensures NamesOne(a, b, id, n) {
      assert NamesOne(a, b, id, m);
    }
  }

  // ---------------------------------------------------------------- commands

  predicate Cancels(t: Timeline, u: Timeline) {
    t.scheduled != [] && u.scheduled == []
  }

  /** A discontinuous sample cancels pending controls but takes the lowest number reserved. */
  predicate TakesReserved(st: LeaderState, r: Request) {
    && r.command.Feed?
    && SampleStep(st.tracker, st.timeline, r.command.sample, r.now).Followed?
    && SampleStep(st.tracker, st.timeline, r.command.sample, r.now).changed
    && st.timeline.scheduled != []
  }

  /** A command that cancels the schedule takes a discontinuity above every reserved one exactly
      when it is not a discontinuous sample over pending controls. */
  lemma CancelsAboveReserved(st: LeaderState, r: Request)
    requires Numbered(st.timeline) && st.timeline.anchor.timeNs <= r.now <= I64_MAX
    ensures var t, u := st.timeline, Handle(st, r).state.timeline;
            (Cancels(t, u) ==> u.discontinuity > Horizon(t)) <==> !TakesReserved(st, r)
  {
    hide ChooseRate, SourceError, Nudged, Jumps, Speculated, Numbered, Effective, AnchorAt;
    match r.command
    case AssignId(_) =>
    case Alter(change, effective) =>
      ControlNumber(st.timeline, if effective.Some? then effective.value else r.now);
    case Feed(_) =>
    case Unrelated =>
  }

  function Fed(r: Request): nat {
    if r.command.Feed? then 1 else 0
  }

  /** Any other command keeps what every discontinuity names. */
  lemma HandleNames(st: LeaderState, r: Request)
    requires Numbered(st.timeline) && st.timeline.anchor.timeNs <= r.now <= I64_MAX && !TakesReserved(st, r)
    ensures Names(st.timeline, Handle(st, r).state.timeline, Fed(r))
  {
    HandleSound(st, r);
    hide ChooseRate, SourceError, Jumps, Speculated, Numbered, Effective, AnchorAt, HandledWell, Routine;
    var t, u := st.timeline, Handle(st, r).state.timeline;
    if r.command.Alter? {
      ControlNumber(t, if r.command.effective.Some? then r.command.effective.value else r.now);
    }
    if r.command.Feed? && SampleStep(st.tracker, t, r.command.sample, r.now).Followed?
       && !SampleStep(st.tracker, t, r.command.sample, r.now).changed {
      NudgedOnce(st, r);
    }
    forall id: nat | u.discontinuity <= id <= Horizon(t) ensures NamesOne(t, u, id, Fed(r)) {
    }
  }

  lemma NudgedOnce(st: LeaderState, r: Request)
    requires r.command.Feed? && SampleStep(st.tracker, st.timeline, r.command.sample, r.now).Followed?
    requires !SampleStep(st.tracker, st.timeline, r.command.sample, r.now).changed
    ensures var t, u := st.timeline, Handle(st, r).state.timeline;
            && SameTrajectory(u.sourceKind, u.format, t.anchor, u.anchor, 1)
            && u.discontinuity == t.discontinuity && u.scheduled == t.scheduled
  {
    RoutineSample(st.tracker, st.timeline, r.command.sample, r.now);
    hide ChooseRate, SourceError, Jumps, Speculated, Timelines.AnchorAt, Fixed;
    var t, u := st.timeline, Handle(st, r).state.timeline;
    assert NudgedTo(t.format, t.anchor, t.anchor, 0) && Routine(t.format, t.anchor, u.anchor);
    assert NudgedTo(t.format, t.anchor, u.anchor, 1);
  }

  // ---------------------------------------------------------------- passes and runs

  /** No discontinuous sample finds a control pending. */
  predicate Exclusive(st: LeaderState, requests: seq<Request>) {
    requests == []
    || (&& Exclusive(st, requests[..|requests| - 1])
        && !TakesReserved(Drained(st, requests[..|requests| - 1]).state, requests[|requests| - 1]))
  }

  /** Samples handed to the leader. */
  function FedBy(requests: seq<Request>): nat {
    if requests == [] then 0 else FedBy(requests[..|requests| - 1]) + Fed(requests[|requests| - 1])
  }

  function FedOver(passes: seq<Pass>): nat {
    if passes == [] then 0 else FedOver(passes[..|passes| - 1]) + FedBy(passes[|passes| - 1].requests)
  }

  lemma SameNames(t: Timeline, u: Timeline)
    requires Extends(t, u) && u.discontinuity == t.discontinuity && u.scheduled == t.scheduled && u.anchor == t.anchor
    ensures Names(t, u, 0)
  {
    hide SameTrajectory;
    forall id: nat | u.discontinuity <= id <= Horizon(t) ensures NamesOne(t, u, id, 0) {
      AnchorItself(u.sourceKind, u.format, Under(t, id));
    }
  }

  lemma AnchorItself(kind: SourceKind, f: Format, a: Anchor)
    ensures SameTrajectory(kind, f, a, a, 0)
  {
    hide NudgedTo;
  }

  lemma {:induction false} DrainNames(st: LeaderState, requests: seq<Request>, from: nat, to: nat)
    requires Numbered(st.timeline) && st.timeline.anchor.timeNs <= from && to <= I64_MAX
    requires Timed(requests, from, to) && Exclusive(st, requests)
    ensures Names(st.timeline, Drained(st, requests).state.timeline, FedBy(requests))
    ensures Orderly(st, requests)
  {
    hide Handle, Numbered, Names, SampleStep;
    if requests == [] {
      SameNames(st.timeline, st.timeline);
    } else {
      var front, last := requests[..|requests| - 1], requests[|requests| - 1];
      TimedForward(front, from, last.now);
      TimedForward(requests, from, to);
      DrainNames(st, front, from, last.now);
      DrainSound(st, front, from, last.now);
      HandleNames(Drained(st, front).state, last);
      NamesTransitive(st.timeline, Drained(st, front).state.timeline, Drained(st, requests).state.timeline,
                      FedBy(front), Fed(last));
    }
  }

  lemma PromotedNames(t: Timeline)
    requires Numbered(t) && t.scheduled != []
    ensures Names(t, Promoted(t), 0)
  {
    PromotedNumbered(t);
    hide NudgedTo;
    var u := Promoted(t);
    assert NumberedEntry(t, 0);
    forall id: nat | u.discontinuity <= id <= Horizon(t) ensures NamesOne(t, u, id, 0) {
      assert Under(t, id) == Under(u, id);
    }
  }

  lemma {:induction false} DueNames(t: Timeline, now: nat)
    requires Numbered(t)
    ensures Names(t, Due(t, now), 0)
    decreases |t.scheduled|
  {
    hide Numbered, Names;
    if t.scheduled != [] && t.scheduled[0].anchor.timeNs <= now {
      PromotedNumbered(t);
      PromotedNames(t);
      DueNames(Promoted(t), now);
      NamesTransitive(t, Promoted(t), Due(Promoted(t), now), 0, 0);
    } else {
      SameNames(t, t);
    }
  }

  /** One pass keeps what every discontinuity names. */
  lemma PassNames(st: LeaderState, p: Pass, clock: nat)
    requires Leading(st, clock) && Timed(p.requests, clock, p.now) && p.now <= I64_MAX && Exclusive(st, p.requests)
    ensures Names(st.timeline, Progress(st, p).state.timeline, FedBy(p.requests))
    ensures Orderly(st, p.requests)
  {
    hide Numbered, Names, Drained, Due, HealthNow, ToWire, Timed, Exclusive, Orderly, ValidTimeline;
    TimedForward(p.requests, clock, p.now);
    DrainSound(st, p.requests, clock, p.now);
    DrainNames(st, p.requests, clock, p.now);
    var t := Drained(st, p.requests).state.timeline;
    var u, w := Due(t, p.now), Progress(st, p).state.timeline;
    DueNames(t, p.now);
    assert Extends(t, u) by {
      NamesExtend(t, u, 0);
    }
    assert w == u.(sourceHealth := w.sourceHealth, revision := w.revision);
    SameNames(u, w);
    NamesTransitive(st.timeline, t, u, FedBy(p.requests), 0);
    NamesTransitive(st.timeline, u, w, FedBy(p.requests), 0);
  }

  lemma NamesExtend(a: Timeline, b: Timeline, most: nat)
    requires Names(a, b, most)
    ensures Extends(a, b)
  {
  }

  predicate AllExclusive(st: LeaderState, passes: seq<Pass>) {
    passes == []
    || (var front, last := passes[..|passes| - 1], passes[|passes| - 1];
        AllExclusive(st, front) && Exclusive(StateAfter(st, front), last.requests))
  }

  /** All published timelines agree on what a discontinuity names, up to so many samples. */
  ghost predicate AllName(published: seq<Timeline>, most: nat) {
    forall i, j :: 0 <= i <= j < |published| ==> Names(published[i], published[j], most)
  }

  /** Over every run of a leader, whether by controls alone or with samples none of which jumps
      over a pending control, a discontinuity is one trajectory in all published timelines. */
  lemma {:induction false} RunNames(st: LeaderState, passes: seq<Pass>, start: nat)
    requires Leading(st, start) && st.timeline.revision == 1 && InTime(passes, start) && AllExclusive(st, passes)
    ensures AllName(Published(st, passes), FedOver(passes)) && AllOrderly(st, passes)
    ensures forall t <- Published(st, passes) :: Names(t, StateAfter(st, passes).timeline, FedOver(passes))
  {
    hide Names, Leading, Progress, Exclusive, Orderly, Timed, FedBy;
    if passes == [] {
      SameNames(st.timeline, st.timeline);
    } else {
      var front, last := passes[..|passes| - 1], passes[|passes| - 1];
      RunNames(st, front, start);
      EveryPublishSound(st, front, start);
      PassNames(StateAfter(st, front), last, ClockAfter(start, front));
      var h := Progress(StateAfter(st, front), last);
      SameNames(h.state.timeline, h.state.timeline);
      NamesExtended(Published(st, front), StateAfter(st, front).timeline, h.state.timeline,
                    FedOver(front), FedBy(last.requests));
    }
  }

  lemma NamesExtended(published: seq<Timeline>, current: Timeline, next: Timeline, m: nat, n: nat)
    requires AllName(published, m) && forall t <- published :: Names(t, current, m)
    requires Names(current, next, n) && Names(next, next, 0)
    ensures forall t <- published :: Names(t, next, m + n)
    ensures AllName(published, m + n) && AllName(published + [next], m + n) && Names(next, next, m + n)
  {
    hide Names;
    NamesWithMore(next, next, 0, m + n);
    forall t | t in published ensures Names(t, next, m + n) {
      NamesTransitive(t, current, next, m, n);
    }
    forall i, j | 0 <= i <= j < |published| ensures Names(published[i], published[j], m + n) {
      NamesWithMore(published[i], published[j], m, m + n);
    }
    var longer := published + [next];
    forall i, j | 0 <= i <= j < |longer| ensures Names(longer[i], longer[j], m + n) {
      assert i < |published| ==> published[i] in published;
    }
  }

  lemma {:induction false} UnfedExclusive(st: LeaderState, requests: seq<Request>)
    requires FedBy(requests) == 0
    ensures Exclusive(st, requests)
  {
    hide SampleStep, Drained;
    if requests != [] {
      UnfedExclusive(st, requests[..|requests| - 1]);
    }
  }

  lemma {:induction false} UnfedAllExclusive(st: LeaderState, passes: seq<Pass>)
    requires FedOver(passes) == 0
    ensures AllExclusive(st, passes)
  {
    hide Exclusive, FedBy, StateAfter;
    if passes != [] {
      var front, last := passes[..|passes| - 1], passes[|passes| - 1];
      UnfedAllExclusive(st, front);
      UnfedExclusive(StateAfter(st, front), last.requests);
    }
  }

  /** A leader that is never fed a sample publishes exactly one anchor under each discontinuity. */
  lemma ControlledNamesExactly(st: LeaderState, passes: seq<Pass>, start: nat, i: nat, j: nat, id: nat)
    requires Leading(st, start) && st.timeline.revision == 1 && InTime(passes, start)
    requires FedOver(passes) == 0 && i <= j < |Published(st, passes)|
    requires Published(st, passes)[j].discontinuity <= id <= Horizon(Published(st, passes)[i])
    ensures id <= Horizon(Published(st, passes)[j]) && Published(st, passes)[i].discontinuity <= id
    ensures Under(Published(st, passes)[i], id) == Under(Published(st, passes)[j], id)
  {
    UnfedAllExclusive(st, passes);
    RunNames(st, passes, start);
    hide Published, Leading, InTime, AllExclusive, AllOrderly;
    var a, b := Published(st, passes)[i], Published(st, passes)[j];
    assert Names(a, b, 0);
    assert NamesOne(a, b, id, 0);
  }
}
