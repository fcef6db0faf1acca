/** What a leader may still change about a control once it has reserved it: nothing but dropping it. */
module Retention {
  import opened Arithmetic
  import opened Timelines
  import opened Tracking
  import opened Leader
  import opened Naming

  /** Whatever the later timeline still has scheduled under a number the earlier one used, the
      earlier one had scheduled just so. */
  predicate Retains(a: Timeline, b: Timeline) {
    Extends(a, b) && forall e <- b.scheduled :: e.discontinuity <= Horizon(a) ==> e in a.scheduled
  }

  lemma RetainsTransitive(a: Timeline, b: Timeline, c: Timeline)
    requires Retains(a, b) && Retains(b, c)
    ensures Retains(a, c)
  {
  }

  lemma RetainsItself(t: Timeline, u: Timeline)
    requires Extends(t, u) && u.scheduled == t.scheduled
    ensures Retains(t, u)
  {
  }

  // ---------------------------------------------------------------- one pass

  lemma HandleRetains(st: LeaderState, r: Request)
    requires Numbered(st.timeline) && st.timeline.anchor.timeNs <= r.now <= I64_MAX && !DropsReserved(st, r)
    ensures Retains(st.timeline, Handle(st, r).state.timeline)
  {
    HandleSound(st, r);
    hide ChooseRate, SourceError, Jumps, Speculated, Nudged, Numbered, Effective, AnchorAt, HandledWell;
    if r.command.Alter? {
      ControlNumber(st.timeline, if r.command.effective.Some? then r.command.effective.value else r.now);
    }
  }

  lemma {:induction false} DrainRetains(st: LeaderState, requests: seq<Request>, from: nat, to: nat)
    requires Numbered(st.timeline) && st.timeline.anchor.timeNs <= from && to <= I64_MAX
    requires Timed(requests, from, to) && Orderly(st, requests)
    ensures Retains(st.timeline, Drained(st, requests).state.timeline)
  {
    hide Handle, Numbered, Retains, DropsReserved;
    if requests == [] {
      RetainsItself(st.timeline, st.timeline);
    } else {
      var front, last := requests[..|requests| - 1], requests[|requests| - 1];
      TimedForward(front, from, last.now);
      TimedForward(requests, from, to);
      DrainRetains(st, front, from, last.now);
      DrainSound(st, front, from, last.now);
      HandleRetains(Drained(st, front).state, last);
      RetainsTransitive(st.timeline, Drained(st, front).state.timeline, Drained(st, requests).state.timeline);
    }
  }

  lemma {:induction false} DueRetains(t: Timeline, now: nat)
    requires Numbered(t)
    ensures Retains(t, Due(t, now))
    decreases |t.scheduled|
  {
    if t.scheduled != [] && t.scheduled[0].anchor.timeNs <= now {
      PromotedNumbered(t);
      assert Retains(t, Promoted(t));
      hide Numbered, Retains;
      DueRetains(Promoted(t), now);
      RetainsTransitive(t, Promoted(t), Due(t, now));
    }
  }

  lemma PassRetains(st: LeaderState, p: Pass, clock: nat)
    requires Leading(st, clock) && Timed(p.requests, clock, p.now) && p.now <= I64_MAX && Orderly(st, p.requests)
    ensures Retains(st.timeline, Progress(st, p).state.timeline)
  {
    hide Numbered, Retains, Drained, Due, HealthNow, ToWire, Timed, Orderly, ValidTimeline;
    TimedForward(p.requests, clock, p.now);
    DrainSound(st, p.requests, clock, p.now);
    DrainRetains(st, p.requests, clock, p.now);
    var t := Drained(st, p.requests).state.timeline;
    var u, w := Due(t, p.now), Progress(st, p).state.timeline;
    DueRetains(t, p.now);
    assert w == u.(sourceHealth := w.sourceHealth, revision := w.revision);
    RetainsItself(u, w);
    RetainsTransitive(st.timeline, t, u);
    RetainsTransitive(st.timeline, u, w);
  }

  // ---------------------------------------------------------------- whole runs

  predicate AllRetain(published: seq<Timeline>) {
    forall i, j :: 0 <= i <= j < |published| ==> Retains(published[i], published[j])
  }

  /** Over every orderly run: a control that several published timelines have scheduled under one
      number is the same control, at the same time, in all of them. */
  lemma {:induction false} RunRetains(st: LeaderState, passes: seq<Pass>, start: nat)
    requires Leading(st, start) && st.timeline.revision == 1 && InTime(passes, start) && AllOrderly(st, passes)
    ensures AllRetain(Published(st, passes))
    ensures forall t <- Published(st, passes) :: Retains(t, StateAfter(st, passes).timeline)
  {
    hide Retains, Leading, Progress, Orderly, Timed;
    if passes == [] {
      RetainsItself(st.timeline, st.timeline);
    } else {
      var front, last := passes[..|passes| - 1], passes[|passes| - 1];
      RunRetains(st, front, start);
      EveryPublishSound(st, front, start);
      PassRetains(StateAfter(st, front), last, ClockAfter(start, front));
      RetainsExtended(Published(st, front), StateAfter(st, front).timeline, StateAfter(st, passes).timeline);
    }
  }

  lemma RetainsExtended(published: seq<Timeline>, current: Timeline, next: Timeline)
    requires AllRetain(published) && (forall t <- published :: Retains(t, current)) && Retains(current, next)
    ensures forall t <- published + [next] :: Retains(t, next)
    ensures AllRetain(published + [next])
  {
    RetainsItself(next, next);
    hide Retains;
    forall t | t in published ensures Retains(t, next) {
      RetainsTransitive(t, current, next);
    }
    var longer := published + [next];
    forall i, j | 0 <= i <= j < |longer| ensures Retains(longer[i], longer[j]) {
      assert i < |published| ==> published[i] in published;
    }
  }

  // ---------------------------------------------------------------- nothing dropped in silence

  /** Either the later timeline has taken a number above everything the earlier one had reserved, or
      each control of the earlier one is still scheduled or has had its turn. */
  predicate Honours(a: Timeline, b: Timeline) {
    && Extends(a, b)
    && (|| b.discontinuity > Horizon(a)
        || forall e <- a.scheduled :: e.discontinuity > b.discontinuity ==> e in b.scheduled)
  }

  lemma HonoursTransitive(a: Timeline, b: Timeline, c: Timeline)
    requires Honours(a, b) && Honours(b, c)
    ensures Honours(a, c)
  {
  }

  lemma HonoursItself(t: Timeline, u: Timeline)
    requires Extends(t, u) && u.scheduled == t.scheduled
    ensures Honours(t, u)
  {
  }

  lemma HandleHonours(st: LeaderState, r: Request)
    requires Numbered(st.timeline) && st.timeline.anchor.timeNs <= r.now <= I64_MAX && !TakesReserved(st, r)
    ensures Honours(st.timeline, Handle(st, r).state.timeline)
  {
    HandleSound(st, r);
    hide ChooseRate, SourceError, Jumps, Speculated, Nudged, Numbered, Effective, AnchorAt, HandledWell;
    if r.command.Alter? {
      ControlNumber(st.timeline, if r.command.effective.Some? then r.command.effective.value else r.now);
    }
  }

  lemma {:induction false} DrainHonours(st: LeaderState, requests: seq<Request>, from: nat, to: nat)
    requires Numbered(st.timeline) && st.timeline.anchor.timeNs <= from && to <= I64_MAX
    requires Timed(requests, from, to) && Exclusive(st, requests)
    ensures Honours(st.timeline, Drained(st, requests).state.timeline)
  {
    hide Handle, Numbered, Honours, TakesReserved;
    if requests == [] {
      HonoursItself(st.timeline, st.timeline);
    } else {
      var front, last := requests[..|requests| - 1], requests[|requests| - 1];
      TimedForward(front, from, last.now);
      TimedForward(requests, from, to);
      DrainHonours(st, front, from, last.now);
      DrainSound(st, front, from, last.now);
      HandleHonours(Drained(st, front).state, last);
      HonoursTransitive(st.timeline, Drained(st, front).state.timeline, Drained(st, requests).state.timeline);
    }
  }

  lemma {:induction false} DueHonours(t: Timeline, now: nat)
    requires Numbered(t)
    ensures Honours(t, Due(t, now))
    decreases |t.scheduled|
  {
    if t.scheduled != [] && t.scheduled[0].anchor.timeNs <= now {
      PromotedNumbered(t);
      assert t.scheduled == [t.scheduled[0]] + t.scheduled[1..];
      assert Honours(t, Promoted(t));
      hide Numbered, Honours;
      DueHonours(Promoted(t), now);
      HonoursTransitive(t, Promoted(t), Due(t, now));
    }
  }

  lemma PassHonours(st: LeaderState, p: Pass, clock: nat)
    requires Leading(st, clock) && Timed(p.requests, clock, p.now) && p.now <= I64_MAX && Exclusive(st, p.requests)
    ensures Honours(st.timeline, Progress(st, p).state.timeline)
  {
    hide Numbered, Honours, Drained, Due, HealthNow, ToWire, Timed, Exclusive, ValidTimeline;
    TimedForward(p.requests, clock, p.now);
    DrainSound(st, p.requests, clock, p.now);
    DrainHonours(st, p.requests, clock, p.now);
    var t := Drained(st, p.requests).state.timeline;
    var u, w := Due(t, p.now), Progress(st, p).state.timeline;
    DueHonours(t, p.now);
    assert w == u.(sourceHealth := w.sourceHealth, revision := w.revision);
    HonoursItself(u, w);
    HonoursTransitive(st.timeline, t, u);
    HonoursTransitive(st.timeline, u, w);
  }

  predicate AllHonour(published: seq<Timeline>) {
    forall i, j :: 0 <= i <= j < |published| ==> Honours(published[i], published[j])
  }

  /** Over every run in which no discontinuous sample finds a control pending: a control a leader
      has published is never dropped except by a command whose number is above it and all others
      reserved with it. */
  lemma {:induction false} RunHonours(st: LeaderState, passes: seq<Pass>, start: nat)
    requires Leading(st, start) && st.timeline.revision == 1 && InTime(passes, start) && AllExclusive(st, passes)
    ensures AllHonour(Published(st, passes))
    ensures forall t <- Published(st, passes) :: Honours(t, StateAfter(st, passes).timeline)
  {
    hide Honours, Leading, Progress, Exclusive, Timed;
    if passes == [] {
      HonoursItself(st.timeline, st.timeline);
    } else {
      var front, last := passes[..|passes| - 1], passes[|passes| - 1];
      RunHonours(st, front, start);
      EveryPublishSound(st, front, start);
      PassHonours(StateAfter(st, front), last, ClockAfter(start, front));
      HonoursExtended(Published(st, front), StateAfter(st, front).timeline, StateAfter(st, passes).timeline);
    }
  }

  lemma HonoursExtended(published: seq<Timeline>, current: Timeline, next: Timeline)
    requires AllHonour(published) && (forall t <- published :: Honours(t, current)) && Honours(current, next)
    ensures forall t <- published + [next] :: Honours(t, next)
    ensures AllHonour(published + [next])
  {
    HonoursItself(next, next);
    hide Honours;
    forall t | t in published ensures Honours(t, next) {
      HonoursTransitive(t, current, next);
    }
    var longer := published + [next];
    forall i, j | 0 <= i <= j < |longer| ensures Honours(longer[i], longer[j]) {
      assert i < |published| ==> published[i] in published;
    }
  }

  // ---------------------------------------------------------------- when a timeline goes out

  /** The leader's clock at each publication. */
  function PublishedTimes(st: LeaderState, passes: seq<Pass>, start: nat): seq<nat> {
    if passes == [] then [start]
    else
      var front, last := passes[..|passes| - 1], passes[|passes| - 1];
      PublishedTimes(st, front, start) + (if Progress(StateAfter(st, front), last).publish then [last.now] else [])
  }

  /** No published timeline is anchored after the moment it goes out. */
  lemma {:induction false} AnchoredByThen(st: LeaderState, passes: seq<Pass>, start: nat)
    requires Leading(st, start) && st.timeline.revision == 1 && InTime(passes, start)
    ensures |PublishedTimes(st, passes, start)| == |Published(st, passes)|
    ensures forall i :: 0 <= i < |Published(st, passes)| ==>
              Published(st, passes)[i].anchor.timeNs <= PublishedTimes(st, passes, start)[i]
  {
    if passes != [] {
      var front, last := passes[..|passes| - 1], passes[|passes| - 1];
      AnchoredByThen(st, front, start);
      EveryPublishSound(st, front, start);
      PassSound(StateAfter(st, front), last, ClockAfter(start, front));
      hide Progress, Timed, Numbered, ValidTimeline, FromWire;
    }
  }
}
