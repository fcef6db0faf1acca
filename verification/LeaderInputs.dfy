/** What becomes of a leader's inputs: identities, samples and controls, over whole runs. */
module LeaderInputs {
  import opened Arithmetic
  import opened Timelines
  import opened Tracking
  import opened TrackingRuns
  import opened Leader

  // ---------------------------------------------------------------- beginnings

  /** A leader begins at its position, moving at its rate with nothing pending, under number zero and
      revision one; that is what peers are sent. A tracked source counts as degraded until it is heard. */
  lemma Begins(session: Id16, id: Id16, format: Format, kind: SourceKind, position: Pos, rate: Speed,
               now: nat, x: nat)
    requires now <= I64_MAX
    ensures var st := Started(session, id, format, kind, position, rate, now);
            var t := st.timeline;
            && PositionAt(t, now) == position && EffectiveAt(t, x) == Scheduled(0, Anchor(now, position, rate))
            && t.session == session && t.sessionId == Some(id) && t.format == format && t.sourceKind == kind
            && t.revision == 1 && FromWire(st.bytes) == Ok(t) && !st.dirty
            && (t.sourceHealth == Healthy <==> kind != Tracked || Heard([], now, x))
  {
    StartedLeading(session, id, format, kind, position, rate, now);
    StandsStill(Anchor(now, position, rate), format);
    HealthyIffHeard([], now, x);
    hide FromWire, ToWire, AnchorAt, Heard;
  }

  // ---------------------------------------------------------------- recording identities

  /** The identity last assigned, or the one there was. */
  function LastAssigned(id: Option<Id16>, requests: seq<Request>): Option<Id16> {
    if requests == [] then id
    else
      match requests[|requests| - 1].command
      case AssignId(last) => Some(last)
      case _ => LastAssigned(id, requests[..|requests| - 1])
  }

  function LastAssignedOver(id: Option<Id16>, passes: seq<Pass>): Option<Id16> {
    if passes == [] then id
    else LastAssigned(LastAssignedOver(id, passes[..|passes| - 1]), passes[|passes| - 1].requests)
  }

  /** Only assigning changes the identity. */
  lemma HandleIdentity(st: LeaderState, r: Request)
    ensures var t, u := st.timeline, Handle(st, r).state.timeline;
            && u.sessionId == (if r.command.AssignId? then Some(r.command.id) else t.sessionId)
            && (r.command.AssignId? ==> u == t.(sessionId := u.sessionId))
            && (r.command.Unrelated? ==> Handle(st, r) == Handled(st, false))
  {
    hide ChooseRate, SourceError, Jumps, Nudged, JumpCount, Effective, AnchorAt;
  }

  lemma {:induction false} DrainIdentity(st: LeaderState, requests: seq<Request>)
    ensures Drained(st, requests).state.timeline.sessionId == LastAssigned(st.timeline.sessionId, requests)
  {
    hide Handle;
    if requests != [] {
      var front := requests[..|requests| - 1];
      DrainIdentity(st, front);
      HandleIdentity(Drained(st, front).state, requests[|requests| - 1]);
    }
  }

  lemma {:induction false} DueKeepsRest(t: Timeline, now: nat)
    ensures var u := Due(t, now);
            u == t.(anchor := u.anchor, discontinuity := u.discontinuity, scheduled := u.scheduled)
    decreases |t.scheduled|
  {
    if t.scheduled != [] && t.scheduled[0].anchor.timeNs <= now {
      DueKeepsRest(Promoted(t), now);
    }
  }

  lemma PassIdentity(st: LeaderState, p: Pass)
    ensures Progress(st, p).state.timeline.sessionId == LastAssigned(st.timeline.sessionId, p.requests)
    ensures Progress(st, p).state.tracker == Drained(st, p.requests).state.tracker
    ensures Progress(st, p).state.timeline.sourceKind == Drained(st, p.requests).state.timeline.sourceKind
    ensures Progress(st, p).state.timeline.sourceHealth == HealthNow(Drained(st, p.requests).state, p)
  {
    hide Drained, Due, HealthNow, ToWire;
    DrainIdentity(st, p.requests);
    DueKeepsRest(Drained(st, p.requests).state.timeline, p.now);
  }

  /** Over every run peers are told the identity last assigned, in the pass that assigned it. */
  lemma {:induction false} RunIdentity(st: LeaderState, passes: seq<Pass>, start: nat)
    requires Leading(st, start) && st.timeline.revision == 1 && InTime(passes, start)
    ensures var now := StateAfter(st, passes);
            && now.timeline.sessionId == LastAssignedOver(st.timeline.sessionId, passes)
            && FromWire(now.bytes).Ok? && FromWire(now.bytes).value.sessionId == now.timeline.sessionId
  {
    PeersKeepUp(st, passes, start);
    hide Progress, FromWire;
    if passes != [] {
      var front := passes[..|passes| - 1];
      RunIdentity(st, front, start);
      PassIdentity(StateAfter(st, front), passes[|passes| - 1]);
    }
  }

  // ---------------------------------------------------------------- controls

  /** A pass that takes an accepted control publishes. */
  lemma {:induction false} AcceptedControlPublished(st: LeaderState, requests: seq<Request>, i: nat)
    requires i < |requests| && requests[i].command.Alter?
    requires var before := Drained(st, requests[..i]).state.timeline;
             var c := requests[i].command;
             Controlled(before, c.change, c.effective, requests[i].now).Ok?
    ensures Drained(st, requests).publish
  {
    hide Controlled, SampleStep;
    var n := |requests| - 1;
    if i < n {
      assert requests[..n][..i] == requests[..i];
      AcceptedControlPublished(st, requests[..n], i);
    }
  }

  lemma ControlPassPublishes(st: LeaderState, p: Pass, i: nat)
    requires i < |p.requests| && p.requests[i].command.Alter?
    requires var before := Drained(st, p.requests[..i]).state.timeline;
             var c := p.requests[i].command;
             Controlled(before, c.change, c.effective, p.requests[i].now).Ok?
    ensures Progress(st, p).publish
  {
    AcceptedControlPublished(st, p.requests, i);
    hide Drained, Due, HealthNow, ToWire, Controlled;
  }

  // ---------------------------------------------------------------- what calls for publication

  /** A command calls for publication exactly when it changes more of the timeline than the anchor. */
  lemma PublishesBeyondAnchor(st: LeaderState, r: Request)
    requires Numbered(st.timeline)
    ensures var t, u := st.timeline, Handle(st, r).state.timeline;
            Handle(st, r).publish <==> u != t.(anchor := u.anchor)
  {
    hide Speculated, SourceError, JumpCount, Nudged, Effective, AnchorAt, Numbered;
    if r.command.Alter? {
      var time := if r.command.effective.Some? then r.command.effective.value else r.now;
      ControlNumber(st.timeline, time);
    }
  }

  /** Some command of a batch changes more than the anchor. */
  predicate BeyondAnchor(st: LeaderState, requests: seq<Request>) {
    requests != []
    && (var t, u := Drained(st, requests[..|requests| - 1]).state.timeline, Drained(st, requests).state.timeline;
        u != t.(anchor := u.anchor) || BeyondAnchor(st, requests[..|requests| - 1]))
  }

  /** Some sample of a batch is wanted, due, and newer than the one before it. */
  predicate SampleTaken(st: LeaderState, requests: seq<Request>) {
    requests != []
    && (var before, last := Drained(st, requests[..|requests| - 1]).state, requests[|requests| - 1];
        || SampleTaken(st, requests[..|requests| - 1])
        || (&& last.command.Feed? && before.timeline.sourceKind == Tracked
            && last.command.sample.timestampNs <= last.now
            && (before.tracker.last.Some? ==>
                  last.command.sample.timestampNs > before.tracker.last.value.timestampNs)))
  }

  lemma {:induction false} DrainDirties(st: LeaderState, requests: seq<Request>)
    ensures Drained(st, requests).state.dirty <==> st.dirty || SampleTaken(st, requests)
  {
    hide ChooseRate, SourceError, Jumps, Nudged, JumpCount, Controlled;
    if requests != [] {
      DrainDirties(st, requests[..|requests| - 1]);
    }
  }

  lemma {:induction false} DrainPublishes(st: LeaderState, requests: seq<Request>, from: nat, to: nat)
    requires Numbered(st.timeline) && st.timeline.anchor.timeNs <= from && to <= I64_MAX && Timed(requests, from, to)
    ensures Drained(st, requests).publish <==> BeyondAnchor(st, requests)
  {
    if requests != [] {
      var front, last := requests[..|requests| - 1], requests[|requests| - 1];
      TimedForward(requests, from, to);
      DrainPublishes(st, front, from, last.now);
      DrainSound(st, front, from, last.now);
      PublishesBeyondAnchor(Drained(st, front).state, last);
      hide Handle, Numbered, Timed;
    }
  }

  lemma {:induction false} DueChanges(t: Timeline, now: nat)
    ensures |Due(t, now).scheduled| <= |t.scheduled|
    ensures |Due(t, now).scheduled| == |t.scheduled| ==> Due(t, now) == t
    decreases |t.scheduled|
  {
    if t.scheduled != [] && t.scheduled[0].anchor.timeNs <= now {
      DueChanges(Promoted(t), now);
    }
  }

  /** A pass publishes exactly when the heartbeat is due, when something other than the anchor
      changes in it, or when samples have been taken since the last publication and the tracked
      interval is due. */
  lemma PublishesIff(st: LeaderState, p: Pass, clock: nat)
    requires Leading(st, clock) && Timed(p.requests, clock, p.now) && p.now <= I64_MAX
    ensures var t, u := Drained(st, p.requests).state.timeline, Progress(st, p).state.timeline;
            Progress(st, p).publish
            <==> || p.heartbeatDue || (p.trackedDue && (st.dirty || SampleTaken(st, p.requests)))
                 || BeyondAnchor(st, p.requests) || u.scheduled != t.scheduled || u.sourceHealth != t.sourceHealth
    ensures Progress(st, p).state.dirty
       <==> !Progress(st, p).publish && (st.dirty || SampleTaken(st, p.requests))
  {
    DrainDirties(st, p.requests);
    DrainPublishes(st, p.requests, clock, p.now);
    DueChanges(Drained(st, p.requests).state.timeline, p.now);
    hide Drained, Due, HealthNow, ToWire, BeyondAnchor, SampleTaken, Numbered, Timed, FromWire, ValidTimeline;
  }

  // ---------------------------------------------------------------- samples

  /** The samples of a batch, each with the timeline it met. */
  function FedIn(st: LeaderState, requests: seq<Request>): seq<Arrival> {
    if requests == [] then []
    else
      var front, last := requests[..|requests| - 1], requests[|requests| - 1];
      FedIn(st, front)
      + if last.command.Feed? then [Arrival(Drained(st, front).state.timeline, last.command.sample, last.now)] else []
  }

  function FedDuring(st: LeaderState, passes: seq<Pass>): seq<Arrival> {
    if passes == [] then []
    else
      var front, last := passes[..|passes| - 1], passes[|passes| - 1];
      FedDuring(st, front) + FedIn(StateAfter(st, front), last.requests)
  }

  lemma HandleTracks(st: LeaderState, r: Request, arrivals: seq<Arrival>)
    requires st.tracker == TrackerAfter(arrivals)
    ensures Handle(st, r).state.tracker
         == TrackerAfter(arrivals + if r.command.Feed? then [Arrival(st.timeline, r.command.sample, r.now)] else [])
  {
    hide SampleStep, Controlled;
    assert arrivals + [] == arrivals;
    if r.command.Feed? {
      var a := Arrival(st.timeline, r.command.sample, r.now);
      assert (arrivals + [a])[..|arrivals|] == arrivals;
    }
  }

  lemma {:induction false} DrainTracks(st: LeaderState, requests: seq<Request>, arrivals: seq<Arrival>)
    requires st.tracker == TrackerAfter(arrivals)
    ensures Drained(st, requests).state.tracker == TrackerAfter(arrivals + FedIn(st, requests))
  {
    hide Handle, TrackerAfter;
    if requests == [] {
      assert arrivals + [] == arrivals;
    } else {
      var front, last := requests[..|requests| - 1], requests[|requests| - 1];
      DrainTracks(st, front, arrivals);
      HandleTracks(Drained(st, front).state, last, arrivals + FedIn(st, front));
      var more := if last.command.Feed? then [Arrival(Drained(st, front).state.timeline, last.command.sample, last.now)]
                  else [];
      assert arrivals + FedIn(st, front) + more == arrivals + (FedIn(st, front) + more);
    }
  }

  /** Over every run the leader's tracker has seen exactly the samples fed, in order. */
  lemma {:induction false} RunTracks(st: LeaderState, passes: seq<Pass>)
    requires st.tracker == IDLE
    ensures StateAfter(st, passes).tracker == TrackerAfter(FedDuring(st, passes))
  {
    hide Progress, Drained;
    if passes != [] {
      var front, last := passes[..|passes| - 1], passes[|passes| - 1];
      RunTracks(st, front);
      PassIdentity(StateAfter(st, front), last);
      DrainTracks(StateAfter(st, front), last.requests, FedDuring(st, front));
    }
  }

  /** After every pass a tracked leader shows its source healthy exactly when some sample it has
      accepted is no older than the timeout, and peers are told. */
  lemma RunHealth(st: LeaderState, passes: seq<Pass>, start: nat)
    requires Leading(st, start) && st.timeline.revision == 1 && InTime(passes, start) && passes != []
    requires st.tracker == IDLE && StateAfter(st, passes).timeline.sourceKind == Tracked
    ensures var now, last := StateAfter(st, passes), passes[|passes| - 1];
            && (now.timeline.sourceHealth == Healthy <==> Heard(FedDuring(st, passes), last.now, last.timeoutNs))
            && FromWire(now.bytes).Ok? && FromWire(now.bytes).value.sourceHealth == now.timeline.sourceHealth
  {
    var front, last := passes[..|passes| - 1], passes[|passes| - 1];
    PeersKeepUp(st, passes, start);
    RunTracks(st, passes);
    PassIdentity(StateAfter(st, front), last);
    HealthyIffHeard(FedDuring(st, passes), last.now, last.timeoutNs);
    hide Progress, Drained, FromWire, FedDuring, TrackerAfter, Heard, InTime;
  }
}
