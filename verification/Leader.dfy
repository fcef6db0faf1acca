/** The leader: controls, tracked samples, due controls, and what it publishes. */
module Leader {
  import opened Arithmetic
  import opened Timecode
  import opened Timelines
  import opened Tracking

  datatype Change = ToRate(rate: Speed) | Seek(position: Pos) | SetBoth(position: Pos, rate: Speed)

  datatype Command =
    | AssignId(id: Id16)
    | Alter(change: Change, effective: Option<nat>)
    | Feed(sample: SourceSample)
    | Unrelated

  /** A command together with the clock reading it is handled at. */
  datatype Request = Request(command: Command, now: nat)

  /** `bytes` is the last encoded snapshot, the one every peer is sent. */
  datatype LeaderState = LeaderState(timeline: Timeline, tracker: TrackerState, dirty: bool, bytes: Snapshot)

  datatype Handled = Handled(state: LeaderState, publish: bool)

  /** One turn of the leader's job. Elapsed-time tests come in as their outcomes. */
  datatype Pass = Pass(requests: seq<Request>, now: nat, timeoutNs: nat, heartbeatDue: bool, trackedDue: bool)

  const BATCH := 32

  // ---------------------------------------------------------------- controls

  function Changed(change: Change, time: nat, position: Pos, rate: Speed): Anchor {
    match change
    case ToRate(r) => Anchor(time, position, r)
    case Seek(p) => Anchor(time, p, rate)
    case SetBoth(p, r) => Anchor(time, p, r)
  }

  function LastReserved(t: Timeline): nat {
    if t.scheduled == [] then 0 else t.scheduled[|t.scheduled| - 1].discontinuity
  }

  predicate CannotSchedule(t: Timeline, time: nat) {
    || |t.scheduled| == 4
    || (t.scheduled != [] && time <= t.scheduled[|t.scheduled| - 1].anchor.timeNs)
  }

  function Controlled(t: Timeline, change: Change, effective: Option<nat>, now: nat): Result<Timeline> {
    var time := if effective.Some? then effective.value else now;
    if time > I64_MAX || (time > now && CannotSchedule(t, time)) then Err
    else
      var anchor := Changed(change, time, PositionAt(t, time), EffectiveAt(t, time).anchor.rate);
      var next := MaxI(MaxI(t.discontinuity, EffectiveAt(t, time).discontinuity), LastReserved(t)) + 1;
      if time > now then Ok(t.(scheduled := t.scheduled + [Scheduled(next, anchor)]))
      else Ok(t.(anchor := anchor, discontinuity := next, scheduled := []))
  }

  /** `change_timeline`. */
  method ChangeTimeline(t: Timeline, change: Change, effective: Option<nat>, now: nat) returns (r: Result<Timeline>)
    ensures r == Controlled(t, change, effective, now)
  {
    var time := if effective.Some? then effective.value else now;
    if time > I64_MAX {
      return Err;
    }
    var scheduled := time > now;
    if scheduled && (|t.scheduled| == 4
                     || (|t.scheduled| > 0 && time <= t.scheduled[|t.scheduled| - 1].anchor.timeNs)) {
      return Err;
    }
    var position, rate, disc := At(t, time);
    var anchor := match change {
      case ToRate(r) => Anchor(time, position, r)
      case Seek(p) => Anchor(time, p, rate)
      case SetBoth(p, r) => Anchor(time, p, r)
    };
    var next := MaxI(MaxI(t.discontinuity, disc), LastReserved(t)) + 1;
    if scheduled {
      r := Ok(t.(scheduled := t.scheduled + [Scheduled(next, anchor)]));
    } else {
      r := Ok(t.(anchor := anchor, discontinuity := next, scheduled := []));
    }
  }

  // ---------------------------------------------------------------- one pass

  function Handle(st: LeaderState, r: Request): Handled {
    var t := st.timeline;
    match r.command
    case AssignId(id) => Handled(st.(timeline := t.(sessionId := Some(id))), t.sessionId != Some(id))
    case Alter(change, effective) =>
      (match Controlled(t, change, effective, r.now)
       case Ok(u) => Handled(st.(timeline := u), true)
       case Err => Handled(st, false))
    case Feed(s) =>
      (match SampleStep(st.tracker, t, s, r.now)
       case Followed(tracker, u, changed) =>
         Handled(st.(timeline := u, tracker := tracker, dirty := true), changed || t.sourceHealth != u.sourceHealth)
       case Refused => Handled(st, false))
    case Unrelated => Handled(st, false)
  }

  function Drained(st: LeaderState, requests: seq<Request>): Handled {
    if requests == [] then Handled(st, false)
    else
      var before := Drained(st, requests[..|requests| - 1]);
      var last := Handle(before.state, requests[|requests| - 1]);
      Handled(last.state, before.publish || last.publish)
  }

  /** Every scheduled control whose time has come replaces the active anchor. */
  function Due(t: Timeline, now: nat): Timeline
    decreases |t.scheduled|
  {
    if t.scheduled != [] && t.scheduled[0].anchor.timeNs <= now then Due(Promoted(t), now) else t
  }

  function HealthNow(st: LeaderState, p: Pass): SourceHealth {
    if st.timeline.sourceKind == Tracked then HealthAt(st.tracker, p.now, p.timeoutNs) else st.timeline.sourceHealth
  }

  function Emit(st: LeaderState, publish: bool): Handled {
    if publish then
      var t := st.timeline.(revision := st.timeline.revision + 1);
      Handled(st.(timeline := t, dirty := false, bytes := ToWire(t)), true)
    else Handled(st, false)
  }

  /** The state and the wish to publish once due controls and source health are settled. */
  function Settle(h: Handled, p: Pass): Handled {
    var t := h.state.timeline;
    var u := Due(t, p.now).(sourceHealth := HealthNow(h.state, p));
    Handled(h.state.(timeline := u), h.publish || |u.scheduled| != |t.scheduled| || u.sourceHealth != t.sourceHealth)
  }

  function Progress(st: LeaderState, p: Pass): Handled {
    var h := Settle(Drained(st, p.requests), p);
    Emit(h.state, h.publish || p.heartbeatDue || (h.state.dirty && p.trackedDue))
  }

  // ---------------------------------------------------------------- numbered schedules

  /** Pending controls are numbered upward from the active discontinuity, in rising time. They
      need not lie beyond the anchor: a sample may have moved it past a control not yet applied. */
  predicate Numbered(t: Timeline) {
    && |t.scheduled| <= 4
    && (forall k :: 0 <= k < |t.scheduled| ==> NumberedEntry(t, k))
    && forall j, k :: 0 <= j < k < |t.scheduled| ==> t.scheduled[j].anchor.timeNs < t.scheduled[k].anchor.timeNs
  }

  predicate NumberedEntry(t: Timeline, k: nat)
    requires k < |t.scheduled|
  {
    t.scheduled[k].discontinuity == t.discontinuity + 1 + k && t.scheduled[k].anchor.timeNs <= I64_MAX
  }

  /** The highest discontinuity in use. */
  function Horizon(t: Timeline): nat {
    t.discontinuity + |t.scheduled|
  }

  lemma IdsNumbered(t: Timeline, id: nat)
    requires Numbered(t)
    ensures id in Ids(t) <==> t.discontinuity <= id <= Horizon(t)
  {
    if t.discontinuity < id <= Horizon(t) {
      assert NumberedEntry(t, id - t.discontinuity - 1);
      assert t.scheduled[id - t.discontinuity - 1] in t.scheduled;
    }
    if id in Reserved(t.scheduled) {
      var s :| s in t.scheduled && s.discontinuity == id;
      var k :| 0 <= k < |t.scheduled| && t.scheduled[k] == s;
      assert NumberedEntry(t, k);
    }
  }

  lemma {:induction false} EffectiveNumbered(t: Timeline, current: Scheduled, i: nat, time: nat)
    requires Numbered(t) && i <= |t.scheduled| && t.discontinuity <= current.discontinuity <= Horizon(t)
    ensures t.discontinuity <= Effective(current, t.scheduled[i..], time).discontinuity <= Horizon(t)
    decreases |t.scheduled| - i
  {
    if i < |t.scheduled| {
      assert NumberedEntry(t, i);
      assert t.scheduled[i..][1..] == t.scheduled[i + 1..];
      EffectiveNumbered(t, if t.scheduled[i].anchor.timeNs <= time then t.scheduled[i] else current, i + 1, time);
    }
  }

  /** A control takes the number after the highest one in use. */
  lemma ControlNumber(t: Timeline, time: nat)
    requires Numbered(t)
    ensures MaxI(MaxI(t.discontinuity, EffectiveAt(t, time).discontinuity), LastReserved(t)) == Horizon(t)
  {
    EffectiveNumbered(t, Active(t), 0, time);
    assert t.scheduled[0..] == t.scheduled;
    if t.scheduled != [] {
      assert NumberedEntry(t, |t.scheduled| - 1);
    }
  }

  lemma {:induction false} NumberedOrdered(t: Timeline, current: Scheduled, i: nat)
    requires Numbered(t) && i <= |t.scheduled|
    requires current.discontinuity == t.discontinuity + i
    requires i < |t.scheduled| ==> current.anchor.timeNs < t.scheduled[i].anchor.timeNs
    ensures Ordered(current, t.scheduled[i..])
    decreases |t.scheduled| - i
  {
    if i < |t.scheduled| {
      assert NumberedEntry(t, i);
      assert t.scheduled[i..][1..] == t.scheduled[i + 1..];
      NumberedOrdered(t, t.scheduled[i], i + 1);
    }
  }

  /** Once nothing is due the anchor is behind every pending control. */
  lemma NothingDueValid(t: Timeline, now: nat)
    requires Numbered(t) && t.anchor.timeNs <= now <= I64_MAX
    requires t.scheduled != [] ==> t.scheduled[0].anchor.timeNs > now
    ensures ValidTimeline(t)
  {
    NumberedOrdered(t, Active(t), 0);
    assert t.scheduled[0..] == t.scheduled;
    forall s | s in t.scheduled ensures s.anchor.timeNs <= I64_MAX {
      var k :| 0 <= k < |t.scheduled| && t.scheduled[k] == s;
      assert NumberedEntry(t, k);
    }
  }

  // ---------------------------------------------------------------- what a control does

  /** At its time a control gives the requested position and rate, or those the old trajectory had
      there. One for a later time than now leaves the trajectory before it as it was; an immediate
      one replaces the anchor and cancels everything pending. */
  lemma ControlTakesEffect(t: Timeline, change: Change, effective: Option<nat>, now: nat, time: nat)
    requires Numbered(t) && Controlled(t, change, effective, now).Ok?
    requires time == if effective.Some? then effective.value else now
    ensures var u := Controlled(t, change, effective, now).value;
            var before, after := EffectiveAt(t, time), EffectiveAt(u, time);
            && after.anchor.timeNs == time
            && after.anchor.rate == (if change.Seek? then before.anchor.rate else change.rate)
            && after.anchor.position == (if change.ToRate? then PositionAt(t, time) else change.position)
            && PositionAt(u, time) == after.anchor.position
            && after.discontinuity == Horizon(u) == Horizon(t) + 1
            && (forall x: nat :: x >= time ==> EffectiveAt(u, x) == after)
            && (time > now ==> forall x: nat :: x < time ==> EffectiveAt(u, x) == EffectiveAt(t, x))
            && (time <= now ==> u.scheduled == [])
            && u == t.(anchor := u.anchor, discontinuity := u.discontinuity, scheduled := u.scheduled)
            && (time > now ==> u.anchor == t.anchor && u.discontinuity == t.discontinuity)
  {
    ControlNumber(t, time);
    var u := Controlled(t, change, effective, now).value;
    if time > now {
      forall x: nat ensures EffectiveAt(u, x) == if x < time then EffectiveAt(t, x) else u.scheduled[|t.scheduled|] {
        EffectiveAppend(Active(t), t.scheduled, u.scheduled[|t.scheduled|], x);
      }
    }
    StandsStill(EffectiveAt(u, time).anchor, t.format);
  }

  /** A control is refused exactly when its time is out of range, or it is for later and four are
      pending already or the last of them is not earlier. */
  lemma ControlRefusedIff(t: Timeline, change: Change, effective: Option<nat>, now: nat, time: nat)
    requires time == if effective.Some? then effective.value else now
    ensures Controlled(t, change, effective, now).Err?
            <==> || time > 0x7fff_ffff_ffff_ffff
                 || (time > now && |t.scheduled| == 4)
                 || (time > now && t.scheduled != [] && t.scheduled[|t.scheduled| - 1].anchor.timeNs >= time)
  {
  }

  /** A control to rate zero holds the position it finds, at every later time up to the next control:
      forever as the timeline stands, and up to its time once a later one is scheduled. */
  lemma PauseHolds(
      t: Timeline, effective: Option<nat>, now: nat, time: nat, x: nat, next: Change, nextTime: nat, later: nat)
    requires Numbered(t) && Controlled(t, ToRate(PAUSED), effective, now).Ok? && time <= x
    requires time == if effective.Some? then effective.value else now
    ensures var u := Controlled(t, ToRate(PAUSED), effective, now).value;
            && PositionAt(u, x) == PositionAt(t, time)
            && (nextTime > later && x < nextTime && Controlled(u, next, Some(nextTime), later).Ok?
                && t.anchor.timeNs <= now <= I64_MAX ==>
                  PositionAt(Controlled(u, next, Some(nextTime), later).value, x) == PositionAt(t, time))
  {
    ControlTakesEffect(t, ToRate(PAUSED), effective, now, time);
    var u := Controlled(t, ToRate(PAUSED), effective, now).value;
    PausedStands(EffectiveAt(u, time).anchor, x, t.format);
    if nextTime > later && x < nextTime && Controlled(u, next, Some(nextTime), later).Ok?
       && t.anchor.timeNs <= now <= I64_MAX {
      ControlSound(t, ToRate(PAUSED), effective, now);
      hide Controlled, AnchorAt, Numbered, EffectiveAt;
      ControlTakesEffect(u, next, Some(nextTime), later, nextTime);
    }
  }

  lemma PausedStands(a: Anchor, x: nat, f: Format)
    requires a.rate == PAUSED
    ensures AnchorAt(a, x, f) == a.position
  {
    var elapsed := ClampI64(x - a.timeNs);
    DeltaIsOneDivision(elapsed, f, a.rate);
    assert Product(elapsed, f, a.rate) == 0;
    AdvanceExact(a.position, elapsed, f, a.rate);
    FixedInjective(a.position);
    FixedInjective(AnchorAt(a, x, f));
  }

  lemma {:induction false} EffectiveAppend(current: Scheduled, scheduled: seq<Scheduled>, s: Scheduled, time: nat)
    ensures Effective(current, scheduled + [s], time)
         == if s.anchor.timeNs <= time then s else Effective(current, scheduled, time)
    decreases scheduled
  {
    if scheduled != [] {
      assert (scheduled + [s])[1..] == scheduled[1..] + [s];
      EffectiveAppend(if scheduled[0].anchor.timeNs <= time then scheduled[0] else current, scheduled[1..], s, time);
    }
  }

  /** At its own time an anchor gives its own position. */
  lemma StandsStill(a: Anchor, f: Format)
    ensures AnchorAt(a, a.timeNs, f) == a.position
  {
    DeltaOdd(0, f, a.rate);
    AdvanceExact(a.position, 0, f, a.rate);
    FixedInjective(a.position);
    FixedInjective(AnchorAt(a, a.timeNs, f));
  }

  // ---------------------------------------------------------------- every pass keeps the schedule

  /** The same source, whose highest discontinuity in use has not fallen. */
  predicate Extends(a: Timeline, b: Timeline) {
    && a.session == b.session && a.format == b.format && a.sourceKind == b.sourceKind
    && a.discontinuity <= b.discontinuity && Horizon(a) <= Horizon(b)
  }

  /** A discontinuous sample cancels pending controls but takes a number only one above the
      active one, below that of a second pending control. */
  predicate DropsReserved(st: LeaderState, r: Request) {
    && r.command.Feed?
    && SampleStep(st.tracker, st.timeline, r.command.sample, r.now).Followed?
    && SampleStep(st.tracker, st.timeline, r.command.sample, r.now).changed
    && |st.timeline.scheduled| >= 2
  }

  /** Only the anchor may have moved. */
  predicate Silent(a: Timeline, b: Timeline) {
    b == a.(anchor := b.anchor)
  }

  predicate HandledWell(st: LeaderState, h: Handled, now: nat) {
    var t, u := st.timeline, h.state.timeline;
    && Numbered(u) && u.anchor.timeNs <= now
    && u.revision == t.revision && h.state.bytes == st.bytes
    && (h.publish || Silent(t, u))
    && (h.publish || h.state.dirty || (u == t && !st.dirty))
    && (st.dirty ==> h.state.dirty)
  }

  /** One command keeps the numbering, and keeps every reserved number covered exactly when
      it is not a discontinuous sample arriving over two or more pending controls. */
  lemma HandleSound(st: LeaderState, r: Request)
    requires Numbered(st.timeline) && st.timeline.anchor.timeNs <= r.now <= I64_MAX
    ensures HandledWell(st, Handle(st, r), r.now)
    ensures Extends(st.timeline, Handle(st, r).state.timeline) <==> !DropsReserved(st, r)
  {
    var t := st.timeline;
    match r.command
    case AssignId(id) =>
      SameNumbering(t, t.(sessionId := Some(id)));
    case Alter(change, effective) =>
      ControlSound(t, change, effective, r.now);
    case Feed(s) =>
      hide Speculated, SourceError, ChooseRate, Jumps, Nudged;
      if SampleStep(st.tracker, t, s, r.now).Followed? && !SampleStep(st.tracker, t, s, r.now).changed {
        RoutineSample(st.tracker, t, s, r.now);
        SameNumbering(t, SampleStep(st.tracker, t, s, r.now).timeline);
      }
    case Unrelated =>
  }

  lemma SameNumbering(t: Timeline, u: Timeline)
    requires Numbered(t) && u.scheduled == t.scheduled && u.discontinuity == t.discontinuity
    ensures Numbered(u)
  {
    forall k | 0 <= k < |u.scheduled| ensures NumberedEntry(u, k) {
      assert NumberedEntry(t, k);
    }
  }

  lemma ControlSound(t: Timeline, change: Change, effective: Option<nat>, now: nat)
    requires Numbered(t) && t.anchor.timeNs <= now <= I64_MAX
    ensures var r := Controlled(t, change, effective, now);
            r.Ok? ==> && Numbered(r.value) && Extends(t, r.value)
                      && r.value.anchor.timeNs <= now && r.value.revision == t.revision
  {
    var r := Controlled(t, change, effective, now);
    if r.Ok? {
      ControlNumber(t, if effective.Some? then effective.value else now);
      hide Effective;
      forall k | 0 <= k < |r.value.scheduled| ensures NumberedEntry(r.value, k) {
        assert k < |t.scheduled| ==> NumberedEntry(t, k);
      }
    }
  }

  /** Requests handled in the order of their clock readings, all within a span of time. */
  predicate Timed(requests: seq<Request>, from: nat, to: nat) {
    if requests == [] then from <= to
    else
      var last := requests[|requests| - 1];
      Timed(requests[..|requests| - 1], from, last.now) && last.now <= to
  }

  /** No discontinuous sample finds two or more controls pending. */
  predicate Orderly(st: LeaderState, requests: seq<Request>) {
    requests == []
    || (&& Orderly(st, requests[..|requests| - 1])
        && !DropsReserved(Drained(st, requests[..|requests| - 1]).state, requests[|requests| - 1]))
  }

  lemma {:induction false} TimedForward(requests: seq<Request>, from: nat, to: nat)
    requires Timed(requests, from, to)
    ensures from <= to
  {
    if requests != [] {
      TimedForward(requests[..|requests| - 1], from, requests[|requests| - 1].now);
    }
  }

  lemma {:induction false} DrainSound(st: LeaderState, requests: seq<Request>, from: nat, to: nat)
    requires Numbered(st.timeline) && st.timeline.anchor.timeNs <= from && to <= I64_MAX
    requires Timed(requests, from, to)
    ensures HandledWell(st, Drained(st, requests), to)
    ensures Orderly(st, requests) ==> Extends(st.timeline, Drained(st, requests).state.timeline)
  {
    TimedForward(requests, from, to);
    if requests != [] {
      var front, last := requests[..|requests| - 1], requests[|requests| - 1];
      DrainSound(st, front, from, last.now);
      HandleSound(Drained(st, front).state, last);
      hide Handle, DropsReserved, Numbered;
    }
  }

  /** Applying what is due keeps the numbering and leaves nothing due. */
  lemma {:induction false} DueSound(t: Timeline, now: nat)
    requires Numbered(t) && t.anchor.timeNs <= now <= I64_MAX
    ensures var u := Due(t, now);
            && ValidTimeline(u) && Numbered(u) && u.anchor.timeNs <= now
            && Extends(t, u) && Horizon(u) == Horizon(t) && u.revision == t.revision
            && |u.scheduled| <= |t.scheduled|
            && (|u.scheduled| == |t.scheduled| ==> u == t)
            && (forall s <- u.scheduled :: s.anchor.timeNs > now)
            && u == t.(anchor := u.anchor, discontinuity := u.discontinuity, scheduled := u.scheduled)
    decreases |t.scheduled|
  {
    hide Numbered, ValidTimeline;
    if t.scheduled != [] && t.scheduled[0].anchor.timeNs <= now {
      PromotedNumbered(t);
      PromotedEarlier(t, now);
      DueSound(Promoted(t), now);
    } else {
      NothingDueValid(t, now);
      LaterStill(t, now);
    }
  }

  lemma PromotedEarlier(t: Timeline, now: nat)
    requires t.scheduled != [] && t.scheduled[0].anchor.timeNs <= now
    ensures Promoted(t).anchor.timeNs <= now && |Promoted(t).scheduled| < |t.scheduled|
    ensures Due(t, now) == Due(Promoted(t), now)
  {
  }

  lemma PromotedNumbered(t: Timeline)
    requires Numbered(t) && t.scheduled != []
    ensures Numbered(Promoted(t)) && Extends(t, Promoted(t)) && Horizon(Promoted(t)) == Horizon(t)
  {
    var p := Promoted(t);
    assert NumberedEntry(t, 0);
    forall k | 0 <= k < |p.scheduled| ensures NumberedEntry(p, k) {
      assert NumberedEntry(t, k + 1);
    }
  }

  lemma LaterStill(t: Timeline, now: nat)
    requires Numbered(t) && (t.scheduled != [] ==> t.scheduled[0].anchor.timeNs > now)
    ensures forall s <- t.scheduled :: s.anchor.timeNs > now
  {
  }

  /** Between passes: what peers are sent is the timeline itself, or the timeline up to an
      anchor moved by routine samples, and then the state is marked dirty. */
  ghost predicate Leading(st: LeaderState, clock: nat) {
    && ValidTimeline(st.timeline) && Numbered(st.timeline)
    && st.timeline.anchor.timeNs <= clock && st.timeline.revision >= 1
    && FromWire(st.bytes).Ok?
    && Silent(FromWire(st.bytes).value, st.timeline)
    && (st.dirty || FromWire(st.bytes).value == st.timeline)
  }

  lemma SettleSound(st: LeaderState, h: Handled, p: Pass)
    requires HandledWell(st, h, p.now) && p.now <= I64_MAX
    ensures HandledWell(st, Settle(h, p), p.now) && ValidTimeline(Settle(h, p).state.timeline)
    ensures forall s <- Settle(h, p).state.timeline.scheduled :: s.anchor.timeNs > p.now
    ensures Extends(h.state.timeline, Settle(h, p).state.timeline)
  {
    var u, health := Due(h.state.timeline, p.now), HealthNow(h.state, p);
    DueSound(h.state.timeline, p.now);
    SameNumbering(u, u.(sourceHealth := health));
    hide Due, Numbered, HealthNow, Ordered;
  }

  lemma EmitSound(st: LeaderState, h: Handled, publish: bool, now: nat)
    requires Leading(st, now) && HandledWell(st, h, now) && ValidTimeline(h.state.timeline)
    requires publish <== h.publish
    ensures var e := Emit(h.state, publish);
            && Leading(e.state, now) && e.publish == publish
            && e.state.timeline == h.state.timeline.(revision := e.state.timeline.revision)
            && (publish ==> && e.state.timeline.revision == st.timeline.revision + 1
                            && SnapshotValid(e.state.bytes)
                            && FromWire(e.state.bytes) == Ok(e.state.timeline))
            && (!publish ==> e.state.bytes == st.bytes && e.state.timeline.revision == st.timeline.revision)
  {
    hide Numbered, FromWire, ToWire, ValidTimeline, SnapshotValid;
    if publish {
      NextRevision(h.state.timeline);
    }
  }

  lemma NextRevision(t: Timeline)
    requires ValidTimeline(t) && Numbered(t)
    ensures var u := t.(revision := t.revision + 1);
            && ValidTimeline(u) && Numbered(u)
            && SnapshotValid(ToWire(u)) && FromWire(ToWire(u)) == Ok(u)
  {
    var u := t.(revision := t.revision + 1);
    SameNumbering(t, u);
    assert Active(u) == Active(t);
    WireRoundTrip(u);
    hide Numbered, FromWire, ToWire, SnapshotValid;
  }

  /** One pass publishes exactly when it says so; a published timeline is valid, passes the
      receivers' validation, decodes to itself and carries the next revision. */
  lemma PassSound(st: LeaderState, p: Pass, clock: nat)
    requires Leading(st, clock) && Timed(p.requests, clock, p.now) && p.now <= I64_MAX
    ensures var h := Progress(st, p);
            && Leading(h.state, p.now)
            && (h.publish ==> && h.state.timeline.revision == st.timeline.revision + 1
                              && SnapshotValid(h.state.bytes)
                              && FromWire(h.state.bytes) == Ok(h.state.timeline))
            && (!h.publish ==> h.state.bytes == st.bytes && h.state.timeline.revision == st.timeline.revision)
            && (forall s <- h.state.timeline.scheduled :: s.anchor.timeNs > p.now)
    ensures Orderly(st, p.requests) ==> Extends(st.timeline, Progress(st, p).state.timeline)
  {
    TimedForward(p.requests, clock, p.now);
    DrainSound(st, p.requests, clock, p.now);
    var h := Settle(Drained(st, p.requests), p);
    SettleSound(st, Drained(st, p.requests), p);
    EmitSound(st, h, h.publish || p.heartbeatDue || (h.state.dirty && p.trackedDue), p.now);
    hide Drained, Settle, Emit, Numbered, Timed, Orderly, FromWire, SnapshotValid, ValidTimeline;
  }

  /** Peers are sent the timeline as it stands after every pass in which the heartbeat is due, or the
      tracked interval is; with the heartbeat, or whenever what they had was not the timeline, that
      takes a new revision. */
  lemma PassKeepsUp(st: LeaderState, p: Pass, clock: nat)
    requires Leading(st, clock) && Timed(p.requests, clock, p.now) && p.now <= I64_MAX
    requires p.heartbeatDue || p.trackedDue
    ensures var h := Progress(st, p);
            && FromWire(h.state.bytes) == Ok(h.state.timeline)
            && (p.heartbeatDue || FromWire(st.bytes) != Ok(h.state.timeline) ==>
                  h.publish && h.state.timeline.revision == st.timeline.revision + 1)
  {
    PassSound(st, p, clock);
    TimedForward(p.requests, clock, p.now);
    DrainSound(st, p.requests, clock, p.now);
    SettleSound(st, Drained(st, p.requests), p);
    hide Drained, Settle, Numbered, Timed, FromWire, ToWire, SnapshotValid, ValidTimeline;
  }

  /** A command without effect: none, the identity there is already, a control that is too late to
      add or out of range, or a sample that is not wanted, not yet due or not new. */
  predicate Idle(st: LeaderState, r: Request) {
    var t := st.timeline;
    match r.command
    case Unrelated => true
    case AssignId(id) => t.sessionId == Some(id)
    case Alter(_, effective) =>
      effective.Some?
      && (|| effective.value > 0x7fff_ffff_ffff_ffff
          || (effective.value > r.now && |t.scheduled| == 4)
          || (effective.value > r.now && t.scheduled != []
              && t.scheduled[|t.scheduled| - 1].anchor.timeNs >= effective.value))
    case Feed(s) =>
      || t.sourceKind != Tracked || s.timestampNs > r.now
      || (st.tracker.last.Some? && s.timestampNs <= st.tracker.last.value.timestampNs)
  }

  lemma IdleHandle(st: LeaderState, r: Request)
    requires Idle(st, r)
    ensures Handle(st, r) == Handled(st, false)
  {
    hide ChooseRate, SourceError, Jumps, Nudged, JumpCount, Effective, AnchorAt;
  }

  lemma {:induction false} IdleDrain(st: LeaderState, requests: seq<Request>)
    requires forall r <- requests :: Idle(st, r)
    ensures Drained(st, requests) == Handled(st, false)
  {
    hide Handle, Idle;
    if requests != [] {
      var last := requests[|requests| - 1];
      IdleDrain(st, requests[..|requests| - 1]);
      assert last in requests;
      IdleHandle(st, last);
    }
  }

  /** A pass with nothing to do publishes nothing and changes nothing. */
  lemma PassStaysQuiet(st: LeaderState, p: Pass)
    requires (forall r <- p.requests :: Idle(st, r)) && !p.heartbeatDue && !(st.dirty && p.trackedDue)
    requires st.timeline.scheduled != [] ==> st.timeline.scheduled[0].anchor.timeNs > p.now
    requires st.timeline.sourceKind == Tracked ==>
               (st.timeline.sourceHealth == Healthy
                <==> st.tracker.last.Some? && p.now <= st.tracker.last.value.timestampNs + p.timeoutNs)
    ensures Progress(st, p) == Handled(st, false)
  {
    IdleDrain(st, p.requests);
    hide ToWire, Drained, Idle;
  }

  /** Applying due controls changes neither the kind of source nor its health. */
  lemma {:induction false} KindKept(t: Timeline, now: nat)
    ensures Due(t, now).sourceKind == t.sourceKind && Due(t, now).sourceHealth == t.sourceHealth
    decreases |t.scheduled|
  {
    if t.scheduled != [] && t.scheduled[0].anchor.timeNs <= now {
      KindKept(Promoted(t), now);
    }
  }

  // ---------------------------------------------------------------- runs

  function Beginning(session: Id16, id: Id16, format: Format, kind: SourceKind, position: Pos, rate: Speed,
                     now: nat): Timeline
  {
    Timeline(session, Some(id), 1, 0, format, Anchor(now, position, rate),
             kind, if kind == Tracked then Degraded else Healthy, [])
  }

  function Started(session: Id16, id: Id16, format: Format, kind: SourceKind, position: Pos, rate: Speed,
                   now: nat): LeaderState
  {
    var t := Beginning(session, id, format, kind, position, rate, now);
    LeaderState(t, IDLE, false, ToWire(t))
  }

  function StateAfter(st: LeaderState, passes: seq<Pass>): LeaderState {
    if passes == [] then st else Progress(StateAfter(st, passes[..|passes| - 1]), passes[|passes| - 1]).state
  }

  /** Every timeline sent to peers over a run, the initial one first. */
  function Published(st: LeaderState, passes: seq<Pass>): seq<Timeline> {
    if passes == [] then [st.timeline]
    else
      var front, last := passes[..|passes| - 1], passes[|passes| - 1];
      var h := Progress(StateAfter(st, front), last);
      Published(st, front) + (if h.publish then [h.state.timeline] else [])
  }

  function ClockAfter(start: nat, passes: seq<Pass>): nat {
    if passes == [] then start else passes[|passes| - 1].now
  }

  /** The monotonic clock: passes and the requests in them follow one another in time. */
  predicate InTime(passes: seq<Pass>, start: nat) {
    passes == []
    || (var front, last := passes[..|passes| - 1], passes[|passes| - 1];
        InTime(front, start) && Timed(last.requests, ClockAfter(start, front), last.now) && last.now <= I64_MAX)
  }

  predicate AllOrderly(st: LeaderState, passes: seq<Pass>) {
    passes == []
    || (var front, last := passes[..|passes| - 1], passes[|passes| - 1];
        AllOrderly(st, front) && Orderly(StateAfter(st, front), last.requests))
  }

  lemma StartedLeading(session: Id16, id: Id16, format: Format, kind: SourceKind, position: Pos, rate: Speed, now: nat)
    requires now <= I64_MAX
    ensures Leading(Started(session, id, format, kind, position, rate, now), now)
  {
    WireRoundTrip(Beginning(session, id, format, kind, position, rate, now));
    hide FromWire, ToWire;
  }

  predicate Publishable(t: Timeline, revision: nat) {
    && ValidTimeline(t) && Numbered(t) && t.revision == revision
    && SnapshotValid(ToWire(t)) && FromWire(ToWire(t)) == Ok(t)
  }

  /** Over any run of a leader mixing immediate, scheduled and tracked inputs: the published
      timelines carry revisions 1, 2, 3, ..., and each is valid and survives the wire. */
  lemma {:induction false} EveryPublishSound(st: LeaderState, passes: seq<Pass>, start: nat)
    requires Leading(st, start) && st.timeline.revision == 1 && InTime(passes, start)
    ensures Leading(StateAfter(st, passes), ClockAfter(start, passes))
    ensures StateAfter(st, passes).timeline.revision == |Published(st, passes)|
    ensures forall i :: 0 <= i < |Published(st, passes)| ==> Publishable(Published(st, passes)[i], i + 1)
  {
    if passes == [] {
      WireRoundTrip(st.timeline);
    } else {
      var front, last := passes[..|passes| - 1], passes[|passes| - 1];
      EveryPublishSound(st, front, start);
      PassSound(StateAfter(st, front), last, ClockAfter(start, front));
      var h := Progress(StateAfter(st, front), last);
      if h.publish {
        WireRoundTrip(h.state.timeline);
      }
      hide Progress, Timed, FromWire, ToWire, SnapshotValid, ValidTimeline, Numbered;
    }
  }

  /** Over every run: what peers have differs from the leader's timeline in the anchor only, and not
      even there once the latest pass had its tracked interval or its heartbeat due. */
  lemma {:induction false} PeersKeepUp(st: LeaderState, passes: seq<Pass>, start: nat)
    requires Leading(st, start) && st.timeline.revision == 1 && InTime(passes, start)
    ensures var now := StateAfter(st, passes);
            && FromWire(now.bytes).Ok?
            && var had := FromWire(now.bytes).value;
               && now.timeline == had.(anchor := now.timeline.anchor)
               && (passes != [] && (passes[|passes| - 1].trackedDue || passes[|passes| - 1].heartbeatDue) ==>
                     had == now.timeline)
  {
    EveryPublishSound(st, passes, start);
    if passes != [] {
      var front, last := passes[..|passes| - 1], passes[|passes| - 1];
      EveryPublishSound(st, front, start);
      if last.trackedDue || last.heartbeatDue {
        PassKeepsUp(StateAfter(st, front), last, ClockAfter(start, front));
      }
    }
    hide Progress, Timed, FromWire, ToWire, ValidTimeline, Numbered;
  }
}
