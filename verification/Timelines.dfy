/** Timestamped trajectories with scheduled replacements, and their wire form. */
module Timelines {
  import opened Arithmetic
  import opened Timecode

  // The source's private fields make only checked values of these types possible.
  type Format = f: FrameFormat | Supported(f) witness FrameFormat(30, 1, false)
  type Speed = r: Rate | ValidRate(r) witness PAUSED
  type Pos = p: Position | ValidPosition(p) witness Position(0, 0)

  function RateValue(r: Speed): real {
    r.numerator as real / r.denominator as real
  }

  type Id16 = s: seq<Byte> | |s| == 16 witness [0, 0, 0, 0, 0, 0, 0, 0, 0, 0, 0, 0, 0, 0, 0, 0]

  datatype SourceKind = Generated | Tracked

  datatype SourceHealth = Healthy | Degraded

  datatype Anchor = Anchor(timeNs: nat, position: Pos, rate: Speed)

  datatype Scheduled = Scheduled(discontinuity: nat, anchor: Anchor)

  /** `scheduled` is the live part of the source's four slots, oldest first. */
  datatype Timeline = Timeline(
    session: Id16,
    sessionId: Option<Id16>,
    revision: nat,
    discontinuity: nat,
    format: Format,
    anchor: Anchor,
    sourceKind: SourceKind,
    sourceHealth: SourceHealth,
    scheduled: seq<Scheduled>)

  // ---------------------------------------------------------------- evaluation

  function ClampI64(x: int): int {
    if x < I64_MIN then I64_MIN else if x > I64_MAX then I64_MAX else x
  }

  function AnchorAt(a: Anchor, time: nat, f: Format): Pos {
    AdvanceExact(a.position, ClampI64(time - a.timeNs), f, a.rate);
    Advance(a.position, ClampI64(time - a.timeNs), f, a.rate)
  }

  function Active(t: Timeline): Scheduled {
    Scheduled(t.discontinuity, t.anchor)
  }

  /** The last entry, in schedule order, whose time has come. */
  function Effective(current: Scheduled, scheduled: seq<Scheduled>, time: nat): Scheduled
    decreases scheduled
  {
    if scheduled == [] then current
    else Effective(if scheduled[0].anchor.timeNs <= time then scheduled[0] else current, scheduled[1..], time)
  }

  function EffectiveAt(t: Timeline, time: nat): Scheduled {
    Effective(Active(t), t.scheduled, time)
  }

  function PositionAt(t: Timeline, time: nat): Pos {
    AnchorAt(EffectiveAt(t, time).anchor, time, t.format)
  }

  /** `Timeline::at`. */
  method At(t: Timeline, time: nat) returns (position: Pos, rate: Speed, discontinuity: nat)
    ensures position == PositionAt(t, time)
    ensures rate == EffectiveAt(t, time).anchor.rate && discontinuity == EffectiveAt(t, time).discontinuity
  {
    var a, d := t.anchor, t.discontinuity;
    var i := 0;
    while i < |t.scheduled|
      invariant 0 <= i <= |t.scheduled|
      invariant Effective(Scheduled(d, a), t.scheduled[i..], time) == EffectiveAt(t, time)
    {
      var s := t.scheduled[i];
      assert t.scheduled[i..][1..] == t.scheduled[i + 1..];
      if s.anchor.timeNs <= time {
        a, d := s.anchor, s.discontinuity;
      }
      i := i + 1;
    }
    return AnchorAt(a, time, t.format), a.rate, d;
  }

  /** Makes every scheduled entry up to a discontinuity the active one. */
  function Latched(t: Timeline, discontinuity: nat): Timeline
    decreases |t.scheduled|
  {
    if t.scheduled == [] || t.scheduled[0].discontinuity > discontinuity then t
    else Latched(Promoted(t), discontinuity)
  }

  /** The first scheduled entry becomes the active one. */
  function Promoted(t: Timeline): Timeline
    requires t.scheduled != []
  {
    t.(anchor := t.scheduled[0].anchor, discontinuity := t.scheduled[0].discontinuity, scheduled := t.scheduled[1..])
  }

  /** `Timeline::latch`. */
  method Latch(t: Timeline, discontinuity: nat) returns (r: Timeline)
    ensures r == Latched(t, discontinuity)
  {
    r := t;
    while r.scheduled != [] && r.scheduled[0].discontinuity <= discontinuity
      invariant Latched(r, discontinuity) == Latched(t, discontinuity)
      decreases |r.scheduled|
    {
      var next := r.scheduled[0];
      r := r.(anchor := next.anchor, discontinuity := next.discontinuity, scheduled := r.scheduled[1..]);
    }
  }

  // ---------------------------------------------------------------- ordered schedules

  /** Times and discontinuities rise strictly, from the current entry on. */
  predicate Ordered(current: Scheduled, scheduled: seq<Scheduled>)
    decreases scheduled
  {
    scheduled == []
    || (&& current.anchor.timeNs < scheduled[0].anchor.timeNs
        && current.discontinuity < scheduled[0].discontinuity
        && Ordered(scheduled[0], scheduled[1..]))
  }

  predicate ValidTimeline(t: Timeline) {
    && Ordered(Active(t), t.scheduled) && |t.scheduled| <= 4
    && t.anchor.timeNs <= I64_MAX
    && forall s <- t.scheduled :: s.anchor.timeNs <= I64_MAX
  }

  /** Discontinuities a timeline uses: its active one and the reserved ones. */
  ghost function Ids(t: Timeline): set<nat> {
    {t.discontinuity} + Reserved(t.scheduled)
  }

  ghost function Reserved(scheduled: seq<Scheduled>): set<nat> {
    set s | s in scheduled :: s.discontinuity
  }

  lemma {:induction false} OrderedAbove(current: Scheduled, scheduled: seq<Scheduled>, s: Scheduled)
    requires Ordered(current, scheduled) && s in scheduled
    ensures s.anchor.timeNs > current.anchor.timeNs && s.discontinuity > current.discontinuity
    decreases scheduled
  {
    if s != scheduled[0] {
      assert scheduled == [scheduled[0]] + scheduled[1..];
      OrderedAbove(scheduled[0], scheduled[1..], s);
    }
  }

  lemma ReservedHead(scheduled: seq<Scheduled>)
    requires scheduled != []
    ensures Reserved(scheduled) == {scheduled[0].discontinuity} + Reserved(scheduled[1..])
  {
    assert scheduled == [scheduled[0]] + scheduled[1..];
    forall id | id in Reserved(scheduled) ensures id in {scheduled[0].discontinuity} + Reserved(scheduled[1..]) {
      var s :| s in scheduled && s.discontinuity == id;
      assert s == scheduled[0] || s in scheduled[1..];
    }
  }

  /** In an ordered schedule the effective entry is the current one or a scheduled one whose
      time has come, and every entry that has come is no later than it. */
  lemma {:induction false} EffectiveSound(current: Scheduled, scheduled: seq<Scheduled>, time: nat)
    requires Ordered(current, scheduled)
    ensures var e := Effective(current, scheduled, time);
            && (e == current || (e in scheduled && e.anchor.timeNs <= time))
            && e.discontinuity >= current.discontinuity
            && (forall s <- scheduled :: s.anchor.timeNs <= time <==> s.discontinuity <= e.discontinuity)
    decreases scheduled
  {
    if scheduled != [] {
      var head, rest := scheduled[0], scheduled[1..];
      assert scheduled == [head] + rest;
      if head.anchor.timeNs <= time {
        EffectiveSound(head, rest, time);
      } else {
        NothingDue(current, scheduled, time);
        forall s <- scheduled ensures s.anchor.timeNs > time && s.discontinuity > current.discontinuity {
          OrderedAbove(current, scheduled, s);
          if s != head {
            OrderedAbove(head, rest, s);
          }
        }
      }
    }
  }

  lemma {:induction false} NothingDue(current: Scheduled, scheduled: seq<Scheduled>, time: nat)
    requires scheduled != [] ==> scheduled[0].anchor.timeNs > time && Ordered(scheduled[0], scheduled[1..])
    ensures Effective(current, scheduled, time) == current
    decreases scheduled
  {
    if scheduled != [] {
      NothingDue(current, scheduled[1..], time);
    }
  }

  /** Latching keeps the order, removes exactly the entries up to the bound, and moves the
      active discontinuity as far as the bound reaches into the schedule. */
  lemma {:induction false} LatchedSound(t: Timeline, d: nat)
    requires ValidTimeline(t)
    ensures var r := Latched(t, d);
            && ValidTimeline(r)
            && r == t.(anchor := r.anchor, discontinuity := r.discontinuity, scheduled := r.scheduled)
            && t.discontinuity <= r.discontinuity <= MaxI(t.discontinuity, d)
            && r.anchor.timeNs >= t.anchor.timeNs
            && (Active(r) == Active(t) || Active(r) in t.scheduled)
            && (d in Ids(t) && d >= t.discontinuity ==> r.discontinuity == d)
            && Reserved(r.scheduled) == (set id | id in Reserved(t.scheduled) && id > d)
    decreases |t.scheduled|
  {
    if t.scheduled == [] {
    } else if t.scheduled[0].discontinuity > d {
      forall id | id in Reserved(t.scheduled) ensures id > d {
        var s :| s in t.scheduled && s.discontinuity == id;
        ReservedHead(t.scheduled);
        if s != t.scheduled[0] {
          assert t.scheduled == [t.scheduled[0]] + t.scheduled[1..];
          OrderedAbove(t.scheduled[0], t.scheduled[1..], s);
        }
      }
    } else {
      var p := Promoted(t);
      assert t.scheduled == [t.scheduled[0]] + t.scheduled[1..];
      ReservedHead(t.scheduled);
      LatchedSound(p, d);
    }
  }

  /** Latching up to a discontinuity already effective at a time changes nothing at it. */
  lemma {:induction false} LatchedAgrees(t: Timeline, d: nat, time: nat)
    requires ValidTimeline(t) && d <= MaxI(t.discontinuity, EffectiveAt(t, time).discontinuity)
    ensures EffectiveAt(Latched(t, d), time) == EffectiveAt(t, time)
    decreases |t.scheduled|
  {
    if t.scheduled != [] && t.scheduled[0].discontinuity <= d {
      EffectiveSound(Active(t), t.scheduled, time);
      assert t.scheduled[0] in t.scheduled;
      assert t.scheduled == [t.scheduled[0]] + t.scheduled[1..];
      assert Active(Promoted(t)) == t.scheduled[0];
      LatchedAgrees(Promoted(t), d, time);
    }
  }

  /** A latched timeline agrees with the original at every time from its own anchor on. */
  lemma {:induction false} LatchedAgreesFromAnchor(t: Timeline, d: nat, time: nat)
    requires ValidTimeline(t) && time >= Latched(t, d).anchor.timeNs
    ensures EffectiveAt(Latched(t, d), time) == EffectiveAt(t, time)
    decreases |t.scheduled|
  {
    if t.scheduled != [] && t.scheduled[0].discontinuity <= d {
      var p := Promoted(t);
      assert t.scheduled == [t.scheduled[0]] + t.scheduled[1..];
      LatchedSound(p, d);
      LatchedAgreesFromAnchor(p, d, time);
    }
  }

  lemma {:induction false} LatchedTwice(t: Timeline, a: nat, b: nat)
    ensures Latched(Latched(t, a), b) == Latched(t, MaxI(a, b))
    decreases |t.scheduled|
  {
    if t.scheduled != [] && t.scheduled[0].discontinuity <= a {
      LatchedTwice(Promoted(t), a, b);
    }
  }

  // ---------------------------------------------------------------- wire messages

  datatype WireRate = WireRate(numerator: int, denominator: nat)

  datatype WireFormat = WireFormat(numerator: nat, denominator: nat, dropFrame: bool)

  datatype WireAnchor = WireAnchor(timeNs: nat, position: Option<Pos>, rate: Option<WireRate>)

  datatype WireScheduled = WireScheduled(discontinuity: nat, anchor: Option<WireAnchor>)

  datatype Snapshot = Snapshot(
    version: nat,
    session: seq<Byte>,
    revision: nat,
    discontinuity: nat,
    sourceKind: int,
    sourceHealth: int,
    format: Option<WireFormat>,
    anchor: Option<WireAnchor>,
    scheduled: seq<WireScheduled>,
    sessionId: seq<Byte>)

  function AnchorToWire(a: Anchor): WireAnchor {
    WireAnchor(a.timeNs, Some(a.position), Some(WireRate(a.rate.numerator, a.rate.denominator)))
  }

  function ScheduledToWire(s: Scheduled): WireScheduled {
    WireScheduled(s.discontinuity, Some(AnchorToWire(s.anchor)))
  }

  function ToWire(t: Timeline): Snapshot {
    Snapshot(1, t.session, t.revision, t.discontinuity,
             match t.sourceKind case Generated => 1 case Tracked => 2,
             match t.sourceHealth case Healthy => 1 case Degraded => 2,
             Some(WireFormat(t.format.numerator, t.format.denominator, t.format.dropFrame)),
             Some(AnchorToWire(t.anchor)),
             seq(|t.scheduled|, i requires 0 <= i < |t.scheduled| => ScheduledToWire(t.scheduled[i])),
             if t.sessionId.Some? then t.sessionId.value else [])
  }

  predicate WireAnchorValid(a: WireAnchor) {
    && a.timeNs <= I64_MAX
    && a.position.Some?
    && a.rate.Some? && RateInBounds(a.rate.value.numerator, a.rate.value.denominator)
  }

  /** What a receiver requires of a snapshot. */
  predicate SnapshotValid(s: Snapshot) {
    && HeaderValid(s)
    && |s.scheduled| <= 4
    && forall i :: 0 <= i < |s.scheduled| ==> EntryValid(s, i)
  }

  /** A scheduled entry is complete and comes after the one before it, in time and identity. */
  predicate EntryValid(s: Snapshot, i: nat)
    requires s.anchor.Some? && i < |s.scheduled|
  {
    var c := s.scheduled[i];
    && c.anchor.Some? && WireAnchorValid(c.anchor.value)
    && TimeBefore(s, i) < c.anchor.value.timeNs && IdBefore(s, i) < c.discontinuity
  }

  predicate HeaderValid(s: Snapshot) {
    && s.version == 1
    && |s.session| == 16 && s.revision != 0
    && (s.sessionId == [] || |s.sessionId| == 16)
    && s.sourceKind in {1, 2} && s.sourceHealth in {1, 2}
    && s.format.Some?
    && NewFormat(s.format.value.numerator, s.format.value.denominator, s.format.value.dropFrame).Ok?
    && s.anchor.Some? && WireAnchorValid(s.anchor.value)
  }

  function TimeBefore(s: Snapshot, i: nat): nat
    requires s.anchor.Some? && i <= |s.scheduled|
  {
    var before := if i == 0 then s.anchor else s.scheduled[i - 1].anchor;
    if before.Some? then before.value.timeNs else 0
  }

  function IdBefore(s: Snapshot, i: nat): nat
    requires i <= |s.scheduled|
  {
    if i == 0 then s.discontinuity else s.scheduled[i - 1].discontinuity
  }

  /** `validate_snapshot`: one pass carrying the last time and discontinuity. */
  method ValidateSnapshot(s: Snapshot) returns (ok: bool)
    ensures ok <==> SnapshotValid(s)
  {
    if !HeaderValid(s) || |s.scheduled| > 4 {
      return false;
    }
    var time, disc := s.anchor.value.timeNs, s.discontinuity;
    var i := 0;
    while i < |s.scheduled|
      invariant 0 <= i <= |s.scheduled|
      invariant forall j :: 0 <= j < i ==> EntryValid(s, j)
      invariant time == TimeBefore(s, i) && disc == IdBefore(s, i)
    {
      var c := s.scheduled[i];
      if c.anchor.None? || !WireAnchorValid(c.anchor.value) {
        assert !EntryValid(s, i);
        return false;
      }
      var a := c.anchor.value;
      if a.timeNs <= time || c.discontinuity <= disc {
        assert !EntryValid(s, i);
        return false;
      }
      time, disc := a.timeNs, c.discontinuity;
      i := i + 1;
    }
    return true;
  }

  function AnchorFromWire(a: WireAnchor): Anchor
    requires WireAnchorValid(a)
  {
    ReducedRateSound(a.rate.value.numerator, a.rate.value.denominator);
    Anchor(a.timeNs, a.position.value, ReducedRate(a.rate.value.numerator, a.rate.value.denominator).value)
  }

  function ScheduledFromWire(c: WireScheduled): Scheduled
    requires c.anchor.Some? && WireAnchorValid(c.anchor.value)
  {
    Scheduled(c.discontinuity, AnchorFromWire(c.anchor.value))
  }

  function FromWire(s: Snapshot): Result<Timeline> {
    if !SnapshotValid(s) then Err
    else
      var f := s.format.value;
      Ok(Timeline(s.session,
                  if |s.sessionId| == 16 then Some(s.sessionId) else None,
                  s.revision, s.discontinuity,
                  FrameFormat(f.numerator, f.denominator, f.dropFrame),
                  AnchorFromWire(s.anchor.value),
                  if s.sourceKind == 1 then Generated else Tracked,
                  if s.sourceHealth == 1 then Healthy else Degraded,
                  seq(|s.scheduled|,
                      i requires 0 <= i < |s.scheduled| && EntryValid(s, i) => ScheduledFromWire(s.scheduled[i]))))
  }

  /** Everything decoded is an ordered timeline of a positive revision. */
  lemma DecodedValid(s: Snapshot)
    requires FromWire(s).Ok?
    ensures ValidTimeline(FromWire(s).value) && FromWire(s).value.revision >= 1
  {
    var t := FromWire(s).value;
    DecodedOrdered(s, t, 0);
    assert t.scheduled[0..] == t.scheduled;
  }

  lemma {:induction false} DecodedOrdered(s: Snapshot, t: Timeline, i: nat)
    requires FromWire(s) == Ok(t) && i <= |t.scheduled|
    ensures Ordered(if i == 0 then Active(t) else t.scheduled[i - 1], t.scheduled[i..])
    decreases |t.scheduled| - i
  {
    if i < |t.scheduled| {
      DecodedOrdered(s, t, i + 1);
      assert t.scheduled[i..][1..] == t.scheduled[i + 1..];
      assert EntryValid(s, i);
      assert i > 0 ==> EntryValid(s, i - 1);
    }
  }

  /** An ordered timeline of a positive revision passes validation and decodes to itself. */
  lemma WireRoundTrip(t: Timeline)
    requires ValidTimeline(t) && t.revision >= 1
    ensures SnapshotValid(ToWire(t)) && FromWire(ToWire(t)) == Ok(t)
  {
    var w := ToWire(t);
    AnchorRoundTrip(t.anchor);
    forall i | 0 <= i < |t.scheduled|
      ensures EntryValid(w, i) && ScheduledFromWire(w.scheduled[i]) == t.scheduled[i]
    {
      assert t.scheduled[i] in t.scheduled;
      AnchorRoundTrip(t.scheduled[i].anchor);
      OrderedStep(Active(t), t.scheduled, i);
    }
    assert FromWire(w).value.scheduled == t.scheduled;
  }

  lemma AnchorRoundTrip(a: Anchor)
    requires a.timeNs <= I64_MAX
    ensures WireAnchorValid(AnchorToWire(a)) && AnchorFromWire(AnchorToWire(a)) == a
  {
    ReduceReduced(a.rate);
  }

  lemma {:induction false} OrderedStep(current: Scheduled, scheduled: seq<Scheduled>, i: nat)
    requires Ordered(current, scheduled) && i < |scheduled|
    ensures var before := if i == 0 then current else scheduled[i - 1];
            before.anchor.timeNs < scheduled[i].anchor.timeNs && before.discontinuity < scheduled[i].discontinuity
    decreases scheduled
  {
    if i > 0 {
      OrderedStep(scheduled[0], scheduled[1..], i - 1);
    }
  }
}
