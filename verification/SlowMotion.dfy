/** Below one Q32 unit a nanosecond a boundary can be late although leader time never stalls. */
module SlowMotion {
  import opened Arithmetic
  import opened Timecode
  import opened Timelines
  import opened Follower
  import opened Trajectory
  import opened Boundary
  import opened BoundaryBounds

  const FILM: Format := FrameFormat(24, 1, false)

  /** A hundred and fifth of normal speed: 0.98 units a nanosecond at 24 frames a second. */
  function Slow(): Speed {
    assert Gcd(1, 105) == Gcd(105, 1) == Gcd(1, 0) == 1;
    Rate(1, 105)
  }

  /** A view in slow motion, on a perfect clock, held back by a correction of a whole frame, with the
      next frame due at 163 and a control at 166. */
  ghost predicate Creeping(v: View) {
    && v.timeline.format == FILM && v.timeline.discontinuity == 0
    && v.timeline.anchor == Anchor(0, Position(0, 4_294_967_152), Slow())
    && |v.timeline.scheduled| == 1 && v.timeline.scheduled[0].anchor.timeNs == 166
    && v.timeline.scheduled[0].discontinuity == 1
    && v.mapping.referenceNs == 0 && v.mapping.offsetNs == 0.0 && v.mapping.drift == 0.0
    && v.mapping.lastSampleNs == 1 && v.sync == Synchronized
    && v.correctionFrames == 1.0 && v.correctionAt == 1 && v.correctionDiscontinuity == 0
    && v.slewFramesPerSecond == 2.4
  }

  lemma CreepingTravel(t: nat)
    requires 162 <= t <= 165
    ensures Delta(t, FILM, Slow()) == match t case 162 => 159 case 163 => 160 case 164 => 160 case _ => 161
  {
    DeltaIsOneDivision(t, FILM, Slow());
    assert Divisor(FILM, Slow()) == 105_000_000_000;
    assert Product(t, FILM, Slow()) == t * 24;
  }

  lemma CreepingClock(v: View, t: nat)
    requires Creeping(v) && t <= 100_000_000_000
    ensures v.mapping.LeaderTime(t) == t && IdealTime(v.mapping, t as real) == t as real
  {
    assert v.mapping.OffsetAt(t) == 0.0;
  }

  lemma CreepingSlew(v: View)
    requires Creeping(v)
    ensures SlewCap(v.slewFramesPerSecond, FILM, Slow()) == 2.4 / 105.0
  {
    assert Fps(FILM) == 24.0 && RateValue(Slow()) == 1.0 / 105.0;
  }

  lemma CreepingRest(v: View, t: nat)
    requires Creeping(v) && 162 <= t <= 165
    ensures Trunc(Remaining(v, Active(v.timeline), t) * 4_294_967_296.0)
         == if t <= 163 then 4_294_967_280 else 4_294_967_279
  {
    CreepingSlew(v);
    var left := 1.0 - (t - 1) as real / 1_000_000_000.0 * (2.4 / 105.0);
    assert Monus(t, v.correctionAt) == t - 1;
    assert Remaining(v, Active(v.timeline), t) == left;
  }

  lemma CreepingOutput(v: View, t: nat)
    requires Creeping(v) && 162 <= t <= 165
    ensures OutputFixed(v, t) == match t
                                 case 162 => 8_589_934_591
                                 case 163 => 8_589_934_592
                                 case 164 => 8_589_934_591
                                 case _ => 8_589_934_592
  {
    CreepingClock(v, t);
    CreepingTravel(t);
    CreepingRest(v, t);
    NothingDue(Active(v.timeline), v.timeline.scheduled, t);
    AdvanceExact(v.timeline.anchor.position, t, FILM, Slow());
    hide Delta, Remaining, Advance, Effective, Slow;
    assert ClampI64(t) == t;
  }

  lemma CreepingShown(v: View)
    requires Creeping(v)
    ensures Evaluate(v, 162).rate == Slow() && Entry(v, 162) == Active(v.timeline)
  {
    CreepingClock(v, 162);
    NothingDue(Active(v.timeline), v.timeline.scheduled, 162);
    hide OutputFixed, Remaining, Effective, FromFixed, Slow;
    assert EffectiveAt(v.timeline, EvaluationTime(v, 162)) == Active(v.timeline);
  }

  lemma CreepingAhead(v: View)
    requires Creeping(v)
    ensures Ahead(v, 162) == 8_589_934_592 && Evaluate(v, 162).rate.numerator == 1
  {
    CreepingShown(v);
    CreepingOutput(v, 162);
    EvaluatedFixed(v, 162);
    hide OutputFixed, Evaluate, Fixed;
  }

  lemma CreepingControl(v: View)
    requires Creeping(v)
    ensures Running(v) && ControlDeadline(v, 162) == Some(166)
  {
    assert Ordered(v.timeline.scheduled[0], v.timeline.scheduled[1..]);
    ControlDeadlineExact(v, 162);
    forall t: nat | 162 <= t <= 166 ensures ControlTaken(v, 162, t) <==> t == 166 {
      CreepingClock(v, 162);
      CreepingClock(v, t);
      ChangesAtNextControl(Active(v.timeline), v.timeline.scheduled, 162, t);
      assert NextControl(v.timeline.scheduled, 162) == Some(v.timeline.scheduled[0]);
      hide Effective, NextControl;
    }
    assert ControlTaken(v, 162, 166);
    hide ControlTaken, ControlDeadline, ValidTimeline;
  }

  /** Everything but the pace is as the exact case demands. */
  lemma CreepingUnclamped(v: View)
    requires Creeping(v)
    ensures v.mapping.drift >= 0.0 && 0.98 <= Pace(v, 162) < 1.0
    ensures Remaining(v, Entry(v, 162), 50_000_000_000) == 0.0
    ensures Unclamped(v, Entry(v, 162), 162) && Unclamped(v, Entry(v, 162), 50_000_000_000)
  {
    CreepingShown(v);
    CreepingSlew(v);
    CreepingClock(v, 162);
    CreepingClock(v, 50_000_000_000);
    CreepingFar();
    CreepingTravel(162);
    assert Fps(FILM) == 24.0 && RateValue(Slow()) == 1.0 / 105.0;
    hide Delta, Entry, Effective, Slow;
  }

  lemma CreepingFar()
    ensures 0 <= Delta(50_000_000_000, FILM, Slow()) <= 0x1_0000_0000_0000
  {
    DeltaIsOneDivision(50_000_000_000, FILM, Slow());
    assert Divisor(FILM, Slow()) == 105_000_000_000;
    assert Product(50_000_000_000, FILM, Slow()) == 50_000_000_000 * 24;
  }

  /** So a pace of one is what exactness needs: at 0.98 the frame is reached at 163, shown as missed
      again at 164, and reported for 165. */
  lemma SlowMotionMissesFirst(v: View)
    requires Creeping(v)
    ensures Running(v) && v.mapping.drift >= 0.0 && 0.98 <= Pace(v, 162) < 1.0
    ensures Remaining(v, Entry(v, 162), 50_000_000_000) == 0.0
    ensures Unclamped(v, Entry(v, 162), 162) && Unclamped(v, Entry(v, 162), 50_000_000_000)
    ensures NextBoundary(v, 162).Some? && NextBoundary(v, 162).value.local == 165 && FrameReached(v, 162, 163)
    ensures !IsFirst(v, 162, NextBoundary(v, 162))
  {
    CreepingControl(v);
    CreepingAhead(v);
    CreepingUnclamped(v);
    forall t: nat | 163 <= t <= 165 ensures Passed(v, 8_589_934_592, true, t) <==> t != 164 {
      CreepingOutput(v, t);
      EvaluatedFixed(v, t);
      hide Evaluate, Creeping;
    }
    hide Creeping, Passed, Evaluate, Ahead, Running, ControlDeadline, Unclamped, Remaining, Pace, Entry;
    var p := Passing(v, 8_589_934_592, true);
    assert p(165) && !p(164);
    BisectionStep(163, 165, p);
    BisectionEnd(165, p);
    BoundarySource(v, 162);
    hide Passing, NextBoundary;
    assert FirstOf(163, 165, p) == Some(165);
    assert Happens(v, 162, 163);
  }
}
