/** What it takes, over a whole run of samples, for a tracked source to cause a discontinuity. */
module TrackingRuns {
  import opened Arithmetic
  import opened Timelines
  import opened Tracking

  /** A sample, the timeline it meets, which controls may have changed since the last sample,
      and the clock reading it is handled at. */
  datatype Arrival = Arrival(timeline: Timeline, sample: SourceSample, now: nat)

  /** What a sample says: the direction in which it is off by more than a frame, if it is, and
      the new speed it suggests, if it suggests one. A discontinuity starts everything afresh. */
  datatype Judgement = Afresh | Judged(off: int, speed: Option<real>)

  function TrackerAfter(arrivals: seq<Arrival>): TrackerState {
    if arrivals == [] then IDLE
    else
      var before, a := TrackerAfter(arrivals[..|arrivals| - 1]), arrivals[|arrivals| - 1];
      match SampleStep(before, a.timeline, a.sample, a.now)
      case Followed(tracker, _, _) => tracker
      case Refused => before
  }

  /** Latest judgements in one direction. */
  function OffStreak(log: seq<Judgement>, sign: int): nat {
    if log == [] then 0
    else match log[|log| - 1]
      case Afresh => 0
      case Judged(off, _) => if off != sign then 0 else 1 + OffStreak(log[..|log| - 1], sign)
  }

  /** Latest judgements that suggest a speed, each within 0.05 of the next. */
  function SpeedStreak(log: seq<Judgement>): nat {
    if log == [] then 0
    else match log[|log| - 1]
      case Afresh => 0
      case Judged(_, speed) =>
        if speed.None? then 0
        else 1 + (if AgreesWithLast(log[..|log| - 1], speed.value) then SpeedStreak(log[..|log| - 1]) else 0)
  }

  predicate AgreesWithLast(log: seq<Judgement>, speed: real) {
    && log != [] && log[|log| - 1].Judged?
    && log[|log| - 1].speed.Some? && AbsR(log[|log| - 1].speed.value - speed) < 0.05
  }

  predicate HintDiffers(t: Timeline, s: SourceSample) {
    s.rateHint.Some? && s.rateHint.value != t.anchor.rate
  }

  /** Judged from the sample, its predecessor and the timeline alone. */
  function JudgementOf(st: TrackerState, t: Timeline, s: SourceSample): Judgement
    requires st.last.Some? ==> s.timestampNs > st.last.value.timestampNs
  {
    var error, speed := SourceError(t, s), Speculated(st, t, s);
    Judged(if AbsR(error) > 1.0 then SignOf(error) else 0,
           if !HintDiffers(t, s) && AbsR(speed - RateValue(t.anchor.rate)) > 0.02 then Some(speed) else None)
  }

  function Entries(st: TrackerState, a: Arrival): seq<Judgement> {
    match SampleStep(st, a.timeline, a.sample, a.now)
    case Refused => []
    case Followed(_, _, changed) =>
      [JudgementOf(st, a.timeline, a.sample)] + if changed then [Afresh] else []
  }

  function Log(arrivals: seq<Arrival>): seq<Judgement> {
    if arrivals == [] then []
    else
      Log(arrivals[..|arrivals| - 1])
      + Entries(TrackerAfter(arrivals[..|arrivals| - 1]), arrivals[|arrivals| - 1])
  }

  /** The tracker's counters are the streaks of the log. */
  ghost predicate Counts(st: TrackerState, log: seq<Judgement>) {
    && (st.jumps > 0 ==> st.jumpsSign in {1, -1})
    && OffStreak(log, 1) == (if st.jumpsSign == 1 then st.jumps else 0)
    && OffStreak(log, -1) == (if st.jumpsSign == -1 then st.jumps else 0)
    && (if st.candidate.Some?
        then && SpeedStreak(log) == st.candidate.value.count && st.candidate.value.count >= 1
             && log != [] && log[|log| - 1].Judged? && log[|log| - 1].speed == Some(st.candidate.value.speed)
        else SpeedStreak(log) == 0)
  }

  /** The causes of a discontinuity: a flag, a first sample, an exact new rate, or the third
      judgement in a row that the source is off in one direction or runs at one new speed. */
  predicate Caused(st: TrackerState, a: Arrival, log: seq<Judgement>)
    requires st.last.Some? ==> a.sample.timestampNs > st.last.value.timestampNs
  {
    var j := JudgementOf(st, a.timeline, a.sample);
    || a.sample.discontinuity || st.last.None? || HintDiffers(a.timeline, a.sample)
    || OffStreak(log + [j], 1) >= 3 || OffStreak(log + [j], -1) >= 3 || SpeedStreak(log + [j]) >= 3
  }

  lemma StreaksExtended(log: seq<Judgement>, j: Judgement)
    ensures forall sign: int ::
              OffStreak(log + [j], sign) == (if j.Afresh? || j.off != sign then 0 else 1 + OffStreak(log, sign))
    ensures SpeedStreak(log + [j])
            == if j.Afresh? || j.speed.None? then 0
               else 1 + (if AgreesWithLast(log, j.speed.value) then SpeedStreak(log) else 0)
  {
    assert (log + [j])[..|log|] == log;
  }

  /** One accepted sample: the counters follow the log, and the discontinuity has its cause. */
  lemma ArrivalCounts(st: TrackerState, a: Arrival, log: seq<Judgement>)
    requires Counts(st, log) && SampleStep(st, a.timeline, a.sample, a.now).Followed?
    ensures Counts(SampleStep(st, a.timeline, a.sample, a.now).tracker, log + Entries(st, a))
    ensures SampleStep(st, a.timeline, a.sample, a.now).changed <==> Caused(st, a, log)
  {
    hide SourceError, Speculated, RateValue, RateOf, Nudged, OffStreak, SpeedStreak;
    var j := JudgementOf(st, a.timeline, a.sample);
    StreaksExtended(log, j);
    StreaksExtended(log + [j], Afresh);
    assert log + ([j] + [Afresh]) == log + [j] + [Afresh];
    assert log + ([j] + []) == log + [j];
  }

  /** Over every run of samples, whatever happens to the timeline in between: a sample introduces
      a discontinuity exactly when one of the causes is there. */
  lemma {:induction false} DiscontinuitiesCaused(arrivals: seq<Arrival>, a: Arrival)
    ensures Counts(TrackerAfter(arrivals), Log(arrivals))
    ensures var r := SampleStep(TrackerAfter(arrivals), a.timeline, a.sample, a.now);
            r.Followed? ==> (r.changed <==> Caused(TrackerAfter(arrivals), a, Log(arrivals)))
  {
    if arrivals == [] {
    } else {
      var front, last := arrivals[..|arrivals| - 1], arrivals[|arrivals| - 1];
      DiscontinuitiesCaused(front, last);
      var st := TrackerAfter(front);
      assert Log(front) + [] == Log(front);
      if SampleStep(st, last.timeline, last.sample, last.now).Followed? {
        ArrivalCounts(st, last, Log(front));
      }
    }
    hide SampleStep, Counts, Caused;
    if SampleStep(TrackerAfter(arrivals), a.timeline, a.sample, a.now).Followed? {
      ArrivalCounts(TrackerAfter(arrivals), a, Log(arrivals));
    }
  }

  // ---------------------------------------------------------------- source health

  /** The sample at an index was accepted by the tracker. */
  predicate Accepted(arrivals: seq<Arrival>, i: nat)
    requires i < |arrivals|
  {
    SampleStep(TrackerAfter(arrivals[..i]), arrivals[i].timeline, arrivals[i].sample, arrivals[i].now).Followed?
  }

  /** Some accepted sample is no older than the timeout. */
  ghost predicate Heard(arrivals: seq<Arrival>, now: nat, timeout: nat) {
    exists i :: 0 <= i < |arrivals| && Accepted(arrivals, i) && now <= arrivals[i].sample.timestampNs + timeout
  }

  lemma StepRemembers(st: TrackerState, a: Arrival)
    ensures var r := SampleStep(st, a.timeline, a.sample, a.now);
            r.Followed? ==> && r.tracker.last == Some(a.sample)
                            && (st.last.Some? ==> st.last.value.timestampNs < a.sample.timestampNs)
  {
    hide ChooseRate, SourceError, Nudged, Jumps, JumpCount;
  }

  /** The tracker remembers the accepted sample with the latest timestamp. */
  lemma {:induction false} RemembersLatest(arrivals: seq<Arrival>)
    ensures var last := TrackerAfter(arrivals).last;
            if last.None? then forall i :: 0 <= i < |arrivals| ==> !Accepted(arrivals, i)
            else && (exists i :: 0 <= i < |arrivals| && Accepted(arrivals, i) && arrivals[i].sample == last.value)
                 && forall i :: 0 <= i < |arrivals| && Accepted(arrivals, i) ==>
                      arrivals[i].sample.timestampNs <= last.value.timestampNs
  {
    hide SampleStep;
    if arrivals != [] {
      var n := |arrivals| - 1;
      var front := arrivals[..n];
      RemembersLatest(front);
      StepRemembers(TrackerAfter(front), arrivals[n]);
      forall i | 0 <= i < n ensures Accepted(arrivals, i) <==> Accepted(front, i) {
        assert arrivals[..i] == front[..i];
      }
      if Accepted(arrivals, n) {
        assert arrivals[n].sample == TrackerAfter(arrivals).last.value;
      } else if TrackerAfter(front).last.Some? {
        var i :| 0 <= i < n && Accepted(front, i) && front[i].sample == TrackerAfter(front).last.value;
        assert Accepted(arrivals, i);
      }
    }
  }

  /** Over every run of samples the source is healthy exactly while some accepted sample is no
      older than the timeout; refused samples neither revive it nor wear it out. */
  lemma HealthyIffHeard(arrivals: seq<Arrival>, now: nat, timeout: nat)
    ensures HealthAt(TrackerAfter(arrivals), now, timeout) == Healthy <==> Heard(arrivals, now, timeout)
  {
    RemembersLatest(arrivals);
    hide TrackerAfter, Accepted;
  }

  /** A degraded source stays degraded until the next accepted sample. */
  lemma {:induction false} DegradedUntilHeard(
      arrivals: seq<Arrival>, more: seq<Arrival>, now: nat, later: nat, timeout: nat)
    requires HealthAt(TrackerAfter(arrivals), now, timeout) == Degraded && now <= later
    requires forall i :: |arrivals| <= i < |arrivals + more| ==> !Accepted(arrivals + more, i)
    ensures HealthAt(TrackerAfter(arrivals + more), later, timeout) == Degraded
    decreases |more|
  {
    if more == [] {
      assert arrivals + more == arrivals;
    } else {
      var n := |more| - 1;
      var all, front := arrivals + more, arrivals + more[..n];
      assert all[..|front|] == front;
      forall i | |arrivals| <= i < |front| ensures !Accepted(front, i) {
        assert front[..i] == all[..i];
        assert !Accepted(all, i);
      }
      DegradedUntilHeard(arrivals, more[..n], now, later, timeout);
      assert !Accepted(all, |front|);
    }
  }
}
