/** Following a timestamped external source: jitter, jumps and speed changes. */
module Tracking {
  import opened Arithmetic
  import opened Timecode
  import opened Timelines

  datatype SourceSample = SourceSample(
    timestampNs: nat,
    position: Pos,
    rateHint: Option<Speed>,
    discontinuity: bool)

  datatype Candidate = Candidate(speed: real, count: nat)

  datatype TrackerState = TrackerState(
    last: Option<SourceSample>,
    candidate: Option<Candidate>,
    jumps: nat,
    jumpsSign: int)

  const IDLE := TrackerState(None, None, 0, 0)

  /** `f64::round`: halves go away from zero. */
  function Round(x: real): int {
    if x >= 0.0 then (x + 0.5).Floor else -((-x + 0.5).Floor)
  }

  predicate Admits(st: TrackerState, t: Timeline, s: SourceSample, now: nat) {
    && t.sourceKind == Tracked
    && s.timestampNs <= now
    && (st.last.Some? ==> s.timestampNs > st.last.value.timestampNs)
  }

  /** Speed suggested by two consecutive samples at least a millisecond apart. */
  function Inferred(previous: SourceSample, s: SourceSample, f: Format): Option<real>
    requires s.timestampNs > previous.timestampNs
  {
    var elapsed := (s.timestampNs - previous.timestampNs) as real / 1_000_000_000.0;
    if elapsed < 0.001 then None
    else
      var frames := (Fixed(s.position) - Fixed(previous.position)) as real / 4_294_967_296.0;
      FpsPositive(f);
      TimesSign(elapsed, Fps(f));
      assert Times(elapsed, Fps(f)) == elapsed * Fps(f);
      Some(frames / (elapsed * Fps(f)))
  }

  function Speculated(st: TrackerState, t: Timeline, s: SourceSample): real
    requires st.last.Some? ==> s.timestampNs > st.last.value.timestampNs
  {
    var inferred := if st.last.Some? then Inferred(st.last.value, s, t.format) else None;
    ClampR(if s.rateHint.Some? then RateValue(s.rateHint.value)
           else if inferred.Some? then inferred.value
           else RateValue(t.anchor.rate), -64.0, 64.0)
  }

  /** Source position minus trajectory position at the sample's time, in frames. */
  function SourceError(t: Timeline, s: SourceSample): real {
    (Fixed(s.position) - Fixed(AnchorAt(t.anchor, s.timestampNs, t.format))) as real / 4_294_967_296.0
  }

  /** Consecutive errors above one frame in one direction, this one included. */
  function JumpCount(st: TrackerState, error: real): nat {
    if AbsR(error) > 1.0 then (if SignOf(error) == st.jumpsSign then st.jumps else 0) + 1 else 0
  }

  /** A changed speed needs three consistent estimates; an exact hint needs none. */
  function CandidateAfter(st: TrackerState, speed: real): Candidate {
    if st.candidate.Some? && AbsR(st.candidate.value.speed - speed) < 0.05
    then Candidate(speed, st.candidate.value.count + 1)
    else Candidate(speed, 1)
  }

  datatype Tracking = Followed(tracker: TrackerState, timeline: Timeline, changed: bool) | Refused

  function RateOf(speed: real): Result<Rate> {
    ReducedRate(Round(speed * 10000.0), 10000)
  }

  lemma RateOfSound(speed: real)
    requires -64.0 <= speed <= 64.0
    ensures RateOf(speed).Ok? && ValidRate(RateOf(speed).value)
  {
    var x := speed * 10000.0;
    assert -640000 <= Round(x) <= 640000;
    ReducedRateSound(Round(x), 10000);
  }

  /** The rate after a sample, whether it is a new one, and the speed candidate left. */
  datatype RateChoice = RateChoice(rate: Speed, changed: bool, candidate: Option<Candidate>)

  function ChooseRate(st: TrackerState, t: Timeline, s: SourceSample): RateChoice
    requires st.last.Some? ==> s.timestampNs > st.last.value.timestampNs
  {
    var speed := Speculated(st, t, s);
    RateOfSound(speed);
    if s.rateHint.Some? && s.rateHint.value != t.anchor.rate then
      RateChoice(s.rateHint.value, true, st.candidate)
    else if AbsR(speed - RateValue(t.anchor.rate)) > 0.02 then
      var c := CandidateAfter(st, speed);
      if c.count >= 3 then RateChoice(RateOf(speed).value, true, None)
      else RateChoice(t.anchor.rate, false, Some(c))
    else RateChoice(t.anchor.rate, false, None)
  }

  predicate Jumps(st: TrackerState, t: Timeline, s: SourceSample)
    requires st.last.Some? ==> s.timestampNs > st.last.value.timestampNs
  {
    || s.discontinuity || st.last.None?
    || JumpCount(st, SourceError(t, s)) >= 3
    || ChooseRate(st, t, s).changed
  }

  /** A fifth of the error, the error itself capped at a tenth of a frame. */
  function Nudged(t: Timeline, s: SourceSample): Pos {
    var on := Fixed(AnchorAt(t.anchor, s.timestampNs, t.format))
              + Trunc(ClampR(SourceError(t, s), -0.1, 0.1) * 0.2 * 4_294_967_296.0);
    FixedRoundTrip(on);
    FromFixed(on)
  }

  function SampleStep(st: TrackerState, t: Timeline, s: SourceSample, now: nat): Tracking {
    if !Admits(st, t, s, now) then Refused
    else
      var choice, error := ChooseRate(st, t, s), SourceError(t, s);
      if Jumps(st, t, s) then
        Followed(TrackerState(Some(s), None, 0, 0),
                 t.(anchor := Anchor(s.timestampNs, s.position, choice.rate), sourceHealth := Healthy,
                    discontinuity := t.discontinuity + 1, scheduled := []),
                 true)
      else
        Followed(TrackerState(Some(s), choice.candidate, JumpCount(st, error),
                              if AbsR(error) > 1.0 then SignOf(error) else st.jumpsSign),
                 t.(anchor := Anchor(s.timestampNs, Nudged(t, s), choice.rate), sourceHealth := Healthy),
                 false)
  }

  function HealthAt(st: TrackerState, now: nat, timeout: nat): SourceHealth {
    if st.last.None? || Monus(now, st.last.value.timestampNs) > timeout then Degraded else Healthy
  }

  /** A sample that introduces no discontinuity keeps speed, identity and schedule, and moves
      the trajectory toward the source by at most a fiftieth of a frame. */
  lemma RoutineSample(st: TrackerState, t: Timeline, s: SourceSample, now: nat)
    requires SampleStep(st, t, s, now).Followed? && !SampleStep(st, t, s, now).changed
    ensures var u := SampleStep(st, t, s, now).timeline;
            var on := Fixed(AnchorAt(t.anchor, s.timestampNs, t.format));
            && u == t.(anchor := u.anchor, sourceHealth := Healthy)
            && u.anchor.rate == t.anchor.rate && u.anchor.timeNs == s.timestampNs
            && Abs(Fixed(u.anchor.position) - on) <= 85_899_345
            && (Fixed(s.position) >= on ==> on <= Fixed(u.anchor.position) <= Fixed(s.position))
            && (Fixed(s.position) <= on ==> Fixed(s.position) <= Fixed(u.anchor.position) <= on)
  {
    hide AnchorAt, Fixed, FromFixed, JumpCount, ChooseRate, Trunc, ClampR;
    var on := Fixed(AnchorAt(t.anchor, s.timestampNs, t.format));
    KeepsRate(st, t, s);
    FixedInjective(AnchorAt(t.anchor, s.timestampNs, t.format));
    FixedInjective(s.position);
    var step := Trunc(ClampR(SourceError(t, s), -0.1, 0.1) * 0.2 * 4_294_967_296.0);
    NudgeSize(Fixed(s.position) - on, step);
    FixedRoundTrip(on + step);
  }

  lemma KeepsRate(st: TrackerState, t: Timeline, s: SourceSample)
    requires st.last.Some? ==> s.timestampNs > st.last.value.timestampNs
    ensures !ChooseRate(st, t, s).changed ==> ChooseRate(st, t, s).rate == t.anchor.rate
  {
    hide Speculated, RateValue, CandidateAfter, RateOf;
  }

  lemma NudgeSize(d: int, step: int)
    requires step == Trunc(ClampR(d as real / 4_294_967_296.0, -0.1, 0.1) * 0.2 * 4_294_967_296.0)
    ensures Abs(step) <= 85_899_345
    ensures d >= 0 ==> 0 <= step <= d
    ensures d <= 0 ==> d <= step <= 0
  {
    TruncNear(ClampR(d as real / 4_294_967_296.0, -0.1, 0.1) * 0.2 * 4_294_967_296.0);
  }

  /** The tracker as the source has it, its fields updated sample by sample. */
  class Tracker {
    var last: Option<SourceSample>
    var candidate: Option<Candidate>
    var jumps: nat
    var jumpsSign: int

    function State(): TrackerState
      reads this
    {
      TrackerState(last, candidate, jumps, jumpsSign)
    }

    constructor ()
      ensures State() == IDLE
    {
      last, candidate, jumps, jumpsSign := None, None, 0, 0;
    }

    /** `Tracker::sample`: whether the sample introduces an immediate discontinuity, or
        `None` when it is refused and nothing has changed. */
    method Sample(t: Timeline, s: SourceSample, now: nat) returns (changed: Option<bool>, t': Timeline)
      modifies this
      ensures var r := SampleStep(old(State()), t, s, now);
              if r.Refused? then changed == None && t' == t && State() == old(State())
              else changed == Some(r.changed) && t' == r.timeline && State() == r.tracker
    {
      hide RateValue, AnchorAt, Fixed;
      if !Admits(State(), t, s, now) {
        return None, t;
      }
      var choice, error := ChooseRate(State(), t, s), SourceError(t, s);
      var jumped := s.discontinuity || last.None?;
      if AbsR(error) > 1.0 {
        var sign := if error > 0.0 then 1 else -1;
        if sign != jumpsSign {
          jumps := 0;
        }
        jumpsSign := sign;
        jumps := jumps + 1;
      } else {
        jumps := 0;
      }
      hide ChooseRate, SourceError;
      if jumps >= 3 {
        jumped := true;
        jumps := 0;
      }
      candidate := choice.candidate;
      jumped := jumped || choice.changed;
      t' := t.(anchor := Anchor(s.timestampNs, if jumped then s.position else Nudged(t, s), choice.rate),
               sourceHealth := Healthy);
      if jumped {
        jumps := 0;
        jumpsSign := 0;
        candidate := None;
        t' := t'.(discontinuity := t'.discontinuity + 1, scheduled := []);
      }
      last := Some(s);
      changed := Some(jumped);
    }

    method Health(now: nat, timeout: nat) returns (health: SourceHealth)
      ensures health == HealthAt(State(), now, timeout)
    {
      health := if last.None? || Monus(now, last.value.timestampNs) > timeout then Degraded else Healthy;
    }
  }
}
