# Timing core of a LAN timecode protocol

A leader publishes timestamped trajectories: an anchor (leader time, position, rate) and up to four
scheduled replacements. A follower estimates the leader's clock from four-timestamp probes (the
model of section 8 of RFC 5905) and reads one continuous position from the newest trajectory. This
project models that timing core in Dafny and proves what it keeps over whole runs.

| Module | What it holds |
|---|---|
| `Arithmetic` | truncating division, saturating casts, shared facts |
| `Timecode`, `Labels` | frame formats, drop-frame labels and their order, Q32 positions, rates, `advance` |
| `Clock`, `ClockRuns`, `Estimator` | the clock estimator: its step as a function, runs of it, and the object that performs it |
| `ClockFit`, `LeastSquares`, `Reacquisition`, `ClockReach` | soundness and limit of its uncertainty, what the fit is, when it refuses, acquires and reacquires, a run that misses its bound |
| `Timelines`, `WireForm` | trajectories with scheduled replacements, `at`, `latch`, the wire form, its validation, and which messages are accepted |
| `Follower`, `FollowerRuns`, `FollowerHistory`, `FollowerStatus`, `FollowerCore` | output evaluation and correction policy, safety over runs, what is shown besides the position, and the object that performs the steps |
| `Trajectory`, `Boundary`, `BoundaryBounds`, `SlowMotion` | the untruncated trajectory behind the output; the two bisections of `next_boundary`; how late a boundary can be, what its uncertainty covers, and a late one in slow motion |
| `Tracking`, `TrackingRuns`, `SourceSpeed`, `Leader`, `LeaderInputs`, `LeaderJob` | external sources, what their samples show, controls, the due loop, publication, inputs over runs, and the objects that perform them |
| `Naming`, `Retention`, `CancelledControls` | what a discontinuity names over a leader's runs; what becomes of a control once reserved; the samples that take a reserved number |
| `Distributed`, `Announcements`, `Accuracy` | any leaders and one follower with snapshots lost, reordered and repeated: what is held, which jumps are announced, how far the output is from the leader's |
| `EarlyControls`, `HurriedRun` | controls applied before the leader's clock reaches them: exactly when, and a run in which one is |
| `Worker`, `WorkerQueues` | the readiness loop interleaved with its senders; what is handed to it is conserved |
| `Http3`, `VarReading`, `Capsules` | variable-length integers and HTTP/3 frame splitting on the CONNECT stream |
| `Probes` | 128 request slots refined against an unbounded log |

Objects whose methods change fields are classes, and each method is proved equal to a step function
on values. The results about runs are lemmas about those step functions, quantified over every
sequence of steps.

## How the source is read

- `f64` is `real`. Casts to integers truncate toward zero and clamp as in the source; the infinite
  initial uncertainty is a constructor of its own; `i64::MAX as f64` is two to the power 63.
- Positions, timestamps and Q32 values are unbounded integers with every saturation written out;
  that nothing leaves `i128` on the way is a theorem.
- A timeline's `scheduled` is the live part of the source's four slots.
- Revisions, discontinuities and sequence numbers do not wrap, as docs/protocol.md:42 assumes;
  the counters the source saturates are saturated here.
- Clock readings, elapsed-time tests and the moments at which messages arrive are inputs.
- A follower's policy is the one the engine accepts (native/src/api.rs:322-331). With zero
  confirmations, which the engine refuses, a heartbeat could cause a hard resync.
- A `usize` holds 64 bits, so no frame length is too large for it.

## Where the code falls short of what is promised

Each of these has a lemma with the concrete case and one with the condition that rules it out.

- **Uncertainty.** Exchanges of up to 500 ms are accepted, but the 100 microsecond floor covers
  possible clock motion inside an exchange only below 400 ms (`ClockFit.UncertaintyCoversTruth`,
  `ClockFit.ExactStampsUnder400ms`). Above 400 ms one exchange can make the reported uncertainty
  miss the true offset (`ClockFit.LongExchangeEscapesBound`), and it does: sixteen exact
  exchanges, a gap of 32 s and one exchange held back for more than 400 ms lead a fresh estimator
  there (`ClockReach.UncertaintyMissReached`).
- **Early controls.** docs/protocol.md:58 has readers apply a control at its effective time. `tick`
  latches nothing before the first accepted exchange (protocol/src/timeline.rs:625), but a second
  snapshot of the session does (protocol/src/timeline.rs:495-498), by a leader time that is then the
  follower's own clock, whose epoch is arbitrary (docs/protocol.md:44). A control dated at or before
  that clock is applied at once, and no later measurement brings the follower back
  (`HurriedRun.HurriedControlStays`, `HurriedRun.HurriedControlHappens`). This happens exactly when
  a newer snapshot comes before the first accepted exchange while a control in both is already due
  by the follower's time (`EarlyControls.HurriedIff`, and over runs
  `EarlyControls.UntouchedIffPatient`). Without such a snapshot no control is applied while the
  leader's clock lacks more than the uncertainty reported then (`EarlyControls.NoControlEarly`).
- **Cancelled controls.** docs/protocol.md:56 has a command that cancels schedules take a
  discontinuity above every reserved one. Every command does, except a discontinuous tracked
  sample over pending controls, which takes the lowest reserved number
  (`Naming.CancelsAboveReserved`, an if and only if). What follows depends on what a follower shows.
  If it shows none of the reserved numbers it announces the discontinuity
  (`CancelledControls.JumpOverControlsAnnounced`). If it shows the first, however many were pending,
  it slews toward the sample's position and reports no discontinuity, although docs/protocol.md:58
  has explicit discontinuities clear correction at once
  (`CancelledControls.JumpOverControlUnannounced`, `CancelledControls.JumpOverControlHappens`). If
  it shows a later one it discards the leader's honest snapshot
  (`CancelledControls.JumpOverControlsDiscarded`, `CancelledControls.JumpOverControlsHappens`).
  `CancelledControls.JumpAnnouncedIff` joins the three; `Leader.HandleSound` and
  `Distributed.DiscardedIff` give the exact conditions for discarding in general. Without such
  samples a discontinuity names one trajectory and every jump is announced (`Naming.RunNames`,
  `Announcements.EveryJumpAnnounced`).
- **Boundaries.** docs/timing-apis.md:93-95 promises the first nanosecond that reaches the next
  frame. While a slew holds the output back, a stalled leader nanosecond lets the integer output
  dip, and the bisection can pass over the first crossing (`Boundary.OpposedCorrectionMissesFirst`).
  It is exact when nothing is pending or the correction runs along with playback
  (`Boundary.NextBoundaryExact`), and whatever the correction when the drift is not negative and
  the motion is at least one Q32 unit per nanosecond (`BoundaryBounds.NextBoundaryUnstalled`); at
  0.98 units it can be late (`SlowMotion.SlowMotionMissesFirst`). Away from saturation it is never
  late by (4 + 2V) / (0.8995 V) + 1 nanoseconds at V units per nanosecond
  (`BoundaryBounds.BoundaryLateness`), which is at most 3 from V = 6 on
  (`BoundaryBounds.AtMostThreeNanosecondsLate`); 24 frames a second at normal speed is V = 103.
  The uncertainty of a boundary counts the clock's bound at the deadline only; with what the clock
  may drift until then, 0.12 percent more covers it (`BoundaryBounds.UncertaintyCoversFrame`,
  `BoundaryBounds.UncertaintyCoversControl`).
- **Wake-ups.** A follower's step that fails before its command drain is kept as a job. A command
  whose sender has finished can then wait while the worker polls with no wake to come
  (`Worker.SkippedDrainForgets`). The timeout it polls with is the earliest deadline of its jobs
  (`Worker.TimeoutIsEarliest`), for that follower at most the retry time of
  native/src/network.rs:858. This is the only way (`Worker.NoLostWake`, `Worker.NothingForgotten`).

## Model

| member | source | states |
|---|---|---|
| `Timecode.LabelThenPosition` | protocol/src/timecode.rs:63-106 | For every supported format and signed frame count the label is accepted, and reading it back gives the frame count modulo the label day |
| `Timecode.PositionThenLabel` | protocol/src/timecode.rs:85-106 | Every accepted label is exactly the label of the position it denotes |
| `Timecode.RejectedIffNeverShown` | protocol/src/timecode.rs:94-101 | A label is rejected if and only if no position is ever shown by it |
| `Labels.FormatIff` | protocol/src/timecode.rs:14-37 | A frame rate is accepted exactly when it is 24, 25, 30, 48, 50 or 60, or the thousandth-slowed form of one that is no multiple of 25, drop-frame only for slowed 30 and 60 |
| `Labels.ReadIffHas` | protocol/src/timecode.rs:85-101 | A label is read if and only if its fields are in range and it is not one of the two or four that drop-frame skips at a minute not divisible by ten |
| `Labels.LabelsInOrder` | protocol/src/timecode.rs:52-84 | The labels of a day come in the order of its frames, from 00:00:00:00 on, and repeat with the day |
| `Timecode.FixedRoundTrip` | protocol/src/timecode.rs:143-155 | Converting a Q32 value to a position and back saturates it and does nothing else |
| `Timecode.NewRate` | protocol/src/timecode.rs:181-200 | The gcd loop gives the reduced rate or refuses, for every numerator and denominator |
| `Timecode.ReducedRateSound` | protocol/src/timecode.rs:181-200 | The reduced rate equals the given one by cross-multiplication, has coprime terms and stays within bounds |
| `Timecode.ReduceReduced` | protocol/src/timecode.rs:181-200 | Reducing is idempotent on every valid rate |
| `Timecode.DeltaIsOneDivision` | protocol/src/timecode.rs:159-163 | The split division equals one truncated division of the full product |
| `Timecode.AdvanceFitsI128` | protocol/src/timecode.rs:159-165 | No intermediate value of `advance`, the partial products of its operands included, leaves `i128` for any validated position, format, rate and elapsed time |
| `Timecode.DeltaMonotone` | protocol/src/timecode.rs:159-163 | The distance is monotone in elapsed time, in the rate's direction |
| `Timecode.DeltaOdd` | protocol/src/timecode.rs:159-163 | The distance is odd under reversal of time and of rate |
| `Timecode.AdvanceInTwoSteps` | protocol/src/timecode.rs:159-165 | Away from saturation two consecutive advances differ from the combined one by at most one Q32 unit |
| `Timecode.AdvanceExact` | protocol/src/timecode.rs:159-165 | `advance` gives a valid position whose Q32 value is the saturated sum |
| `Clock.SelectedLowest` | protocol/src/clock.rs:230-236 | The fit uses a sub-multiset of the history, all of it up to four samples and otherwise the larger of four and half of it, and every sample left out comes after every one kept in delay order |
| `ClockRuns.ObserveKeepsValid` | protocol/src/clock.rs:147-229 | Every observation keeps the bounds on history, quarantine and counters; a rejected one leaves the mapping alone; a replacement history is a confirmed quarantine of 8 to 16 samples spanning 0.5 to 5 s |
| `ClockRuns.RunsStayValid` | protocol/src/clock.rs:147-306 | In every reachable state midpoints rise, at most 128 lie within 32 s of the latest observation, at most 16 are quarantined, and the drift is within 500 ppm |
| `Reacquisition.Reacquires` | protocol/src/clock.rs:192-217 | From any valid state, suspect exchanges that resemble the first within the stated limits leave the mapping untouched until there are eight spanning half a second; exactly then the last is accepted and they alone are the history |
| `Reacquisition.RunReacquires` | protocol/src/clock.rs:192-217 | The same over runs: the changed path or clock is taken over with the first exchange that completes eight over half a second |
| `Reacquisition.SpikeRefused` | protocol/src/clock.rs:187-188 | An exchange more than 20 ms slower than one of eight or more recent samples is refused and leaves the mapping untouched |
| `Reacquisition.Acquires` | protocol/src/clock.rs:218-300 | Over every steady start all exchanges are accepted and counted, and the estimate converges exactly with the first that makes twelve over half a second |
| `ClockRuns.GenuineIsTruthful` | protocol/src/clock.rs:159-187 | Half the round trip, plus 500 ppm of half the duration and the stamp error, bounds how far a sample is from the true offset |
| `ClockRuns.EvidenceContainsTruth` | protocol/src/clock.rs:269-303 | Over every run of genuine exchanges with stamps off by at most 100 microseconds the evidence interval is nonempty and contains the true offset |
| `ClockRuns.EvidenceTravels` | protocol/src/clock.rs:33-48 | An interval that contains the true offset still contains it when carried to any other time |
| `ClockFit.UncertaintyCoversTruth` | protocol/src/clock.rs:95-101 | Over every run whose exchanges the floor covers, the fitted offset is within `uncertainty_at` of the true one at every time from the last accepted receipt on |
| `ClockFit.ExactStampsUnder400ms` | protocol/src/clock.rs:286-294 | With exact stamps the floor covers an exchange if and only if it lasts less than 400 ms |
| `ClockFit.LongExchangeEscapesBound` | protocol/src/clock.rs:156-158 | A genuine accepted exchange after an expired history makes the uncertainty miss the true offset at receipt if and only if it lasted more than 400 ms |
| `ClockReach.UncertaintyMissReached` | protocol/src/clock.rs:156-158 | For every duration above 400 and up to 500 ms a run of exact genuine exchanges of a clock that drifts within 500 ppm, started from a fresh estimator, after which the true offset at the last receipt lies outside the reported uncertainty |
| `ClockFit.FitRecoversLine` | protocol/src/clock.rs:237-268 | Eight or more selected samples on a line within 500 ppm, spanning two seconds, are fitted exactly: same slope, same value, zero residual |
| `LeastSquares.FitIsLeastSquares` | protocol/src/clock.rs:237-263 | No line within 500 ppm is closer to the selected samples in squared error than the fitted one; without support for a slope none of the kept slope is |
| `LeastSquares.UncertaintyIs` | protocol/src/clock.rs:95-101 | The uncertainty is the tightest own bound of a selected sample, the largest distance of one from the line and 100 microseconds, grown by 1000 ppm since receipt |
| `LeastSquares.EvidenceIs` | protocol/src/clock.rs:273-281 | The evidence is exactly what all retained samples together leave undecided |
| `LeastSquares.EvidenceTravelsExactly` | protocol/src/clock.rs:33-48 | Carried to another time, consistent evidence admits exactly the offsets that 500 ppm of drift can lead to from one it admits; inconsistent evidence stays as it is |
| `Estimator.ClockEstimator.Observe` | protocol/src/clock.rs:147-306 | The object takes exactly the estimator's step and reports acceptance |
| `Estimator.Intersection` | protocol/src/clock.rs:273-281 | The one-pass loop over the history yields the intersection of all sample intervals |
| `Timelines.At` | protocol/src/timeline.rs:125-135 | The loop yields the last entry whose time has come and the position on it |
| `Timelines.Latch` | protocol/src/timeline.rs:136-144 | The in-place loop promotes every entry up to a discontinuity |
| `Timelines.EffectiveSound` | protocol/src/timeline.rs:125-135 | In an ordered schedule the effective entry is current or due, and exactly the due entries are at or below its discontinuity |
| `Timelines.LatchedSound` | protocol/src/timeline.rs:136-144 | Latching keeps validity and all other fields, removes exactly the entries up to the bound, and reaches a bound that is in use |
| `Timelines.LatchedAgreesFromAnchor` | protocol/src/timeline.rs:136-144 | A latched timeline gives the same trajectory as the original at every time from its own anchor on |
| `Timelines.ValidateSnapshot` | protocol/src/lib.rs:77-123 | The one-pass check accepts a snapshot if and only if its header is well-formed and every entry is complete and later, in time and identity, than the one before |
| `Timelines.DecodedValid` | protocol/src/timeline.rs:175-205 | Whatever decodes is an ordered timeline of positive revision |
| `Timelines.WireRoundTrip` | protocol/src/timeline.rs:145-205 | A valid timeline passes validation and decodes to itself |
| `WireForm.DecodesIff` | protocol/src/timeline.rs:175-205 | A snapshot decodes to an ordered timeline if and only if the revision is positive and it is that timeline's message, field by field in the numbers of the protocol, any equal fraction standing for a rate |
| `WireForm.AcceptedIff` | protocol/src/lib.rs:77-123 | A snapshot is accepted if and only if it is the message of some ordered timeline of positive revision |
| `FollowerRuns.RunStaysValid` | protocol/src/timeline.rs:463-648 | Over every run of connections, snapshots, exchanges, ticks and losses the follower keeps its invariant |
| `FollowerRuns.StepContinuous` | protocol/src/timeline.rs:482-648 | A step that reports no new session, discontinuity or hard resync leaves the position at its own instant exactly unchanged |
| `FollowerRuns.RunContinuous` | protocol/src/timeline.rs:482-648 | Over every run from the start the output jumps only at steps that report a new session, a discontinuity or a hard resync |
| `FollowerRuns.ResyncMovesAsReported` | protocol/src/timeline.rs:570-605 | A hard resync moves the output at its instant by exactly the frames it reports |
| `FollowerRuns.SlewReportsRemaining` | protocol/src/timeline.rs:609-617 | A slew reports exactly the correction it leaves to be worked off |
| `FollowerRuns.SlewSettlesInTime` | protocol/src/timeline.rs:343-353 | With a settling time a correction has been worked off exactly once that time has passed and the motion has covered ten times the correction, the share the cap leaves to slewing |
| `FollowerStatus.SlewsAtPolicyRate` | protocol/src/timeline.rs:341-353 | Without a settling time exactly the policy's rate, at most a tenth of the motion, is worked off |
| `FollowerHistory.RunForward` | protocol/src/timeline.rs:488-535 | Within one session revision and latched discontinuity never fall, and no reading ever shows a lower discontinuity than one latched |
| `FollowerHistory.LatchedStaysApplied` | protocol/src/timeline.rs:624-633 | A control applied by `tick` stays applied whatever mappings follow in the session |
| `FollowerHistory.StepForward` | protocol/src/timeline.rs:488-518 | An accepted snapshot of the held session has a strictly higher revision; another session is taken only when none is expected |
| `FollowerHistory.SessionNeedsConnection` | protocol/src/timeline.rs:482-493 | Until a new connection, the session stays the one first heard |
| `FollowerHistory.RealignmentsConfirmed` | protocol/src/timeline.rs:559-618 | Over every run, after first lock a hard resync is reported exactly by an accepted measurement that completes the required count of large errors of one sign since the last reset, and never by a heartbeat |
| `FollowerHistory.JudgedIsPhase` | protocol/src/timeline.rs:588-591 | The error that is weighed is the distance from the output shown to the trajectory then held |
| `FollowerStatus.RunReading` | protocol/src/timeline.rs:366-394 | Over every run: once measured a reading has the held timeline's format and the rate and discontinuity of its entry in effect; before that the fallback's position and format at rate zero, with no deadline ahead |
| `FollowerStatus.RunStatus` | protocol/src/timeline.rs:505-648 | Over every run synchronization is what the latest of session begun, measurement accepted, measurement found stale and connection lost says: synchronized only directly after a converged measurement, in holdover from a stale tick or loss until the next |
| `FollowerStatus.GenerationCounts` | protocol/src/timeline.rs:517-602 | Over every run the resync generation counts the new sessions and hard resyncs reported and nothing else |
| `FollowerStatus.AnnouncedClears` | protocol/src/timeline.rs:517-602 | A snapshot or measurement that announces anything ends the correction at once |
| `FollowerStatus.TicksReportChanges` | protocol/src/timeline.rs:624-642 | Over every run a tick reports a discontinuity exactly when the one in effect is not the one last noted in the session |
| `FollowerStatus.RunLocked` | protocol/src/timeline.rs:505-574 | Over every run acquisition has ended exactly if some accepted measurement of the session has converged |
| `FollowerStatus.RunConnection` | protocol/src/timeline.rs:482-648 | Over every run the follower counts as connected exactly from a connection to the next loss |
| `FollowerStatus.NewConnectionAdmits` | protocol/src/timeline.rs:482-518 | The first snapshot of another session on a new connection replaces the held timeline, announced, and starts the clock over |
| `FollowerStatus.FormatChangeAnnounced` | protocol/src/timeline.rs:497-504 | Within a session the format on show changes only with an announced discontinuity beyond the one on show |
| `FollowerCore.Core.Receive` | protocol/src/timeline.rs:488-535 | The object takes exactly the snapshot step and reports its correction |
| `FollowerCore.Core.Measure` | protocol/src/timeline.rs:540-587 | The object takes exactly the measurement step and reports its correction |
| `FollowerCore.Core.Correct` | protocol/src/timeline.rs:588-618 | The object either resynchronizes after enough confirmations or slews, exactly as the step |
| `FollowerCore.Core.Tick` | protocol/src/timeline.rs:624-642 | The object takes exactly the tick step |
| `FollowerCore.Core.Connected` | protocol/src/timeline.rs:482-487 | A new connection resets the counts and the expected session and nothing else |
| `FollowerCore.Core.Disconnected` | protocol/src/timeline.rs:643-648 | A loss changes only connection state and synchronization |
| `Trajectory.TravelsWithRate` | protocol/src/timeline.rs:341-354 | Between controls, at any drift within 500 ppm and any slew, the untruncated trajectory covers between 0.8995 and 1.1005 of the distance its rate asks for |
| `Trajectory.NeverReverses` | protocol/src/timeline.rs:341-354 | It is strictly monotone in the rate's direction, and constant when paused |
| `Trajectory.EvaluatesNearIdeal` | protocol/src/timeline.rs:334-354 | Away from saturation the integer output is within two Q32 units and one leader nanosecond of travel of it |
| `Boundary.First` | protocol/src/boundary.rs:22-35 | The bisection loop ends where the recursive bisection does |
| `Boundary.Bisected` | protocol/src/boundary.rs:26-34 | The end satisfies the predicate and its predecessor does not, unless it is the start |
| `Boundary.FirstIsLeast` | protocol/src/boundary.rs:22-35 | On a predicate that stays true it is the least point, and none is found only if there is none |
| `Boundary.TargetIsNext` | protocol/src/boundary.rs:60-66 | The target is the nearest whole frame strictly ahead in the playback direction |
| `Boundary.ControlDeadlineExact` | protocol/src/boundary.rs:49-57 | The control deadline is the first nanosecond after now at which a control has taken effect, if there is one |
| `Boundary.NextBoundarySound` | protocol/src/boundary.rs:40-83 | With any pending correction: no control before the deadline, a frame reached at it and not one nanosecond earlier, a control winning ties |
| `Boundary.NextBoundaryExact` | protocol/src/boundary.rs:40-83 | With nothing pending or a correction along playback: exactly the first nanosecond at which a frame is reached or a control takes effect, none only if nothing happens in range |
| `Boundary.Next` | protocol/src/boundary.rs:40-96 | The computation with its two bisections gives that boundary and its uncertainty |
| `Boundary.OpposedCorrectionMissesFirst` | protocol/src/boundary.rs:67-74 | A running view with an opposed correction whose deadline is 2002 although the frame is reached at 2000 |
| `BoundaryBounds.NextBoundaryUnstalled` | protocol/src/boundary.rs:40-83 | Whatever the correction, if the drift is not negative, the motion is at least one unit per nanosecond and nothing clamps until the correction is worked off: exactly the first nanosecond at which a frame is reached or a control takes effect |
| `SlowMotion.SlowMotionMissesFirst` | protocol/src/boundary.rs:67-74 | A running view on a perfect clock at 0.98 units per nanosecond whose deadline is 165 although the frame is reached at 163 |
| `BoundaryBounds.BoundaryLateness` | protocol/src/boundary.rs:67-74 | For every running view, correction and direction, away from saturation: between any earlier time at which the frame was reached and the last one missed, 0.8995 of the motion is less than four Q32 units and two nanoseconds of travel |
| `BoundaryBounds.AtMostThreeNanosecondsLate` | protocol/src/boundary.rs:67-74 | From six Q32 units per nanosecond on, away from saturation, the deadline is at most 3 ns after the first crossing |
| `BoundaryBounds.UncertaintyCoversFrame` | protocol/src/boundary.rs:84-95 | If the clock's error stays within its bound at the deadline grown by 1000 ppm, the true trajectory has reached the target frame once the boundary's uncertainty and 0.12 percent of it have passed after the deadline, and has not passed it that long before, up to truncation and three nanoseconds of travel |
| `BoundaryBounds.UncertaintyCoversControl` | protocol/src/boundary.rs:84-95 | The same for leader time and the time of the scheduled control, up to 1.0005 ns |
| `Tracking.RoutineSample` | protocol/src/tracking.rs:75-97 | A sample without a discontinuity changes only anchor and health, keeps the rate, and moves the trajectory toward the source without overshoot by at most a fiftieth of a frame |
| `Tracking.RateOfSound` | protocol/src/tracking.rs:61-70 | The rate built from three consistent estimates is always valid, so a sample never fails halfway |
| `SourceSpeed.OneEstimate` | protocol/src/tracking.rs:24-75 | For samples at a constant speed: within 0.02 of the rate nothing about the rate changes, beyond it the third consistent estimate gives the source's place and a rate within a twenty thousandth of its speed |
| `SourceSpeed.ThirdEstimateSets` | protocol/src/tracking.rs:24-75 | Over every run the third sample in a row at a new speed turns the trajectory to it, sign included |
| `SourceSpeed.SteadySourceKept` | protocol/src/tracking.rs:24-75 | A source within 0.02 of the rate and a frame of the trajectory causes no discontinuity of its own |
| `SourceSpeed.HintTaken` | protocol/src/tracking.rs:55-60 | The rate after a sample with an exact hint is the hint: another rate is taken at once, the same one kept whatever speed the positions suggest |
| `SourceSpeed.SampleMoves` | protocol/src/tracking.rs:75-97 | A discontinuous sample puts the trajectory where the source is under the next number; any other moves it a fifth of the way, capped at a fiftieth of a frame |
| `SourceSpeed.JudgementIs` | protocol/src/tracking.rs:24-75 | What a sample is judged to say, in units of the position and by its speed |
| `TrackingRuns.DiscontinuitiesCaused` | protocol/src/tracking.rs:40-98 | Over every run of samples a discontinuity is introduced exactly by a flag, a first sample, an exact new rate, or a third judgement in a row that the source is off in one direction or runs at one new speed |
| `Tracking.Tracker.Sample` | protocol/src/tracking.rs:15-98 | The object takes exactly the tracking step; a refused sample changes nothing |
| `TrackingRuns.HealthyIffHeard` | protocol/src/tracking.rs:99-108 | Over every run of samples the source is healthy exactly when some accepted sample lies within the timeout |
| `TrackingRuns.DegradedUntilHeard` | protocol/src/tracking.rs:99-108 | A degraded source stays degraded at every later time until another sample is accepted |
| `Leader.ChangeTimeline` | native/src/network.rs:890-936 | The in-place control computes the specified change, or fails |
| `Leader.ControlTakesEffect` | native/src/network.rs:890-936 | At its time a control gives the requested position and the requested rate, or those the old trajectory had there, from then on and under the next free discontinuity; one for a later time than now leaves everything before it untouched, an immediate one cancels everything pending |
| `Leader.PauseHolds` | native/src/network.rs:890-936 | After a control to rate zero the position found there stays, up to the next control |
| `Leader.HandleSound` | native/src/network.rs:388-434 | Every command keeps pending controls numbered upward in rising time, and its highest discontinuity at or above every reserved one exactly when it is not a discontinuous sample over two or more of them |
| `Naming.CancelsAboveReserved` | protocol/src/tracking.rs:90-95 | A handled command that cancels the schedule takes a discontinuity above every reserved one if and only if it is not a discontinuous sample over pending controls |
| `Naming.HandleNames` | native/src/network.rs:388-434 | Every other command leaves each discontinuity in use on the same trajectory, up to one nudge of the active anchor of a tracked source |
| `Naming.RunNames` | native/src/network.rs:380-465 | Over every run without such samples, published timelines that share a discontinuity have the same anchor under it, up to as many routine nudges of a tracked source as samples were fed |
| `Naming.ControlledNamesExactly` | native/src/network.rs:380-465 | Over every run driven by controls alone, two published timelines that share a discontinuity have exactly the same anchor under it |
| `Retention.RunHonours` | native/src/network.rs:918-935 | Over every run without such samples, a published control is still scheduled or has had its turn in every later snapshot, unless that snapshot's active discontinuity is strictly above everything reserved with it |
| `Retention.RunRetains` | native/src/network.rs:918-935 | Over every orderly run, a control that published timelines schedule under one number is the same control at the same time in all of them |
| `Retention.AnchoredByThen` | native/src/network.rs:437-465 | No published timeline is anchored after the leader's clock at its publication |
| `Leader.DueSound` | native/src/network.rs:437-444 | Applying due controls leaves a valid timeline with nothing due, even when a sample had moved the anchor past them |
| `Leader.PassSound` | native/src/network.rs:380-465 | A pass publishes a valid timeline with the next revision that receivers accept and decode to itself; whatever it does not publish differs from what peers hold only in the anchor |
| `Leader.PassKeepsUp` | native/src/network.rs:458-465 | After a pass with its heartbeat or its tracked interval due the peers' bytes decode to the current timeline; with the heartbeat, or when they did not before, under a new revision |
| `Leader.PassStaysQuiet` | native/src/network.rs:437-465 | A pass whose commands are none, known identities, and controls and samples to be refused publishes nothing and changes nothing when nothing is due and health is as it was |
| `Leader.PeersKeepUp` | native/src/network.rs:458-465 | Over every run peers lag in the anchor only, and not after a pass whose tracked interval or heartbeat was due |
| `LeaderInputs.RunIdentity` | native/src/network.rs:393-399 | Over every run peers are told the recording identity last assigned |
| `LeaderInputs.ControlPassPublishes` | native/src/network.rs:400-407 | A pass that takes an accepted control publishes |
| `LeaderInputs.PublishesIff` | native/src/network.rs:384-465 | A pass publishes exactly when its heartbeat is due, when something other than the anchor changes in it, or when samples were taken since the last publication and the tracked interval is due |
| `LeaderInputs.Begins` | native/src/network.rs:337-362 | A leader begins at its position and rate under number zero and revision one, which is what peers are sent; a tracked source counts as degraded until it is heard |
| `LeaderInputs.RunTracks` | native/src/network.rs:408-431 | Over every run the tracker has seen exactly the samples fed, in order |
| `LeaderInputs.RunHealth` | native/src/network.rs:445-457 | After every pass a tracked leader shows, and has told peers, that its source is healthy exactly when some accepted sample is no older than the timeout |
| `Leader.EveryPublishSound` | native/src/network.rs:458-465 | Over every run mixing immediate, scheduled and tracked inputs, published timelines carry revisions 1, 2, 3 and so on, and each is valid and survives the wire |
| `LeaderJob.Job.Drain` | native/src/network.rs:384-435 | One batch of at most 32 commands is applied in order, and more is flagged exactly when the batch was full |
| `LeaderJob.Job.ApplyDue` | native/src/network.rs:437-444 | The in-place loop promotes every control whose time has come |
| `LeaderJob.Job.Advance` | native/src/network.rs:380-465 | The object takes exactly the step of a pass |
| `Distributed.RunLineage` | native/src/network.rs:458-465 | What a leader publishes has rising revisions, and the highest discontinuity of every later snapshot is at or above what earlier ones reserved |
| `Distributed.HoldsWhatWasPublished` | protocol/src/timeline.rs:488-535 | Under any loss, reordering and repetition the held timeline is the published one of its revision advanced by latching, and gives the published positions from its anchor on |
| `Distributed.DiscardedIff` | protocol/src/timeline.rs:498-507 | A snapshot is discarded exactly when the discontinuity on show is beyond everything it uses, or when it has another format and the discontinuity on show is not below its active one |
| `Distributed.NeverDiscarded` | protocol/src/timeline.rs:497-507 | A snapshot of the held session with a higher revision is never discarded |
| `Distributed.HonestUpdateTaken` | protocol/src/timeline.rs:488-535 | After any run a wanted snapshot leaves the follower in its session at the newer of the two revisions |
| `Distributed.EndToEnd` | native/src/network.rs:380-465 | The two properties above for any leaders driven by any orderly inputs and any delivery of what they publish |
| `Announcements.JumpAnnounced` | protocol/src/timeline.rs:517-535 | For leaders whose discontinuities name one trajectory: an accepted snapshot that reports neither a new session nor a discontinuity leaves the entry on show the same, number and trajectory |
| `Announcements.EveryJumpAnnounced` | protocol/src/timeline.rs:517-535 | The same over any runs of such leaders and any delivery of what they publish: a follower reports every accepted jump of the entry in effect |
| `Accuracy.ReadingAccurate` | protocol/src/timeline.rs:334-394 | If the clock is within its reported uncertainty, and the follower's leader time is past the held anchor and away from every scheduled time by that uncertainty and a nanosecond, the leader is in the same entry, the reading shows its format, rate and discontinuity, and the output differs from its position by less than `alignment_error_ns` as motion, three Q32 units and two nanoseconds of travel |
| `Accuracy.FollowerAccurate` | protocol/src/timeline.rs:334-394 | The same end to end, against the published timeline of the held revision: any leaders, any delivery, any covered genuine exchanges, under conditions the follower can check, at every time from the last accepted receipt on |
| `Accuracy.CurrentAccurate` | protocol/src/timeline.rs:334-366 | With leaders driven by controls alone the bound holds against every timeline published from the held one on, whenever both sides show the same discontinuity |
| `EarlyControls.HurriedIff` | protocol/src/timeline.rs:494-504 | Before the first accepted exchange a newer snapshot is latched beyond what was published if and only if it and the held timeline share a control dated at or before the follower's time |
| `EarlyControls.UntouchedIffPatient` | protocol/src/timeline.rs:488-535 | Over every run and delivery an unmeasured follower holds its leader's timeline as published if and only if no snapshot was such |
| `EarlyControls.HeldAnchorReached` | protocol/src/timeline.rs:488-642 | Over every run without such a snapshot the held anchor was, when taken over, at most the uncertainty reported then ahead of the true leader time |
| `EarlyControls.NoControlEarly` | protocol/src/timeline.rs:488-642 | The same end to end, for any leaders under orderly inputs and any delivery after publication |
| `EarlyControls.AnchorSoonPassed` | protocol/src/timeline.rs:334-341 | An anchor taken over so is behind the follower's leader time by its uncertainty and a nanosecond after little more than twice that uncertainty and what it was ahead by |
| `HurriedRun.HurriedControlStays` | protocol/src/timeline.rs:494-504 | For every timeline heard twice before the first exchange, a control dated at or before the local clock is applied and never undone in the session, while the leader plays an earlier entry until its clock reaches it |
| `HurriedRun.HurriedControlHappens` | protocol/src/timeline.rs:494-504 | A complete run of a leader and a follower, exact exchange included, in which a control is applied a minute early |
| `CancelledControls.JumpOverControlsDiscarded` | protocol/src/tracking.rs:90-95 | A follower that shows a later number than the first of the cancelled controls discards the snapshot that cancels them, at any time |
| `CancelledControls.JumpOverControlsHappens` | protocol/src/tracking.rs:90-95 | A concrete leader run in which that occurs with perfect clocks, and a follower run from the initial state that hears both snapshots and keeps the older |
| `CancelledControls.JumpOverControlUnannounced` | protocol/src/tracking.rs:90-95 | A follower that shows the number of the first cancelled control, however many were pending, takes the snapshot, slews, keeps its position and reports no discontinuity |
| `CancelledControls.JumpOverControlsAnnounced` | protocol/src/tracking.rs:90-95 | A follower that shows none of the reserved numbers takes the snapshot and reports the discontinuity |
| `CancelledControls.JumpAnnouncedIff` | protocol/src/tracking.rs:90-95 | For every follower in the session the jump is reported if and only if it shows none of the reserved numbers |
| `CancelledControls.JumpOverControlHappens` | protocol/src/tracking.rs:90-95 | Concrete runs of a leader and a follower in which that occurs, the trajectory under the shared number jumping by 45 frames |
| `Worker.NoLostWake` | native/src/worker.rs:68-118 | In every interleaving, when the worker sleeps with factories waiting, or commands for a job drained in this pass, a wake is pending or a sender still has to deliver it |
| `Worker.NothingForgotten` | native/src/worker.rs:28-118 | If every visit reaches its drain, this holds for every job |
| `Worker.StepKeepsInv` | native/src/worker.rs:68-118 | Every step of senders and worker keeps every queue drained in the pass noticed, across the 64 and 32 item batches |
| `Worker.SkippedDrainForgets` | native/src/network.rs:670-672 | A run in which a step that skips its drain leaves a command waiting while the worker polls, with no wake to come, with the deadline that step named as its timeout |
| `Worker.TimeoutIsEarliest` | native/src/worker.rs:94-118 | In every interleaving the timeout chosen for the poll is the earliest deadline of the jobs, none only when there are no jobs |
| `WorkerQueues.SleepsIff` | native/src/worker.rs:97-107 | The worker sleeps exactly when no batch was left full, nobody has notified it, no job has more to do and every deadline is still to come |
| `WorkerQueues.QueuesConserved` | native/src/worker.rs:68-93 | Over every interleaving: factories run in the order sent, every command sent to a job is received or waiting, and the jobs there are, with those ended, are those built |
| `WorkerQueues.EveryJobVisited` | native/src/worker.rs:90-118 | Over every interleaving each pass visits every job exactly once before the worker decides how long to sleep |
| `Http3.VarintRoundTrip` | native/src/transport/web.rs:1138-1163 | Decoding an encoding gives the value back, whatever follows it, if and only if the value is below 2^62 |
| `Http3.DecodedRange` | native/src/transport/web.rs:1151-1163 | Nothing decodes to 2^62 or more, and no encoding of a value is shorter than the one produced |
| `Http3.EncodingIs` | native/src/transport/web.rs:1138-1150 | The bytes of an encoding are the value, most significant first, under a two-bit length |
| `Http3.Examples` | native/src/transport/web.rs:1151-1163 | The examples of section A.1 of RFC 9000 decode as given there |
| `Http3.DecodeVarint` | native/src/transport/web.rs:1151-1163 | The loop yields the value and the rest of the slice, or leaves the slice alone |
| `VarReading.VarRead.Poll` | native/src/transport/web.rs:1111-1135 | However the bytes arrive, the varint is delivered exactly when a complete one has, no byte is lost, and none past it is taken |
| `Capsules.Reader.Demux` | native/src/transport/web.rs:1550-1575 | The loop over the two buffers takes exactly the frame-splitting step |
| `Capsules.DemuxIsParse` | native/src/transport/web.rs:1550-1575 | It fails exactly when the payloads would overflow the body; otherwise it leaves the joined payloads of all whole frames and the unparsed suffix |
| `Capsules.ParseResumes` | native/src/transport/web.rs:1550-1575 | Parsing may stop anywhere and resume with more bytes to the same result |
| `Capsules.RunConserves` | native/src/transport/web.rs:1517-1575 | Over every interleaving of arrival, splitting and consumption nothing of the capsule stream is lost, repeated or reordered |
| `Capsules.ChunkIndependent` | native/src/transport/web.rs:1517-1575 | Two runs over the same bytes, chunked in any way, produce the same capsule stream and hold the same suffix |
| `Capsules.FramesRoundTrip` | native/src/transport/web.rs:1550-1575 | For every list of frames written, with the last cut short anywhere, the DATA payloads come out joined in order and only the cut frame is left |
| `Probes.Probes.Request` | protocol/src/probes.rs:23-42 | The slots keep describing the last 128 requests of the log; the request gets the next sequence and its own time |
| `Probes.Probes.PublicationFinished` | protocol/src/probes.rs:44-49 | A delay is recorded for the latest request only, while it is unanswered |
| `Probes.Probes.Receive` | protocol/src/probes.rs:53-75 | A reply yields an exchange and its delay exactly when the unbounded log says so |
| `Probes.Probes.SlotMatches` | protocol/src/probes.rs:55-59 | A slot matches an echo exactly when it is of one of the 128 latest requests, with its time, and still unanswered |
| `Probes.AtMostOneExchange` | protocol/src/probes.rs:53-75 | Over every run each sequence yields at most one exchange |
| `Probes.ExchangeIsOfItsRequest` | protocol/src/probes.rs:53-75 | An exchange carries the time of the request that got its sequence, and its residence is at most its duration, at most 500 ms |
| `Probes.ReportedDelayMatches` | protocol/src/probes.rs:44-70 | A reported publication delay was measured for that same request while it was the latest |
| `Probes.IgnoredReplyCostsNothing` | protocol/src/probes.rs:55-62 | A reply that matches no open request, or whose times are impossible, leaves the request's true answer as good as before |

## Left out

- QUIC, TLS, mDNS, MoQ sessions, sockets and reader buffers: input and output through libraries that are not part of this model.
- Protobuf bytes and the 512-byte message limit: messages are datatypes, so a publication never fails for its size.
- IEEE rounding of `f64`: reals are used, so results hold up to that rounding.
- Status fields that only report (RTT, loss, age) and the diagnostic trace.
- Decoding of capsules, SETTINGS and CONNECT: capsule bodies are opaque bytes, consumed in any amount.
- `output.rs` and `runtime.rs` timers, probe cadence, bindings, terminal and web interfaces: correct but easy members.
- ClockFit.UncertaintyCoversTruth: exchanges of exactly 400 ms with exact stamps are covered neither by it nor by the escaping family; half a nanosecond of rounding decides.
- Boundary.NextBoundaryExact: its condition and that of BoundaryBounds.NextBoundaryUnstalled are sufficient, not necessary; beyond both, an opposed correction misses the first crossing only when a dip of the integer output coincides with it, and then by no more than BoundaryBounds.BoundaryLateness allows.
- Worker.TimeoutIsEarliest: the passing of time and the poll's return at its timeout are not modelled, only the choice of the timeout.
- Worker.NoLostWake: each atomic load, store, enqueue and dequeue is one step under sequential consistency; weaker memory orderings are not modelled, and the worker is a state machine rather than a loop because senders act between its steps.
- LeaderJob.Job.Advance: readers, peers and their snapshots, and the failure of encoding, are not part of it.
- Tracking.Tracker.Sample: timelines are values handed in and out, so the update of the caller's timeline in place is an assignment by the caller.
