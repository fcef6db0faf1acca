/** The mutable estimator: queues pushed, popped and cleared in place, proved equal to the
    step function of module `Clock`. */
module Estimator {
  import opened Arithmetic
  import opened Clock

  class ClockEstimator {
    var samples: seq<Sample>
    var mapping: ClockMapping
    var recovery: seq<Sample>
    var lastObserved: Option<real>

    function State(): EstimatorState
      reads this
    {
      EstimatorState(samples, mapping, recovery, lastObserved)
    }

    predicate Recovering()
      reads this
    {
      recovery != []
    }

    constructor ()
      ensures State() == FRESH
    {
      samples, mapping, recovery, lastObserved := [], NO_MAPPING, [], None;
    }

    /** `observe_inner`. */
    method Observe(e: Exchange) returns (accepted: bool)
      modifies this
      ensures State() == Clock.Observe(old(State()), e).state
      ensures accepted == Clock.Observe(old(State()), e).accepted
    {
      hide WellTimed, Midpoint, Evicted, ObserveFresh;
      if !WellTimed(e) {
        return false;
      }
      var local := Midpoint(e);
      if lastObserved.Some? && local <= lastObserved.value {
        return false;
      }
      lastObserved := Some(local);
      Evict(local);
      accepted := Admit(e);
    }

    /** An observation after the timestamp checks and the eviction. */
    method Admit(e: Exchange) returns (accepted: bool)
      modifies this
      ensures State() == ObserveFresh(old(State()), e).state && accepted == ObserveFresh(old(State()), e).accepted
    {
      hide Fit, Quarantined, RejectedDelay, RejectedOffset, Clock.Refit, Newest;
      var sample := SampleOf(e);
      var count;
      if RejectedDelay(samples, sample) || RejectedOffset(samples, mapping, sample, e.t4) {
        Suspect(sample);
        if |recovery| < 8 || sample.local - recovery[0].local < 500_000_000.0 {
          return false;
        }
        samples, recovery := recovery, [];
        count := |samples|;
      } else {
        recovery := [];
        count := if samples == [] then 1 else MinI(mapping.acceptedObservations + 1, U64_MAX);
        samples := samples + [sample];
      }
      Refit(e, count);
      return true;
    }

    /** Quarantines a rejected sample; an inconsistent one restarts the quarantine. */
    method Suspect(sample: Sample)
      modifies this`recovery
      ensures recovery == Quarantined(old(recovery), sample, mapping.drift)
    {
      hide SameRegime;
      if recovery != [] && !SameRegime(recovery[0], sample, mapping.drift) {
        recovery := [];
      }
      recovery := recovery + [sample];
      recovery := DropOldest(recovery, 16);
    }

    /** Bounds the history and replaces the mapping by its fit. */
    method Refit(e: Exchange, count: nat)
      requires samples != []
      modifies this`samples, this`mapping
      ensures State() == Clock.Refit(old(State()), e, count).state
    {
      samples := DropOldest(samples, 128);
      var lower, upper := Intersection(samples, e.t4);
      mapping := Fit(samples, Midpoint(e), e.t4, mapping.drift, count)
                 .(evidence := Some(OffsetEvidence(e.t4, lower, upper, |samples|)));
    }

    /** Keeps a 32-second history. */
    method Evict(local: real)
      modifies this`samples
      ensures samples == Evicted(old(samples), local)
    {
      while samples != [] && local - samples[0].local > HISTORY_NS
        invariant Evicted(samples, local) == Evicted(old(samples), local)
        decreases |samples|
      {
        samples := samples[1..];
      }
    }
  }

  method DropOldest(samples: seq<Sample>, most: nat) returns (r: seq<Sample>)
    ensures r == Newest(samples, most)
  {
    r := samples;
    while |r| > most
      invariant |r| <= |samples| && r == samples[|samples| - |r|..]
      invariant |samples| >= most ==> |r| >= most
      invariant |samples| < most ==> r == samples
      decreases |r|
    {
      r := r[1..];
    }
  }

  /** Intersects every retained sample's interval, all carried to the receipt time: the
      bounds are attained, and no sample's interval reaches less far. */
  method Intersection(samples: seq<Sample>, t4: nat) returns (lower: real, upper: real)
    requires samples != []
    ensures lower == EvidenceLower(samples, t4) && upper == EvidenceUpper(samples, t4)
    ensures forall s <- samples :: s.offset - EvidenceRadius(s, t4) <= lower
    ensures forall s <- samples :: upper <= s.offset + EvidenceRadius(s, t4)
  {
    hide EvidenceRadius;
    lower := samples[0].offset - EvidenceRadius(samples[0], t4);
    upper := samples[0].offset + EvidenceRadius(samples[0], t4);
    var i := 1;
    while i < |samples|
      invariant 1 <= i <= |samples|
      invariant EvidenceLower(samples, t4)
                == if i == |samples| then lower else MaxR(lower, EvidenceLower(samples[i..], t4))
      invariant EvidenceUpper(samples, t4)
                == if i == |samples| then upper else MinR(upper, EvidenceUpper(samples[i..], t4))
      invariant forall j :: 0 <= j < i ==> samples[j].offset - EvidenceRadius(samples[j], t4) <= lower
      invariant forall j :: 0 <= j < i ==> upper <= samples[j].offset + EvidenceRadius(samples[j], t4)
    {
      assert samples[i..][1..] == samples[i + 1..];
      lower := MaxR(lower, samples[i].offset - EvidenceRadius(samples[i], t4));
      upper := MinR(upper, samples[i].offset + EvidenceRadius(samples[i], t4));
      i := i + 1;
    }
  }
}
