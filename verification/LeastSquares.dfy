/** What the fit is: the least-squares line of the selected samples, and the tightest bound on it. */
module LeastSquares {
  import opened Arithmetic
  import opened Clock
  import opened ClockFit

  /** Sum of the squared distances of the samples from the line of this slope that has this value at
      the time `at`. */
  function SquaredError(samples: seq<Sample>, at: real, value: real, slope: real): real {
    if samples == [] then 0.0
    else Square(samples[0].offset - (value + slope * (samples[0].local - at)))
         + SquaredError(samples[1..], at, value, slope)
  }

  function Square(x: real): real {
    x * x
  }

  /** Sum of deviations from a centre. */
  function Deviations(xs: seq<real>, x: real): real {
    if xs == [] then 0.0 else xs[0] - x + Deviations(xs[1..], x)
  }

  /** The squared error of the line of slope `b` that passes `a` above the centre `(x, y)`. */
  function Spread(yy: real, xy: real, xx: real, dy: real, dx: real, n: real, a: real, b: real): real {
    yy - 2.0 * (b * xy) + b * b * xx - 2.0 * (a * (dy - b * dx)) + n * (a * a)
  }

  lemma SpreadStep(yy: real, xy: real, xx: real, dy: real, dx: real, n: real, a: real, b: real, p: real, d: real)
    ensures Spread(yy + p * p, xy + d * p, xx + d * d, dy + p, dx + d, n + 1.0, a, b)
         == Square(p - b * d - a) + Spread(yy, xy, xx, dy, dx, n, a, b)
  {
    assert Square(p - b * d - a) == p * p + b * b * (d * d) + a * a - 2.0 * (b * (d * p)) - 2.0 * (a * (p - b * d)) by {
      var q := b * d;
      assert Square(p - q - a) == p * p + q * q + a * a - 2.0 * (p * q) - 2.0 * (a * (p - q));
      assert q * q == b * b * (d * d);
      assert p * q == b * (d * p);
    }
    assert b * (xy + d * p) == b * xy + b * (d * p);
    assert b * b * (xx + d * d) == b * b * xx + b * b * (d * d);
    assert b * (dx + d) == b * dx + b * d;
    assert a * (dy + p - (b * dx + b * d)) == a * (dy - b * dx) + a * (p - b * d);
    assert (n + 1.0) * (a * a) == n * (a * a) + a * a;
  }

  lemma {:induction false} ErrorIsSpread(
      samples: seq<Sample>, at: real, x: real, y: real, value: real, a: real, b: real)
    requires value == y + a - b * x
    ensures var xs, ys := Ages(samples, at), Offsets(samples);
            SquaredError(samples, at, value, b)
            == Spread(Codeviation(ys, y, ys, y), Codeviation(xs, x, ys, y), Codeviation(xs, x, xs, x),
                      Deviations(ys, y), Deviations(xs, x), |samples| as real, a, b)
  {
    hide Square, Spread, Times;
    var xs, ys := Ages(samples, at), Offsets(samples);
    if samples == [] {
      EmptySpread(a, b);
    } else {
      var rest := samples[1..];
      assert xs[1..] == Ages(rest, at) && ys[1..] == Offsets(rest);
      ErrorIsSpread(rest, at, x, y, value, a, b);
      var p, d := ys[0] - y, xs[0] - x;
      var yy, xy, xx := Codeviation(ys[1..], y, ys[1..], y), Codeviation(xs[1..], x, ys[1..], y),
                        Codeviation(xs[1..], x, xs[1..], x);
      var dy, dx := Deviations(ys[1..], y), Deviations(xs[1..], x);
      Products(p, d);
      assert Codeviation(ys, y, ys, y) == yy + p * p;
      assert Codeviation(xs, x, ys, y) == xy + d * p;
      assert Codeviation(xs, x, xs, x) == xx + d * d;
      assert Deviations(ys, y) == dy + p && Deviations(xs, x) == dx + d;
      SpreadStep(yy, xy, xx, dy, dx, |rest| as real, a, b, p, d);
      FirstTerm(ys[0], xs[0], x, y, value, a, b);
      assert |samples| as real == |rest| as real + 1.0;
      assert SquaredError(samples, at, value, b)
          == Square(samples[0].offset - (value + b * (samples[0].local - at))) + SquaredError(rest, at, value, b);
      assert samples[0].offset - (value + b * (samples[0].local - at)) == p - b * d - a;
    }
  }

  lemma Products(p: real, d: real)
    ensures Times(p, p) == p * p && Times(d, p) == d * p && Times(d, d) == d * d
  {
  }

  lemma EmptySpread(a: real, b: real)
    ensures Spread(0.0, 0.0, 0.0, 0.0, 0.0, 0.0, a, b) == 0.0
  {
    assert b * 0.0 == 0.0 && b * b * 0.0 == 0.0 && a * 0.0 == 0.0 && 0.0 * (a * a) == 0.0;
  }

  lemma FirstTerm(offset: real, age: real, x: real, y: real, value: real, a: real, b: real)
    requires value == y + a - b * x
    ensures offset - (value + b * age) == offset - y - b * (age - x) - a
  {
  }

  lemma {:induction false} DeviationsSum(xs: seq<real>, x: real)
    ensures Deviations(xs, x) == Sum(xs) - |xs| as real * x
  {
    if xs != [] {
      DeviationsSum(xs[1..], x);
      assert |xs| as real * x == (|xs| - 1) as real * x + x;
    }
  }

  lemma CentredOnMean(xs: seq<real>)
    requires xs != []
    ensures Deviations(xs, Mean(xs)) == 0.0
  {
    DeviationsSum(xs, Mean(xs));
    assert Sum(xs) / |xs| as real * |xs| as real == Sum(xs);
  }

  /** On a parabola that opens upward the nearest slope within a range is the best in it. */
  lemma NearestIsBest(xx: real, xy: real, best: real, chosen: real, other: real)
    requires xx > 0.0 && best * xx == xy && chosen == ClampR(best, -0.0005, 0.0005) && -0.0005 <= other <= 0.0005
    ensures chosen * chosen * xx - 2.0 * (chosen * xy) <= other * other * xx - 2.0 * (other * xy)
  {
    var c, o := chosen - best, other - best;
    assert chosen * chosen * xx - 2.0 * (chosen * xy) == xx * (c * c) - xx * (best * best) by {
      Completed(xx, xy, best, chosen);
    }
    assert other * other * xx - 2.0 * (other * xy) == xx * (o * o) - xx * (best * best) by {
      Completed(xx, xy, best, other);
    }
    NearerSquare(c, o);
    MulMonotoneR(xx, c * c, o * o);
  }

  lemma NearerSquare(c: real, o: real)
    requires (0.0 <= c <= o) || (o <= c <= 0.0)
    ensures c * c <= o * o
  {
    TimesSign(o - c, o + c);
    assert Times(o - c, o + c) == o * o - c * c;
  }

  lemma Completed(xx: real, xy: real, best: real, b: real)
    requires best * xx == xy
    ensures b * b * xx - 2.0 * (b * xy) == xx * ((b - best) * (b - best)) - xx * (best * best)
  {
    assert (b - best) * (b - best) == b * b - 2.0 * (b * best) + best * best;
    assert xx * (b * b - 2.0 * (b * best) + best * best) == xx * (b * b) - 2.0 * (xx * (b * best)) + xx * (best * best);
    assert xx * (b * best) == b * (best * xx);
  }

  /** No line whose slope is within 500 ppm is closer to the selected samples than the fitted one;
      when too few or too short a span support a slope, none of the slope kept from before is. */
  lemma FitIsLeastSquares(selected: seq<Sample>, local: real, previous: real, value: real, slope: real)
    requires selected != [] && -0.0005 <= slope <= 0.0005
    ensures var drift := FittedDrift(selected, local, previous);
            var offset := FittedOffset(selected, local, drift);
            var supported := |selected| >= 8 && Latest(selected) - Earliest(selected) >= 2_000_000_000.0;
            && (!supported ==> drift == previous)
            && (supported || slope == drift ==>
                  SquaredError(selected, local, offset, drift) <= SquaredError(selected, local, value, slope))
  {
    hide SquaredError, Spread, Latest, Earliest, Ages, Offsets, Mean, Codeviation;
    var xs, ys := Ages(selected, local), Offsets(selected);
    var x, y, n := Mean(xs), Mean(ys), |selected| as real;
    var drift := FittedDrift(selected, local, previous);
    var a := value - y + slope * x;
    CentredOnMean(xs);
    CentredOnMean(ys);
    ErrorIsSpread(selected, local, x, y, FittedOffset(selected, local, drift), 0.0, drift);
    ErrorIsSpread(selected, local, x, y, value, a, slope);
    var xx, xy, yy := Codeviation(xs, x, xs, x), Codeviation(xs, x, ys, y), Codeviation(ys, y, ys, y);
    CentredSpread(yy, xy, xx, n, 0.0, drift);
    CentredSpread(yy, xy, xx, n, a, slope);
    if |selected| >= 8 && Latest(selected) - Earliest(selected) >= 2_000_000_000.0 {
      SpreadPositive(selected, local);
      assert xy / xx * xx == xy;
      NearestIsBest(xx, xy, xy / xx, drift, slope);
    }
    SquareNonNegative(n, a);
  }

  lemma CentredSpread(yy: real, xy: real, xx: real, n: real, a: real, b: real)
    ensures Spread(yy, xy, xx, 0.0, 0.0, n, a, b) == yy + (b * b * xx - 2.0 * (b * xy)) + n * (a * a)
  {
    assert b * 0.0 == 0.0 && a * (0.0 - 0.0) == 0.0;
  }

  lemma SquareNonNegative(n: real, a: real)
    requires n >= 0.0
    ensures n * (a * a) >= 0.0 && n * (0.0 * 0.0) == 0.0
  {
    TimesSign(a, a);
    MulNonNegativeR(n, a * a);
  }

  // ---------------------------------------------------------------- the uncertainty

  /** A sample's half delay, and what the clocks may move apart at 1000 ppm until receipt. */
  function OwnBound(s: Sample, receipt: nat): real {
    s.delay / 2.0 + (if receipt as real > s.local then (receipt as real - s.local) / 1000.0 else 0.0)
  }

  function Distance(s: Sample, at: real, value: real, slope: real): real {
    var d := s.offset - (value + slope * (s.local - at));
    if d < 0.0 then -d else d
  }

  lemma {:induction false} TightestIs(selected: seq<Sample>, t4: nat) returns (s: Sample)
    requires selected != []
    ensures s in selected && TightestBound(selected, t4) == OwnBound(s, t4)
    ensures forall x <- selected :: OwnBound(s, t4) <= OwnBound(x, t4)
  {
    s := selected[0];
    assert selected == [selected[0]] + selected[1..];
    if |selected| > 1 {
      var rest := TightestIs(selected[1..], t4);
      if OwnBound(rest, t4) <= OwnBound(s, t4) {
        s := rest;
      }
    }
  }

  lemma {:induction false} ResidualIs(selected: seq<Sample>, at: real, value: real, slope: real) returns (s: Sample)
    requires selected != []
    ensures s in selected && Residual(selected, at, value, slope) == Distance(s, at, value, slope)
    ensures forall x <- selected :: Distance(x, at, value, slope) <= Distance(s, at, value, slope)
  {
    s := selected[0];
    assert selected == [selected[0]] + selected[1..];
    if |selected| > 1 {
      var rest := ResidualIs(selected[1..], at, value, slope);
      if Distance(rest, at, value, slope) >= Distance(s, at, value, slope) {
        s := rest;
      }
    }
  }

  /** The uncertainty at receipt is the tightest bound any selected sample gives, the largest distance
      of one from the line, and 100 microseconds; it grows by 1000 ppm of the time since receipt. */
  lemma UncertaintyIs(samples: seq<Sample>, local: real, t4: nat, previous: real, accepted: nat, time: nat)
    returns (tight: Sample, far: Sample)
    requires samples != [] && time >= t4
    ensures var m, selected := Fit(samples, local, t4, previous, accepted), Selected(samples);
            && tight in selected && far in selected
            && (forall x <- selected :: OwnBound(tight, t4) <= OwnBound(x, t4))
            && (forall x <- selected ::
                  Distance(x, local, m.offsetNs, m.drift) <= Distance(far, local, m.offsetNs, m.drift))
            && m.UncertaintyAt(time)
               == Within(OwnBound(tight, t4) + Distance(far, local, m.offsetNs, m.drift) + 100_000.0
                         + (time - t4) as real / 1000.0)
  {
    SelectedLowest(samples);
    var selected := Selected(samples);
    var m := Fit(samples, local, t4, previous, accepted);
    hide Selected, FittedDrift, FittedOffset, EvidenceLower, EvidenceUpper, TightestBound, Residual, OwnBound, Distance;
    tight := TightestIs(selected, t4);
    far := ResidualIs(selected, local, m.offsetNs, m.drift);
  }

  // ---------------------------------------------------------------- the evidence

  /** How far a sample leaves the offset at receipt undecided: half its delay, 500 ppm of its age and
      half its duration, and 100 microseconds. */
  function Leeway(s: Sample, receipt: nat): real {
    var age := receipt as real - s.local;
    s.delay / 2.0 + ((if age < 0.0 then -age else age) + s.duration / 2.0) / 2000.0 + 100_000.0
  }

  lemma {:induction false} LowerIs(samples: seq<Sample>, t4: nat) returns (s: Sample)
    requires samples != []
    ensures s in samples && EvidenceLower(samples, t4) == s.offset - Leeway(s, t4)
    ensures forall x <- samples :: x.offset - Leeway(x, t4) <= s.offset - Leeway(s, t4)
  {
    s := samples[0];
    assert samples == [samples[0]] + samples[1..];
    if |samples| > 1 {
      var rest := LowerIs(samples[1..], t4);
      if rest.offset - Leeway(rest, t4) >= s.offset - Leeway(s, t4) {
        s := rest;
      }
    }
  }

  lemma {:induction false} UpperIs(samples: seq<Sample>, t4: nat) returns (s: Sample)
    requires samples != []
    ensures s in samples && EvidenceUpper(samples, t4) == s.offset + Leeway(s, t4)
    ensures forall x <- samples :: s.offset + Leeway(s, t4) <= x.offset + Leeway(x, t4)
  {
    s := samples[0];
    assert samples == [samples[0]] + samples[1..];
    if |samples| > 1 {
      var rest := UpperIs(samples[1..], t4);
      if rest.offset + Leeway(rest, t4) <= s.offset + Leeway(s, t4) {
        s := rest;
      }
    }
  }

  /** Carried to another time, consistent evidence admits exactly the offsets that 500 ppm of drift can
      lead to from one it admits; inconsistent evidence is left as it is. */
  lemma EvidenceTravelsExactly(e: OffsetEvidence, local: nat, offset: real)
    ensures e.lowerNs <= e.upperNs ==>
              (e.At(local).Contains(offset)
               <==> exists before: real :: e.Contains(before) && Reachable(before, offset, Abs(local - e.referenceNs)))
    ensures e.lowerNs > e.upperNs ==> e.At(local) == e
  {
    var growth := Abs(local - e.referenceNs) as real / 2000.0;
    if e.lowerNs <= e.upperNs && e.At(local).Contains(offset) {
      var before := ClampR(offset, e.lowerNs, e.upperNs);
      assert e.Contains(before) && Reachable(before, offset, Abs(local - e.referenceNs));
    }
  }

  predicate Reachable(before: real, offset: real, ns: nat) {
    -(ns as real) / 2000.0 <= offset - before <= ns as real / 2000.0
  }

  /** The evidence of a fit is exactly what all retained samples together leave undecided. */
  lemma EvidenceIs(samples: seq<Sample>, local: real, t4: nat, previous: real, accepted: nat)
    returns (low: Sample, high: Sample)
    requires samples != []
    ensures var e := Fit(samples, local, t4, previous, accepted).evidence;
            && low in samples && high in samples
            && e == Some(OffsetEvidence(t4, low.offset - Leeway(low, t4), high.offset + Leeway(high, t4), |samples|))
            && (forall x <- samples ::
                  && x.offset - Leeway(x, t4) <= low.offset - Leeway(low, t4)
                  && high.offset + Leeway(high, t4) <= x.offset + Leeway(x, t4))
  {
    hide EvidenceLower, EvidenceUpper, FittedDrift, FittedOffset, Residual, TightestBound, Leeway;
    low := LowerIs(samples, t4);
    high := UpperIs(samples, t4);
  }
}
