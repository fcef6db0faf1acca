/** Which snapshots are accepted, and what each stands for. */
module WireForm {
  import opened Arithmetic
  import opened Timecode
  import opened Timelines

  /** The message of an anchor: time, position, and the rate as any fraction in bounds equal to it. */
  predicate AnchorDenotes(w: Option<WireAnchor>, a: Anchor) {
    && w.Some? && w.value.timeNs == a.timeNs && w.value.position == Some(a.position) && w.value.rate.Some?
    && var n, d := w.value.rate.value.numerator, w.value.rate.value.denominator;
       && 1 <= d <= 1_000_000 && -1_000_000 <= n <= 1_000_000 && -64 * d <= n <= 64 * d
       && n * a.rate.denominator == a.rate.numerator * d
  }

  /** The message of a timeline, field by field, in the numbers of the protocol. */
  predicate Denotes(s: Snapshot, t: Timeline) {
    && s.version == 1 && s.session == t.session && s.revision == t.revision && s.discontinuity == t.discontinuity
    && s.sessionId == (if t.sessionId.Some? then t.sessionId.value else [])
    && s.sourceKind == (if t.sourceKind == Generated then 1 else 2)
    && s.sourceHealth == (if t.sourceHealth == Healthy then 1 else 2)
    && s.format == Some(WireFormat(t.format.numerator, t.format.denominator, t.format.dropFrame))
    && AnchorDenotes(s.anchor, t.anchor)
    && |s.scheduled| == |t.scheduled|
    && forall i :: 0 <= i < |s.scheduled| ==> EntryDenotes(s, t, i)
  }

  predicate EntryDenotes(s: Snapshot, t: Timeline, i: nat)
    requires i < |s.scheduled| == |t.scheduled|
  {
    && s.scheduled[i].discontinuity == t.scheduled[i].discontinuity
    && AnchorDenotes(s.scheduled[i].anchor, t.scheduled[i].anchor)
  }

  /** A fraction in lowest terms is determined by its value. */
  lemma LowestTermsUnique(a: nat, b: nat, c: nat, d: nat)
    requires b > 0 && d > 0 && a * d == c * b && Gcd(a, b) == 1 && Gcd(c, d) == 1
    ensures a == c && b == d
  {
    GcdScales(d, a, b);
    GcdScales(b, c, d);
    assert d * a == b * c && d * b == b * d;
    assert a * d == c * d;
    SameFactor(d, a, c);
  }

  lemma SameFactor(k: nat, x: nat, y: nat)
    requires k > 0 && x * k == y * k
    ensures x == y
  {
    assert (x - y) * k == x * k - y * k;
    SignOfProduct(x - y, k);
  }

  lemma RateDenoted(n: int, d: nat, r: Speed)
    requires RateInBounds(n, d)
    ensures ReducedRate(n, d).Ok? && (ReducedRate(n, d).value == r <==> n * r.denominator == r.numerator * d)
  {
    ReducedRateSound(n, d);
    var q := ReducedRate(n, d).value;
    hide ReducedRate, Gcd;
    if n * r.denominator == r.numerator * d {
      SameSide(n, d, q.numerator, q.denominator);
      SameSide(n, d, r.numerator, r.denominator);
      CrossCancel(n, d, q.numerator, q.denominator, r.numerator, r.denominator);
      AbsProduct(q.numerator, r.denominator);
      AbsProduct(r.numerator, q.denominator);
      LowestTermsUnique(Abs(q.numerator), q.denominator, Abs(r.numerator), r.denominator);
    }
  }

  lemma SameSide(n: int, d: nat, m: int, e: nat)
    requires d > 0 && e > 0 && n * e == m * d
    ensures (n > 0 <==> m > 0) && (n < 0 <==> m < 0)
  {
    SignOfProduct(n, e);
    SignOfProduct(m, d);
  }

  lemma SignOfProduct(x: int, k: nat)
    requires k > 0
    ensures (x > 0 <==> x * k > 0) && (x < 0 <==> x * k < 0)
  {
    if x > 0 {
      MulAtLeast(k, x);
    } else if x < 0 {
      MulAtLeast(k, -x);
      assert k * -x == -(x * k);
    }
  }

  lemma CrossCancel(n: int, d: nat, a: int, b: nat, c: int, e: nat)
    requires d > 0 && a * d == n * b && n * e == c * d
    ensures a * e == c * b
  {
    assert (a * e) * d == (a * d) * e == (n * b) * e == (n * e) * b == (c * d) * b == (c * b) * d;
    assert (a * e - c * b) * d == (a * e) * d - (c * b) * d;
    SignOfProduct(a * e - c * b, d);
  }

  lemma AbsProduct(x: int, k: nat)
    ensures Abs(x) * k == Abs(x * k)
  {
    if x < 0 {
      assert (-x) * k == -(x * k);
      MulNonNegative(-x, k);
    } else {
      MulNonNegative(x, k);
    }
  }

  lemma AnchorDecodes(w: WireAnchor, a: Anchor)
    requires a.timeNs <= I64_MAX
    ensures AnchorDenotes(Some(w), a) <==> WireAnchorValid(w) && AnchorFromWire(w) == a
  {
    if w.rate.Some? && RateInBounds(w.rate.value.numerator, w.rate.value.denominator) {
      RateDenoted(w.rate.value.numerator, w.rate.value.denominator, a.rate);
    }
    hide ReducedRate, Gcd;
  }

  /** A snapshot decodes to a timeline exactly when that is an ordered timeline of positive revision
      and the snapshot is its message; so receivers accept the messages of such timelines and
      nothing else. */
  lemma DecodesIff(s: Snapshot, t: Timeline)
    requires ValidTimeline(t)
    ensures FromWire(s) == Ok(t) <==> t.revision >= 1 && Denotes(s, t)
  {
    if s.anchor.Some? {
      AnchorDecodes(s.anchor.value, t.anchor);
    }
    if FromWire(s) == Ok(t) {
      DecodedDenotes(s, t);
    }
    if t.revision >= 1 && Denotes(s, t) {
      DenotedDecodes(s, t);
    }
  }

  lemma DecodedDenotes(s: Snapshot, t: Timeline)
    requires ValidTimeline(t) && FromWire(s) == Ok(t)
    ensures t.revision >= 1 && Denotes(s, t)
  {
    AnchorDecodes(s.anchor.value, t.anchor);
    hide AnchorDenotes, AnchorFromWire, WireAnchorValid;
    forall i | 0 <= i < |s.scheduled| ensures EntryDenotes(s, t, i) {
      assert EntryValid(s, i) && t.scheduled[i] in t.scheduled;
      AnchorDecodes(s.scheduled[i].anchor.value, t.scheduled[i].anchor);
    }
  }

  lemma DenotedEntry(s: Snapshot, t: Timeline, i: nat)
    requires ValidTimeline(t) && Denotes(s, t) && i < |s.scheduled|
    ensures EntryValid(s, i) && ScheduledFromWire(s.scheduled[i]) == t.scheduled[i]
  {
    hide AnchorDenotes, AnchorFromWire, WireAnchorValid, Ordered;
    DenotedTimes(s, t);
    assert EntryDenotes(s, t, i) && t.scheduled[i] in t.scheduled;
    assert i > 0 ==> EntryDenotes(s, t, i - 1);
    AnchorDecodes(s.scheduled[i].anchor.value, t.scheduled[i].anchor);
    OrderedStep(Active(t), t.scheduled, i);
  }

  lemma DenotedHeader(s: Snapshot, t: Timeline)
    requires ValidTimeline(t) && t.revision >= 1 && Denotes(s, t)
    ensures HeaderValid(s) && AnchorFromWire(s.anchor.value) == t.anchor
  {
    hide AnchorDenotes, AnchorFromWire, WireAnchorValid, EntryDenotes, Ordered;
    DenotedTimes(s, t);
    AnchorDecodes(s.anchor.value, t.anchor);
  }

  lemma DenotedDecodes(s: Snapshot, t: Timeline)
    requires ValidTimeline(t) && t.revision >= 1 && Denotes(s, t)
    ensures FromWire(s) == Ok(t)
  {
    hide AnchorDenotes, AnchorFromWire, WireAnchorValid, EntryDenotes, Ordered, ScheduledFromWire;
    DenotedHeader(s, t);
    DenotedTimes(s, t);
    forall i | 0 <= i < |s.scheduled|
      ensures EntryValid(s, i) && ScheduledFromWire(s.scheduled[i]) == t.scheduled[i]
    {
      DenotedEntry(s, t, i);
    }
    assert SnapshotValid(s);
    assert FromWire(s).value.scheduled == t.scheduled;
  }

  lemma DenotedTimes(s: Snapshot, t: Timeline)
    requires Denotes(s, t)
    ensures s.anchor.Some? && s.anchor.value.timeNs == t.anchor.timeNs
    ensures forall i :: 0 <= i < |s.scheduled| ==>
              s.scheduled[i].anchor.Some? && s.scheduled[i].anchor.value.timeNs == t.scheduled[i].anchor.timeNs
  {
    forall i | 0 <= i < |s.scheduled|
      ensures s.scheduled[i].anchor.Some? && s.scheduled[i].anchor.value.timeNs == t.scheduled[i].anchor.timeNs
    {
      assert EntryDenotes(s, t, i);
    }
  }

  /** Accepted exactly when it is the message of some ordered timeline of positive revision. */
  lemma AcceptedIff(s: Snapshot)
    ensures SnapshotValid(s) <==> exists t: Timeline :: ValidTimeline(t) && t.revision >= 1 && Denotes(s, t)
  {
    hide Denotes, SnapshotValid, ValidTimeline;
    if SnapshotValid(s) {
      DecodedValid(s);
      DecodesIff(s, FromWire(s).value);
    }
    if t: Timeline :| ValidTimeline(t) && t.revision >= 1 && Denotes(s, t) {
      DecodesIff(s, t);
    }
  }
}
