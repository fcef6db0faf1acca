/** Frame formats, drop-frame labels, Q32 positions and rational playback rates. */
module Timecode {
  import opened Arithmetic

  datatype FrameFormat = FrameFormat(numerator: nat, denominator: nat, dropFrame: bool)

  datatype Label = Label(hours: nat, minutes: nat, seconds: nat, frames: nat, dropFrame: bool)

  /** Signed whole frames plus an unsigned Q32 fraction. */
  datatype Position = Position(frames: int, subframe: nat)

  datatype Rate = Rate(numerator: int, denominator: nat)

  const PAUSED := Rate(0, 1)
  const NORMAL := Rate(1, 1)

  // ---------------------------------------------------------------- frame formats

  predicate Supported(f: FrameFormat) {
    && (f.numerator, f.denominator) in {
         (24000, 1001), (24, 1), (25, 1), (30000, 1001), (30, 1),
         (48000, 1001), (48, 1), (50, 1), (60000, 1001), (60, 1)}
    && (f.dropFrame ==> (f.numerator, f.denominator) in {(30000, 1001), (60000, 1001)})
  }

  function NewFormat(numerator: nat, denominator: nat, dropFrame: bool): Result<FrameFormat> {
    var f := FrameFormat(numerator, denominator, dropFrame);
    if Supported(f) then Ok(f) else Err
  }

  /** `numerator.div_ceil(denominator)`. */
  function Nominal(f: FrameFormat): nat
    requires Supported(f)
  {
    (f.numerator + f.denominator - 1) / f.denominator
  }

  function Fps(f: FrameFormat): real
    requires Supported(f)
  {
    f.numerator as real / f.denominator as real
  }

  lemma FpsPositive(f: FrameFormat)
    requires Supported(f)
    ensures Fps(f) > 0.0
  {
    var fps := Fps(f);
    assert fps * f.denominator as real == f.numerator as real;
    if fps <= 0.0 {
      MulNonNegativeR(-fps, f.denominator as real);
    }
  }

  function FramesPerDay(f: FrameFormat): int
    requires Supported(f)
  {
    86400 * Nominal(f) - if f.dropFrame then Nominal(f) / 15 * 1296 else 0
  }

  /** Labels omitted at the start of every minute that is not a multiple of ten. */
  function Dropped(f: FrameFormat): nat
    requires Supported(f)
  {
    if f.dropFrame then Nominal(f) / 15 else 0
  }

  lemma NominalCases(f: FrameFormat)
    requires Supported(f)
    ensures Nominal(f) in {24, 25, 30, 48, 50, 60}
    ensures f.dropFrame ==> Nominal(f) in {30, 60}
    ensures FramesPerDay(f) > 0
  {
  }

  /** Puts the omitted labels of one day's frame count back. */
  function Undrop(frame: int, n: nat): int
    requires n in {30, 60}
  {
    var d := n / 15;
    var ten := n * 600 - d * 9;
    var rem := frame % ten;
    frame + d * 9 * (frame / ten) + if rem >= d then d * ((rem - d) / (n * 60 - d)) else 0
  }

  /** The label-counting frame of a day's frame: drop-frame skips the omitted labels. */
  function Displayed(f: FrameFormat, day: int): int
    requires Supported(f)
  {
    NominalCases(f);
    if f.dropFrame then Undrop(day, Nominal(f)) else day
  }

  /** Display wraps at 24 hours, with Euclidean wrapping of negative positions. */
  function LabelOf(f: FrameFormat, p: Position): Label
    requires Supported(f)
  {
    NominalCases(f);
    Fields(Displayed(f, p.frames % FramesPerDay(f)), Nominal(f), f.dropFrame)
  }

  function Fields(frame: int, n: nat, dropFrame: bool): Label
    requires n > 0
  {
    Label(AsU8(frame / (n * 3600)), AsU8(frame / (n * 60) % 60), AsU8(frame / n % 60), AsU8(frame % n), dropFrame)
  }

  /** The wrapping `as u8` cast. */
  function AsU8(x: int): nat {
    if 0 <= x < 256 then x else x % 256
  }

  predicate Accepts(f: FrameFormat, hours: nat, minutes: nat, seconds: nat, frames: nat)
    requires Supported(f)
  {
    ValidFields(Nominal(f), Dropped(f), hours, minutes, seconds, frames)
  }

  predicate ValidFields(n: nat, dropped: nat, hours: nat, minutes: nat, seconds: nat, frames: nat) {
    && hours < 24 && minutes < 60 && seconds < 60 && frames < n
    && !(minutes % 10 != 0 && seconds == 0 && frames < dropped)
  }

  function PositionOf(f: FrameFormat, hours: nat, minutes: nat, seconds: nat, frames: nat): Result<Position>
    requires Supported(f)
  {
    if !Accepts(f, hours, minutes, seconds, frames) then Err
    else Ok(Position(FrameCount(Nominal(f), Dropped(f), hours * 60 + minutes, seconds, frames), 0))
  }

  function FrameCount(n: nat, dropped: nat, mins: nat, seconds: nat, frames: nat): int {
    (mins * 60 + seconds) * n + frames - dropped * (mins - mins / 10)
  }

  // A day splits into `tens` blocks of ten minutes, `k` minutes and `within` frames of the
  // minute; both directions of the bijection go through that split.

  lemma MinuteBlock(tens: int, k: int, within: int, minute: int)
    requires tens >= 0 && 0 <= k < 10 && 0 <= within < minute
    ensures var mins := 10 * tens + k;
            var u := minute * mins + within;
            u / minute == mins && u % minute == within && mins / 10 == tens && mins % 10 == k
  {
    QuotientUnique(minute * (10 * tens + k) + within, minute, 10 * tens + k);
    DivBounds(minute * (10 * tens + k) + within, minute);
  }

  lemma Undrop30(frame: int)
    requires 0 <= frame < 2589408
    ensures var u := Undrop(frame, 30);
            var mins := u / 1800;
            && 0 <= u < 2592000
            && frame == u - 2 * (mins - mins / 10)
            && (mins % 10 != 0 ==> u % 1800 >= 2)
  {
    var tens, rem := frame / 17982, frame % 17982;
    var k := if rem >= 2 then (rem - 2) / 1798 else 0;
    var within := rem + 2 * k - 1800 * k;
    assert Undrop(frame, 30) == 1800 * (10 * tens + k) + within;
    assert 0 <= k < 10 && 0 <= within < 1800 && (k > 0 ==> within >= 2);
    MinuteBlock(tens, k, within, 1800);
  }

  lemma Redrop30(u: int)
    requires 0 <= u < 2592000 && (u / 1800 % 10 != 0 ==> u % 1800 >= 2)
    ensures var frame := u - 2 * (u / 1800 - u / 1800 / 10);
            0 <= frame < 2589408 && Undrop(frame, 30) == u
  {
    var mins := u / 1800;
    var tens, k, within := mins / 10, mins % 10, u % 1800;
    assert u == 18000 * tens + 1800 * k + within && 0 <= tens < 144;
    Redrop30At(tens, k, within);
  }

  lemma Redrop30At(tens: int, k: int, within: int)
    requires 0 <= tens < 144 && 0 <= k < 10 && 0 <= within < 1800 && (k != 0 ==> within >= 2)
    ensures Undrop(17982 * tens + 1798 * k + within, 30) == 18000 * tens + 1800 * k + within
  {
    var rem := 1798 * k + within;
    assert 0 <= rem < 17982;
    QuotientUnique(17982 * tens + rem, 17982, tens);
    if rem >= 2 {
      QuotientUnique(rem - 2, 1798, k);
    }
  }

  lemma Undrop60(frame: int)
    requires 0 <= frame < 5178816
    ensures var u := Undrop(frame, 60);
            var mins := u / 3600;
            && 0 <= u < 5184000
            && frame == u - 4 * (mins - mins / 10)
            && (mins % 10 != 0 ==> u % 3600 >= 4)
  {
    var tens, rem := frame / 35964, frame % 35964;
    var k := if rem >= 4 then (rem - 4) / 3596 else 0;
    var within := rem + 4 * k - 3600 * k;
    assert Undrop(frame, 60) == 3600 * (10 * tens + k) + within;
    assert 0 <= k < 10 && 0 <= within < 3600 && (k > 0 ==> within >= 4);
    MinuteBlock(tens, k, within, 3600);
  }

  lemma Redrop60(u: int)
    requires 0 <= u < 5184000 && (u / 3600 % 10 != 0 ==> u % 3600 >= 4)
    ensures var frame := u - 4 * (u / 3600 - u / 3600 / 10);
            0 <= frame < 5178816 && Undrop(frame, 60) == u
  {
    var mins := u / 3600;
    var tens, k, within := mins / 10, mins % 10, u % 3600;
    assert u == 36000 * tens + 3600 * k + within && 0 <= tens < 144;
    Redrop60At(tens, k, within);
  }

  lemma Redrop60At(tens: int, k: int, within: int)
    requires 0 <= tens < 144 && 0 <= k < 10 && 0 <= within < 3600 && (k != 0 ==> within >= 4)
    ensures Undrop(35964 * tens + 3596 * k + within, 60) == 36000 * tens + 3600 * k + within
  {
    var rem := 3596 * k + within;
    assert 0 <= rem < 35964;
    QuotientUnique(35964 * tens + rem, 35964, tens);
    if rem >= 4 {
      QuotientUnique(rem - 4, 3596, k);
    }
  }

  lemma HmsfSplit(u: int, n: nat)
    requires n in {24, 25, 30, 48, 50, 60} && 0 <= u < 86400 * n
    ensures var h, m, s, fr := u / (n * 3600), u / (n * 60) % 60, u / n % 60, u % n;
            && 0 <= h < 24 && 0 <= m < 60 && 0 <= s < 60 && 0 <= fr < n
            && h * 60 + m == u / (n * 60)
            && ((h * 60 + m) * 60 + s) * n + fr == u
            && u % (n * 60) == s * n + fr
            && (h * 60 + m) % 10 == m % 10
  {
    HmsfAt(u, n);
    SecondsSplit(u / n);
    MulNonNegative(u / n % 60, n);
  }

  lemma SecondsSplit(q: int)
    requires 0 <= q < 86400
    ensures var h, m, s := q / 3600, q / 60 % 60, q % 60;
            && 0 <= h < 24 && 0 <= m < 60 && 0 <= s < 60
            && h * 60 + m == q / 60 && (h * 60 + m) * 60 + s == q && (h * 60 + m) % 10 == m % 10
  {
  }

  lemma HmsfAt(u: int, n: nat)
    requires n in {24, 25, 30, 48, 50, 60} && 0 <= u < 86400 * n
    ensures u / (n * 60) == u / n / 60 && u / (n * 3600) == u / n / 3600
    ensures 0 <= u / n < 86400 && u / n * n + u % n == u
    ensures u % (n * 60) == u / n % 60 * n + u % n
  {
    var q := u / n;
    DivBounds(u, n);
    DivBounds(q, 60);
    DivBounds(q, 3600);
    QuotientUnique(u, n * 60, q / 60);
    QuotientUnique(u, n * 3600, q / 3600);
  }

  lemma DisplayedSplit(f: FrameFormat, day: int)
    requires Supported(f) && 0 <= day < FramesPerDay(f)
    ensures var n, u := Nominal(f), Displayed(f, day);
            var mins := u / (n * 60);
            && 0 <= u < 86400 * n
            && day == u - Dropped(f) * (mins - mins / 10)
            && (mins % 10 != 0 ==> u % (n * 60) >= Dropped(f))
  {
    NominalCases(f);
    if f.dropFrame {
      if Nominal(f) == 30 { Undrop30(day); } else { Undrop60(day); }
    }
  }

  lemma DisplayedInverse(f: FrameFormat, u: int)
    requires Supported(f) && 0 <= u < 86400 * Nominal(f)
    requires u / (Nominal(f) * 60) % 10 != 0 ==> u % (Nominal(f) * 60) >= Dropped(f)
    ensures var mins := u / (Nominal(f) * 60);
            var day := u - Dropped(f) * (mins - mins / 10);
            0 <= day < FramesPerDay(f) && Displayed(f, day) == u
  {
    NominalCases(f);
    if f.dropFrame {
      if Nominal(f) == 30 { Redrop30(u); } else { Redrop60(u); }
    }
  }

  /** Every position shows a valid label, and reading that label back gives the position's
      frame within the day. */
  lemma LabelThenPosition(f: FrameFormat, p: Position)
    requires Supported(f)
    ensures var l := LabelOf(f, p);
            && l.dropFrame == f.dropFrame
            && PositionOf(f, l.hours, l.minutes, l.seconds, l.frames)
               == Ok(Position(p.frames % FramesPerDay(f), 0))
  {
    NominalCases(f);
    var day := p.frames % FramesPerDay(f);
    DisplayedSplit(f, day);
    ShownAccepted(f, Displayed(f, day));
  }

  /** Splitting a displayed count into fields gives an accepted label of that count. */
  lemma ShownAccepted(f: FrameFormat, u: int)
    requires Supported(f) && 0 <= u < 86400 * Nominal(f)
    requires u / (Nominal(f) * 60) % 10 != 0 ==> u % (Nominal(f) * 60) >= Dropped(f)
    ensures var l := Fields(u, Nominal(f), f.dropFrame);
            var mins := u / (Nominal(f) * 60);
            PositionOf(f, l.hours, l.minutes, l.seconds, l.frames)
            == Ok(Position(u - Dropped(f) * (mins - mins / 10), 0))
  {
    NominalCases(f);
    ShownFields(u, Nominal(f), Dropped(f), f.dropFrame);
  }

  lemma ShownFields(u: int, n: nat, d: nat, dropFrame: bool)
    requires n in {24, 25, 30, 48, 50, 60} && 0 <= u < 86400 * n
    requires u / (n * 60) % 10 != 0 ==> u % (n * 60) >= d
    ensures var l := Fields(u, n, dropFrame);
            var mins := u / (n * 60);
            && ValidFields(n, d, l.hours, l.minutes, l.seconds, l.frames)
            && FrameCount(n, d, l.hours * 60 + l.minutes, l.seconds, l.frames) == u - d * (mins - mins / 10)
  {
    FieldsSplit(u, n, dropFrame);
  }

  lemma FieldsSplit(u: int, n: nat, dropFrame: bool)
    requires n in {24, 25, 30, 48, 50, 60} && 0 <= u < 86400 * n
    ensures var l := Fields(u, n, dropFrame);
            && l.hours < 24 && l.minutes < 60 && l.seconds < 60 && l.frames < n
            && l.hours * 60 + l.minutes == u / (n * 60)
            && ((l.hours * 60 + l.minutes) * 60 + l.seconds) * n + l.frames == u
            && u % (n * 60) == l.seconds * n + l.frames
            && u / (n * 60) % 10 == l.minutes % 10
  {
    HmsfSplit(u, n);
  }

  /** Every accepted label is the label of the position it denotes. */
  lemma PositionThenLabel(f: FrameFormat, hours: nat, minutes: nat, seconds: nat, frames: nat)
    requires Supported(f) && Accepts(f, hours, minutes, seconds, frames)
    ensures var p := PositionOf(f, hours, minutes, seconds, frames).value;
            && 0 <= p.frames < FramesPerDay(f)
            && LabelOf(f, p) == Label(hours, minutes, seconds, frames, f.dropFrame)
  {
    NominalCases(f);
    var n := Nominal(f);
    AcceptedCount(hours, minutes, seconds, frames, n, Dropped(f), f.dropFrame);
    var u := ((hours * 60 + minutes) * 60 + seconds) * n + frames;
    DisplayedInverse(f, u);
    ReadBack(f, u, PositionOf(f, hours, minutes, seconds, frames).value);
  }

  lemma AcceptedCount(h: nat, m: nat, s: nat, fr: nat, n: nat, d: nat, dropFrame: bool)
    requires n in {24, 25, 30, 48, 50, 60} && ValidFields(n, d, h, m, s, fr) && d <= n
    ensures var u := ((h * 60 + m) * 60 + s) * n + fr;
            var mins := u / (n * 60);
            && 0 <= u < 86400 * n && Fields(u, n, dropFrame) == Label(h, m, s, fr, dropFrame)
            && (mins % 10 != 0 ==> u % (n * 60) >= d)
            && FrameCount(n, d, h * 60 + m, s, fr) == u - d * (mins - mins / 10)
  {
    hide Fields;
    FieldsUnique(h, m, s, fr, n, dropFrame);
    if s >= 1 {
      MulMonotone(n, 1, s);
    }
  }

  lemma ReadBack(f: FrameFormat, u: int, p: Position)
    requires Supported(f) && 0 <= p.frames < FramesPerDay(f) && Displayed(f, p.frames) == u
    ensures LabelOf(f, p) == Fields(u, Nominal(f), f.dropFrame)
  {
    ModSmall(p.frames, FramesPerDay(f));
  }

  lemma FieldsUnique(h: nat, m: nat, s: nat, fr: nat, n: nat, dropFrame: bool)
    requires n in {24, 25, 30, 48, 50, 60} && h < 24 && m < 60 && s < 60 && fr < n
    ensures var u := ((h * 60 + m) * 60 + s) * n + fr;
            && 0 <= u < 86400 * n && Fields(u, n, dropFrame) == Label(h, m, s, fr, dropFrame)
            && u / (n * 60) == h * 60 + m && u % (n * 60) == s * n + fr
            && u / (n * 60) % 10 == m % 10
  {
    HmsfUnique(h, m, s, fr, n);
  }

  lemma HmsfUnique(h: nat, m: nat, s: nat, fr: nat, n: nat)
    requires n in {24, 25, 30, 48, 50, 60} && h < 24 && m < 60 && s < 60 && fr < n
    ensures var u := ((h * 60 + m) * 60 + s) * n + fr;
            && 0 <= u < 86400 * n && u / (n * 3600) == h && u / (n * 60) == h * 60 + m
            && u / (n * 60) % 60 == m && u / n % 60 == s && u % n == fr
            && u % (n * 60) == s * n + fr
  {
    var q := (h * 60 + m) * 60 + s;
    var u := q * n + fr;
    QuotientUnique(u, n, q);
    MulMonotone(n, q, 86399);
    HmsfAt(u, n);
    DivBounds(u, n);
  }

  /** `position` rejects exactly the labels that no position is ever shown as. */
  lemma RejectedIffNeverShown(f: FrameFormat, hours: nat, minutes: nat, seconds: nat, frames: nat)
    requires Supported(f)
    ensures PositionOf(f, hours, minutes, seconds, frames).Err?
            <==> forall p :: LabelOf(f, p) != Label(hours, minutes, seconds, frames, f.dropFrame)
  {
    if Accepts(f, hours, minutes, seconds, frames) {
      PositionThenLabel(f, hours, minutes, seconds, frames);
    } else {
      forall p ensures LabelOf(f, p) != Label(hours, minutes, seconds, frames, f.dropFrame) {
        LabelThenPosition(f, p);
      }
    }
  }

  // ---------------------------------------------------------------- Q32 positions

  predicate ValidPosition(p: Position) {
    I64_MIN <= p.frames <= I64_MAX && p.subframe <= U32_MAX
  }

  const MIN_FIXED: int := I64_MIN * 0x1_0000_0000
  const MAX_FIXED: int := I64_MAX * 0x1_0000_0000 + U32_MAX

  function Fixed(p: Position): int {
    p.frames * 0x1_0000_0000 + p.subframe
  }

  /** Positions saturate at the ends of the Q32 range. */
  function Saturate(value: int): int {
    if value < MIN_FIXED then MIN_FIXED else if value > MAX_FIXED then MAX_FIXED else value
  }

  function FromFixed(value: int): Position {
    var v := Saturate(value);
    Position(v / 0x1_0000_0000, v % 0x1_0000_0000)
  }

  lemma FixedRoundTrip(value: int)
    ensures ValidPosition(FromFixed(value)) && Fixed(FromFixed(value)) == Saturate(value)
  {
  }

  lemma FixedInjective(p: Position)
    requires ValidPosition(p)
    ensures MIN_FIXED <= Fixed(p) <= MAX_FIXED && FromFixed(Fixed(p)) == p
  {
  }

  lemma SaturateMonotone(a: int, b: int)
    requires a <= b
    ensures Saturate(a) <= Saturate(b)
  {
  }

  // ---------------------------------------------------------------- playback rates

  predicate RateInBounds(numerator: int, denominator: nat) {
    && 1 <= denominator <= 1_000_000
    && -1_000_000 <= numerator <= 1_000_000
    && Abs(numerator) <= denominator * 64
  }

  /** A rate as `Rate::new` leaves it: in bounds and in lowest terms. */
  predicate ValidRate(r: Rate) {
    RateInBounds(r.numerator, r.denominator) && Gcd(Abs(r.numerator), r.denominator) == 1
  }

  function Gcd(a: nat, b: nat): nat
    decreases b
  {
    if b == 0 then a else Gcd(b, a % b)
  }

  function ReducedRate(numerator: int, denominator: nat): Result<Rate>
  {
    if !RateInBounds(numerator, denominator) then Err
    else
      GcdDivides(Abs(numerator), denominator);
      var g := Gcd(Abs(numerator), denominator);
      Ok(Rate(TruncDiv(numerator, g), denominator / g))
  }

  /** `Rate::new`: Euclid's loop, then both fields divided by what it finds. */
  method NewRate(numerator: int, denominator: nat) returns (r: Result<Rate>)
    ensures r == ReducedRate(numerator, denominator)
  {
    if !RateInBounds(numerator, denominator) {
      return Err;
    }
    var a: nat, b: nat := Abs(numerator), denominator;
    while b != 0
      invariant Gcd(a, b) == Gcd(Abs(numerator), denominator)
      decreases b
    {
      a, b := b, a % b;
    }
    GcdDivides(Abs(numerator), denominator);
    return Ok(Rate(TruncDiv(numerator, a), denominator / a));
  }

  lemma {:induction false} GcdDivides(a: nat, b: nat)
    requires a > 0 || b > 0
    ensures Gcd(a, b) > 0
    ensures a == Gcd(a, b) * (a / Gcd(a, b)) && b == Gcd(a, b) * (b / Gcd(a, b))
    decreases b
  {
    if b == 0 {
      QuotientUnique(a, a, 1);
      QuotientUnique(0, a, 0);
    } else {
      GcdDivides(b, a % b);
      FactorOfBoth(a, b, Gcd(b, a % b));
    }
  }

  /** A factor of the divisor and the remainder is one of the dividend. */
  lemma FactorOfBoth(a: nat, b: nat, g: nat)
    requires b > 0 && g > 0 && b == g * (b / g) && a % b == g * (a % b / g)
    ensures a == g * (a / g)
  {
    Recombined(a, b);
    CommonFactor(a, b, a / b, a % b, g, b / g, a % b / g);
  }

  lemma Recombined(a: nat, b: nat)
    requires b > 0
    ensures a == b * (a / b) + a % b
  {
  }

  lemma CommonFactor(a: nat, b: nat, q: nat, r: nat, g: nat, x: nat, y: nat)
    requires g > 0 && a == b * q + r && b == g * x && r == g * y
    ensures a == g * (a / g)
  {
    assert g * x * q == g * (x * q);
    assert g * (x * q + y) == g * (x * q) + g * y;
    QuotientUnique(a, g, x * q + y);
  }

  lemma {:induction false} GcdScales(g: nat, x: nat, y: nat)
    requires g > 0
    ensures Gcd(g * x, g * y) == g * Gcd(x, y)
    decreases y
  {
    if y == 0 {
      assert g * y == 0;
    } else {
      MulNonNegative(g, x);
      assert g * y > 0 by { MulAtLeast(g, y); }
      ModScales(g, x, y);
      GcdScales(g, y, x % y);
    }
  }

  lemma ModScales(g: nat, x: nat, y: nat)
    requires g > 0 && y > 0 && g * y > 0
    ensures (g * x) % (g * y) == g * (x % y)
  {
    var q, m := x / y, x % y;
    DivBounds(x, y);
    assert x == y * q + m;
    assert g * x == g * y * q + g * m by {
      assert g * (y * q + m) == g * (y * q) + g * m;
      assert g * (y * q) == g * y * q;
    }
    MulMonotone(g, m, y - 1);
    MulNonNegative(g, m);
    assert g * (y - 1) == g * y - g;
    QuotientUnique(g * x, g * y, q);
  }

  /** Reduction keeps the ratio, gives lowest terms, and reducing again changes nothing. */
  lemma ReducedRateSound(numerator: int, denominator: nat)
    requires RateInBounds(numerator, denominator)
    ensures var r := ReducedRate(numerator, denominator).value;
            && ValidRate(r)
            && r.numerator * denominator == numerator * r.denominator
            && ReducedRate(r.numerator, r.denominator) == Ok(r)
  {
    var a := Abs(numerator);
    var g := Gcd(a, denominator);
    GcdDivides(a, denominator);
    var x, y := a / g, denominator / g;
    MulNonNegative(g, 0);
    assert x >= 0 && y >= 1 by {
      DivBounds(a, g);
      DivBounds(denominator, g);
    }
    GcdScales(g, x, y);
    assert g * Gcd(x, y) == g;
    MulAtLeast(g, Gcd(x, y) - 1);
    assert g * (Gcd(x, y) - 1) == g * Gcd(x, y) - g;
    var r := ReducedRate(numerator, denominator).value;
    assert Abs(r.numerator) == x && r.denominator == y;
    ReducedStaysInBounds(g, x, y);
    CrossMultiply(g, x, y);
    ReduceReduced(r);
  }

  lemma ReducedStaysInBounds(g: nat, x: nat, y: nat)
    requires g >= 1 && g * y <= 1_000_000 && g * x <= 1_000_000 && g * x <= g * y * 64
    ensures x <= 1_000_000 && y <= 1_000_000 && x <= y * 64
  {
    MulMonotone(x, 1, g);
    MulMonotone(y, 1, g);
    assert g * (x - y * 64) == g * x - g * y * 64;
    MulAtLeast(g, x - y * 64);
  }

  lemma CrossMultiply(g: int, x: int, y: int)
    ensures x * (g * y) == (g * x) * y
    ensures -x * (g * y) == -(g * x) * y
  {
    assert x * (g * y) == (g * x) * y;
    assert -x * (g * y) == -(x * (g * y));
    assert -(g * x) * y == -((g * x) * y);
  }

  lemma ReduceReduced(r: Rate)
    requires ValidRate(r)
    ensures ReducedRate(r.numerator, r.denominator) == Ok(r)
  {
  }

  // ---------------------------------------------------------------- advancing a position

  /** The Q32 distance travelled in `elapsed` nanoseconds, with the source's split division. */
  function Delta(elapsed: int, f: FrameFormat, r: Rate): int
    requires Supported(f) && r.denominator > 0
  {
    SplitQuotient(Product(elapsed, f, r), Divisor(f, r))
  }

  function SplitQuotient(num: int, den: int): int
    requires den > 0
  {
    TruncDiv(num, den) * 0x1_0000_0000 + TruncDiv(TruncRem(num, den) * 0x1_0000_0000, den)
  }

  predicate InI128(x: int) {
    I128_MIN <= x <= I128_MAX
  }

  /** Every intermediate value of the split division is representable. */
  predicate SplitInI128(num: int, den: int)
    requires den > 0
  {
    && InI128(num) && InI128(den)
    && InI128(TruncRem(num, den) * 0x1_0000_0000) && InI128(TruncDiv(num, den) * 0x1_0000_0000)
    && InI128(SplitQuotient(num, den))
  }

  function Product(elapsed: int, f: FrameFormat, r: Rate): int {
    elapsed * f.numerator * r.numerator
  }

  function Divisor(f: FrameFormat, r: Rate): (d: int)
    requires Supported(f) && r.denominator > 0
    ensures d >= 1_000_000_000
  {
    MulMonotone(f.denominator, 1, r.denominator);
    1_000_000_000 * (f.denominator * r.denominator)
  }

  function SaturatingAdd128(a: int, b: int): int {
    if a + b > I128_MAX then I128_MAX else if a + b < I128_MIN then I128_MIN else a + b
  }

  function Advance(p: Position, elapsed: int, f: FrameFormat, r: Rate): Position
    requires Supported(f) && r.denominator > 0
  {
    FromFixed(SaturatingAdd128(Fixed(p), Delta(elapsed, f, r)))
  }

  /** The split division is one truncated division of the full product. */
  lemma DeltaIsOneDivision(elapsed: int, f: FrameFormat, r: Rate)
    requires Supported(f) && r.denominator > 0
    ensures Delta(elapsed, f, r) == TruncDiv(Product(elapsed, f, r) * 0x1_0000_0000, Divisor(f, r))
  {
    SplitDivision(Product(elapsed, f, r), Divisor(f, r), 0x1_0000_0000);
  }

  lemma SplitDivision(num: int, den: int, unit: int)
    requires den > 0 && unit > 0
    ensures TruncDiv(num, den) * unit + TruncDiv(TruncRem(num, den) * unit, den) == TruncDiv(num * unit, den)
  {
    if num >= 0 {
      SplitFloor(num, den, unit);
    } else {
      SplitFloor(-num, den, unit);
      assert (-num) * unit == -(num * unit);
      var q := (-num) / den;
      assert TruncRem(num, den) == -((-num) - den * q) by {
        assert den * (-q) == -(den * q);
      }
      assert TruncRem(num, den) * unit == -(((-num) - den * q) * unit);
      DivBounds(-num, den);
      MulNonNegative((-num) - den * q, unit);
      assert (-q) * unit == -(q * unit);
    }
  }

  lemma SplitFloor(num: nat, den: int, unit: int)
    requires den > 0 && unit > 0
    ensures var q := num / den;
            var rem := num - den * q;
            rem * unit >= 0 && num * unit >= 0 && q * unit + rem * unit / den == num * unit / den
  {
    var q := num / den;
    DivBounds(num, den);
    var rem := num - den * q;
    MulNonNegative(rem, unit);
    MulNonNegative(num, unit);
    DivBounds(rem * unit, den);
    var s := rem * unit / den;
    assert num * unit == den * q * unit + rem * unit;
    assert den * (q * unit + s) == den * q * unit + den * s;
    QuotientUnique(num * unit, den, q * unit + s);
  }

  /** Travel is monotone in elapsed time along the rate's sign. */
  lemma DeltaMonotone(x: int, y: int, f: FrameFormat, r: Rate)
    requires Supported(f) && r.denominator > 0 && x <= y
    ensures r.numerator >= 0 ==> Delta(x, f, r) <= Delta(y, f, r)
    ensures r.numerator <= 0 ==> Delta(x, f, r) >= Delta(y, f, r)
  {
    DeltaIsOneDivision(x, f, r);
    DeltaIsOneDivision(y, f, r);
    ProductOrder(x, y, f.numerator, r.numerator);
    QuotientOrder(x * f.numerator * r.numerator, y * f.numerator * r.numerator, Divisor(f, r));
  }

  lemma QuotientOrder(a: int, b: int, den: int)
    requires den > 0
    ensures a <= b ==> TruncDiv(a * 0x1_0000_0000, den) <= TruncDiv(b * 0x1_0000_0000, den)
    ensures b <= a ==> TruncDiv(b * 0x1_0000_0000, den) <= TruncDiv(a * 0x1_0000_0000, den)
  {
    if a <= b {
      TruncDivMonotone(a * 0x1_0000_0000, b * 0x1_0000_0000, den);
    }
    if b <= a {
      TruncDivMonotone(b * 0x1_0000_0000, a * 0x1_0000_0000, den);
    }
  }

  lemma ProductOrder(x: int, y: int, n: nat, m: int)
    requires x <= y
    ensures m >= 0 ==> x * n * m <= y * n * m
    ensures m <= 0 ==> x * n * m >= y * n * m
  {
    MulMonotone(n, x, y);
    var a, b := x * n, y * n;
    if m >= 0 {
      MulMonotone(m, a, b);
    }
    if m <= 0 {
      MulMonotone(-m, a, b);
      assert -m * a == -(a * m) && -m * b == -(b * m);
    }
  }

  /** Running the same time backwards undoes the distance exactly. */
  lemma DeltaOdd(elapsed: int, f: FrameFormat, r: Rate)
    requires Supported(f) && r.denominator > 0
    ensures Delta(-elapsed, f, r) == -Delta(elapsed, f, r)
    ensures Delta(elapsed, f, Rate(-r.numerator, r.denominator)) == -Delta(elapsed, f, r)
  {
    var back := Rate(-r.numerator, r.denominator);
    DeltaIsOneDivision(elapsed, f, r);
    DeltaIsOneDivision(-elapsed, f, r);
    DeltaIsOneDivision(elapsed, f, back);
    ProductSigns(elapsed, f.numerator, r.numerator);
    QuotientOdd(elapsed * f.numerator * r.numerator, Divisor(f, r));
  }

  lemma ProductSigns(x: int, n: int, m: int)
    ensures (-x) * n * m == -(x * n * m) && x * n * (-m) == -(x * n * m)
  {
    var a := x * n;
    assert (-x) * n == -a;
    assert (-a) * m == -(a * m) && a * (-m) == -(a * m);
  }

  lemma QuotientOdd(a: int, den: int)
    requires den > 0
    ensures TruncDiv((-a) * 0x1_0000_0000, den) == -TruncDiv(a * 0x1_0000_0000, den)
  {
    TruncDivOdd(a * 0x1_0000_0000, den);
  }

  /** Every intermediate of `advance` fits `i128`, and the final addition never saturates. */
  lemma AdvanceFitsI128(p: Position, elapsed: int, f: FrameFormat, r: Rate)
    requires ValidPosition(p) && Supported(f) && RateInBounds(r.numerator, r.denominator)
    requires I64_MIN <= elapsed <= I64_MAX
    ensures InI128(elapsed * f.numerator) && InI128(1_000_000_000 * f.denominator)
    ensures SplitInI128(Product(elapsed, f, r), Divisor(f, r))
    ensures InI128(Fixed(p) + Delta(elapsed, f, r))
  {
    PartialProducts(elapsed, f);
    OperandBounds(elapsed, f, r);
    SplitFits(Product(elapsed, f, r), Divisor(f, r));
    SumFits(p, SplitQuotient(Product(elapsed, f, r), Divisor(f, r)));
  }

  lemma SumFits(p: Position, delta: int)
    requires ValidPosition(p) && Abs(delta) <= 0x100_0000_0000_0000_0000 * 0x1_0000_0000
    ensures InI128(Fixed(p) + delta)
  {
  }

  /** The products of the first two factors, which the source forms before the third. */
  lemma PartialProducts(elapsed: int, f: FrameFormat)
    requires Supported(f) && I64_MIN <= elapsed <= I64_MAX
    ensures InI128(elapsed * f.numerator) && InI128(1_000_000_000 * f.denominator)
  {
    ProductBound(elapsed, f.numerator, 1);
    assert elapsed * f.numerator * 1 == elapsed * f.numerator;
  }

  lemma OperandBounds(elapsed: int, f: FrameFormat, r: Rate)
    requires Supported(f) && RateInBounds(r.numerator, r.denominator) && I64_MIN <= elapsed <= I64_MAX
    ensures Abs(Product(elapsed, f, r)) <= 0x10_0000_0000_0000_0000_0000_0000
    ensures 1_000_000_000 <= Divisor(f, r) <= 1_001_000_000_000_000_000
  {
    ProductBound(elapsed, f.numerator, r.numerator);
    DivisorBound(f.denominator, r.denominator);
  }

  lemma DivisorBound(a: nat, b: nat)
    requires 1 <= a <= 1001 && 1 <= b <= 1_000_000
    ensures a * b <= 1_001_000_000
  {
    MulMonotone(a, b, 1_000_000);
  }

  lemma SplitFits(num: int, den: int)
    requires 1_000_000_000 <= den <= 1_001_000_000_000_000_000
    requires Abs(num) <= 0x10_0000_0000_0000_0000_0000_0000
    ensures SplitInI128(num, den)
    ensures Abs(SplitQuotient(num, den)) <= 0x100_0000_0000_0000_0000 * 0x1_0000_0000
  {
    var q, rem := TruncDiv(num, den), TruncRem(num, den);
    SmallQuotient(num, den, 1_000_000_000);
    SmallRemainder(num, den);
    SmallQuotient(rem * 0x1_0000_0000, den, 1_000_000_000);
  }

  lemma SmallRemainder(a: int, den: int)
    requires den >= 1
    ensures Abs(TruncRem(a, den)) < den
  {
    TruncDivSpec(a, den);
  }

  lemma SmallQuotient(a: int, den: int, least: nat)
    requires den >= least >= 1
    ensures least * Abs(TruncDiv(a, den)) <= Abs(a)
  {
    var q := Abs(a) / den;
    assert Abs(TruncDiv(a, den)) == q;
    DivBounds(Abs(a), den);
    hide TruncDiv, Abs;
    MulMonotone(q, least, den);
    assert q * least == least * q && q * den == den * q;
  }

  lemma ProductBound(e: int, n: int, m: int)
    requires I64_MIN <= e <= I64_MAX && 0 <= n <= 60000 && -1_000_000 <= m <= 1_000_000
    ensures Abs(e * n * m) <= 0x10_0000_0000_0000_0000_0000_0000
  {
    var k := e * n;
    MagnitudeBound(e, n, 0x8000_0000_0000_0000, 60000);
    MagnitudeBound(k, m, 0x8000_0000_0000_0000 * 60000, 1_000_000);
  }

  lemma MagnitudeBound(x: int, y: int, a: nat, b: nat)
    requires Abs(x) <= a && Abs(y) <= b
    ensures Abs(x * y) <= a * b
  {
    var u: int, v: int := Abs(x), Abs(y);
    MulMonotone(u, v, b);
    MulMonotone(b, u, a);
    MulNonNegative(u, v);
    assert x * y == u * v || x * y == -(u * v);
  }

  /** Away from saturation, advancing in two steps is within one Q32 unit of one step. */
  lemma AdvanceInTwoSteps(p: Position, a: int, b: int, f: FrameFormat, r: Rate)
    requires ValidPosition(p) && Supported(f) && RateInBounds(r.numerator, r.denominator)
    requires I64_MIN <= a <= I64_MAX && I64_MIN <= b <= I64_MAX && I64_MIN <= a + b <= I64_MAX
    requires MIN_FIXED <= Fixed(p) + Delta(a, f, r) <= MAX_FIXED
    requires MIN_FIXED <= Fixed(p) + Delta(a, f, r) + Delta(b, f, r) <= MAX_FIXED
    requires MIN_FIXED <= Fixed(p) + Delta(a + b, f, r) <= MAX_FIXED
    ensures var twice := Advance(Advance(p, a, f, r), b, f, r);
            -1 <= Fixed(Advance(p, a + b, f, r)) - Fixed(twice) <= 1
  {
    hide Delta, Product, TruncDiv, Advance;
    AdvanceExact(p, a, f, r);
    AdvanceExact(p, a + b, f, r);
    AdvanceExact(Advance(p, a, f, r), b, f, r);
    DeltaSplit(a, b, f, r);
  }

  lemma DeltaSplit(a: int, b: int, f: FrameFormat, r: Rate)
    requires Supported(f) && r.denominator > 0
    ensures -1 <= Delta(a + b, f, r) - Delta(a, f, r) - Delta(b, f, r) <= 1
  {
    hide Delta, TruncDiv, Divisor, Supported;
    DeltaIsOneDivision(a, f, r);
    DeltaIsOneDivision(b, f, r);
    DeltaIsOneDivision(a + b, f, r);
    ProductSum(a, b, f.numerator, r.numerator);
    QuotientSplit(Product(a, f, r), Product(b, f, r), Divisor(f, r));
  }

  lemma QuotientSplit(x: int, y: int, den: int)
    requires den > 0
    ensures -1 <= TruncDiv((x + y) * 0x1_0000_0000, den) - TruncDiv(x * 0x1_0000_0000, den)
                  - TruncDiv(y * 0x1_0000_0000, den) <= 1
  {
    hide TruncDiv;
    TruncDivSplit(x * 0x1_0000_0000, y * 0x1_0000_0000, den);
  }

  lemma ProductSum(x: int, y: int, n: int, m: int)
    ensures (x + y) * n * m == x * n * m + y * n * m
  {
    assert (x + y) * n == x * n + y * n;
  }

  lemma AdvanceExact(p: Position, elapsed: int, f: FrameFormat, r: Rate)
    requires ValidPosition(p) && Supported(f) && RateInBounds(r.numerator, r.denominator)
    requires I64_MIN <= elapsed <= I64_MAX
    ensures ValidPosition(Advance(p, elapsed, f, r))
    ensures Fixed(Advance(p, elapsed, f, r)) == Saturate(Fixed(p) + Delta(elapsed, f, r))
  {
    AdvanceFitsI128(p, elapsed, f, r);
    FixedRoundTrip(Fixed(p) + Delta(elapsed, f, r));
  }
}
