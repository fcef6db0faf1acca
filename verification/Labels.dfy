/** Which labels a format has, and in which order positions show them. */
module Labels {
  import opened Arithmetic
  import opened Timecode

  /** A whole rate, or the thousandth-slowed form of one that is no multiple of 25; drop-frame only
      when slowed from a multiple of thirty. */
  predicate RunsAt(numerator: nat, denominator: nat, dropFrame: bool, n: nat) {
    || (numerator == n && denominator == 1 && !dropFrame)
    || (numerator == 1000 * n && denominator == 1001 && n % 25 != 0 && (dropFrame ==> n % 30 == 0))
  }

  /** The formats there are. */
  lemma FormatIff(numerator: nat, denominator: nat, dropFrame: bool)
    ensures NewFormat(numerator, denominator, dropFrame).Ok?
       <==> exists n <- [24, 25, 30, 48, 50, 60] :: RunsAt(numerator, denominator, dropFrame, n)
  {
    if NewFormat(numerator, denominator, dropFrame).Ok? {
      var n := Nominal(FrameFormat(numerator, denominator, dropFrame));
      assert n in [24, 25, 30, 48, 50, 60] && RunsAt(numerator, denominator, dropFrame, n);
    }
  }

  /** Frame rate rounded up to whole frames. */
  function WholeRate(f: FrameFormat): nat
    requires Supported(f)
  {
    match f.numerator
    case 24 => 24
    case 24000 => 24
    case 25 => 25
    case 30 => 30
    case 30000 => 30
    case 48 => 48
    case 48000 => 48
    case 50 => 50
    case _ => 60
  }

  /** How many labels drop-frame skips at a minute. */
  function Skipped(f: FrameFormat): nat
    requires Supported(f)
  {
    if !f.dropFrame then 0 else if WholeRate(f) == 30 then 2 else 4
  }

  /** A label of the format: drop-frame has none of the skipped ones but at every tenth minute. */
  predicate HasLabel(f: FrameFormat, hours: nat, minutes: nat, seconds: nat, frames: nat)
    requires Supported(f)
  {
    && hours < 24 && minutes < 60 && seconds < 60 && frames < WholeRate(f)
    && (seconds > 0 || frames >= Skipped(f) || minutes in {0, 10, 20, 30, 40, 50})
  }

  /** The time of day a label reads, in frames of the whole rate. */
  function Reading(f: FrameFormat, l: Label): nat
    requires Supported(f)
  {
    ((l.hours * 60 + l.minutes) * 60 + l.seconds) * WholeRate(f) + l.frames
  }

  lemma Rates(f: FrameFormat)
    requires Supported(f)
    ensures Nominal(f) == WholeRate(f) && Dropped(f) == Skipped(f)
    ensures FramesPerDay(f) == (if !f.dropFrame then 86_400 * WholeRate(f)
                                else if WholeRate(f) == 30 then 2_589_408 else 5_178_816)
  {
  }

  /** A label is read if and only if the format has it. */
  lemma ReadIffHas(f: FrameFormat, hours: nat, minutes: nat, seconds: nat, frames: nat)
    requires Supported(f)
    ensures PositionOf(f, hours, minutes, seconds, frames).Ok? <==> HasLabel(f, hours, minutes, seconds, frames)
  {
    Rates(f);
  }

  lemma UndropRises30(frame: int)
    requires frame >= 0
    ensures Undrop(frame + 1, 30) > Undrop(frame, 30)
  {
    var q, r := frame / 17982, frame % 17982;
    if r == 17981 {
      QuotientUnique(frame + 1, 17982, q + 1);
      assert (r - 2) / 1798 == 9;
    } else {
      QuotientUnique(frame + 1, 17982, q);
    }
  }

  lemma UndropRises60(frame: int)
    requires frame >= 0
    ensures Undrop(frame + 1, 60) > Undrop(frame, 60)
  {
    var q, r := frame / 35964, frame % 35964;
    if r == 35963 {
      QuotientUnique(frame + 1, 35964, q + 1);
      assert (r - 4) / 3596 == 9;
    } else {
      QuotientUnique(frame + 1, 35964, q);
    }
  }

  lemma {:induction false} DisplayedRises(f: FrameFormat, a: nat, b: nat)
    requires Supported(f) && a < b
    ensures Displayed(f, a) < Displayed(f, b)
    decreases b
  {
    NominalCases(f);
    if f.dropFrame {
      if Nominal(f) == 30 {
        UndropRises30(b - 1);
      } else {
        UndropRises60(b - 1);
      }
    }
    hide Undrop, Nominal;
    if a < b - 1 {
      DisplayedRises(f, a, b - 1);
    }
  }

  lemma ReadingIsDisplayed(f: FrameFormat, p: Position)
    requires Supported(f)
    ensures Reading(f, LabelOf(f, p)) == Displayed(f, p.frames % FramesPerDay(f))
  {
    NominalCases(f);
    Rates(f);
    var day := p.frames % FramesPerDay(f);
    DisplayedSplit(f, day);
    HmsfSplit(Displayed(f, day), Nominal(f));
    hide Displayed, FramesPerDay, Nominal, WholeRate;
  }

  /** The labels of a day come in the order of its frames, from 00:00:00:00 on, and the next day
      begins again; so a position's label is the one that as many labels come before. */
  lemma LabelsInOrder(f: FrameFormat, p: Position, q: Position)
    requires Supported(f)
    ensures LabelOf(f, Position(0, 0)) == Label(0, 0, 0, 0, f.dropFrame)
    ensures p.frames % FramesPerDay(f) < q.frames % FramesPerDay(f)
       <==> Reading(f, LabelOf(f, p)) < Reading(f, LabelOf(f, q))
    ensures LabelOf(f, p).dropFrame == f.dropFrame
    ensures LabelOf(f, Position(p.frames + FramesPerDay(f), p.subframe)) == LabelOf(f, p)
  {
    NominalCases(f);
    ReadingIsDisplayed(f, p);
    ReadingIsDisplayed(f, q);
    SameDay(p.frames, FramesPerDay(f));
    var a, b := p.frames % FramesPerDay(f), q.frames % FramesPerDay(f);
    if a < b {
      DisplayedRises(f, a, b);
    } else if b < a {
      DisplayedRises(f, b, a);
    }
    ZeroLabel(f);
  }

  lemma SameDay(x: int, m: int)
    requires m > 0
    ensures (x + m) % m == x % m
  {
    var q, r := x / m, x % m;
    assert x == m * q + r;
    assert x + m == m * (q + 1) + r;
    QuotientUnique(x + m, m, q + 1);
  }

  lemma ZeroLabel(f: FrameFormat)
    requires Supported(f)
    ensures LabelOf(f, Position(0, 0)) == Label(0, 0, 0, 0, f.dropFrame)
  {
    NominalCases(f);
    QuotientUnique(0, FramesPerDay(f), 0);
    assert Displayed(f, 0) == 0;
    hide FramesPerDay, Displayed;
  }
}
