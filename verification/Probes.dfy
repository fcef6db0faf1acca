/** Matching probe replies to requests with 128 slots, against an unbounded log. */
module Probes {
  import opened Arithmetic
  import opened Clock

  datatype Probe = Probe(version: nat, sequence: nat, t1: nat, t2: nat, t3: nat)

  /** What decoding requires of a probe. */
  predicate WellFormed(p: Probe) {
    && p.version == 1 && p.sequence != 0
    && p.t1 <= I64_MAX && p.t2 <= I64_MAX && p.t3 <= I64_MAX
    && p.t2 <= p.t3 && (p.t2 == 0 <==> p.t3 == 0)
  }

  // ---------------------------------------------------------------- the reference

  /** Everything that happened: the time of each request in order, the publication delay measured
      for it, and the sequences no longer answerable because answered or found too old. */
  datatype Log = Log(times: seq<nat>, delays: seq<Option<nat>>, closed: set<nat>)

  const NOTHING := Log([], [], {})

  predicate CanAsk(l: Log, now: nat) {
    now <= I64_MAX && |l.times| < U64_MAX
  }

  function Asked(l: Log, now: nat): Log {
    if CanAsk(l, now) then l.(times := l.times + [now], delays := l.delays + [None]) else l
  }

  /** A publication delay is measured for the latest request, if it still awaits its answer. */
  function Published(l: Log, now: nat): Log
    requires |l.delays| == |l.times|
  {
    var n := |l.times|;
    if n == 0 || n in l.closed then l
    else l.(delays := l.delays[n - 1 := if now < l.times[n - 1] then None else Some(now - l.times[n - 1])])
  }

  /** One of the 128 latest requests, echoed with its own time, still unanswered, and answered. */
  predicate Answers(l: Log, p: Probe) {
    && WellFormed(p) && 1 <= p.sequence <= |l.times| && |l.times| - p.sequence < 128
    && p.sequence !in l.closed && l.times[p.sequence - 1] == p.t1 && p.t2 != 0
  }

  /** The leader cannot have held the probe longer than it was away. */
  predicate Plausible(p: Probe, now: nat) {
    p.t1 <= now && p.t3 - p.t2 <= now - p.t1
  }

  predicate InTime(p: Probe, now: nat) {
    now - p.t1 <= MAX_EXCHANGE_NS
  }

  datatype Reply = Reply(log: Log, exchange: Option<Exchange>, delay: Option<nat>)

  function Replied(l: Log, p: Probe, now: nat): Reply
    requires |l.delays| == |l.times|
  {
    if !Answers(l, p) || !Plausible(p, now) then Reply(l, None, None)
    else
      var closed := l.(closed := l.closed + {p.sequence});
      if !InTime(p, now) then Reply(closed, None, None)
      else Reply(closed, Some(Exchange(p.t1, p.t2, p.t3, now)), l.delays[p.sequence - 1])
  }

  // ---------------------------------------------------------------- the slots

  lemma LatestWithRemainder(sequence: nat, i: nat)
    requires i < 128
    ensures var q := sequence - (sequence - i) % 128;
            q % 128 == i && sequence - 128 < q <= sequence
  {
  }

  lemma SameRemainder(a: int, b: int)
    requires a % 128 == b % 128 && -128 < a - b < 128
    ensures a == b
  {
  }

  class Probes {
    const outstanding: array<(nat, nat)>
    const publication: array<Option<nat>>
    var sequence: nat
    var lastPublication: Option<nat>
    ghost var log: Log

    /** The slots hold exactly the last 128 requests of the log. */
    ghost predicate Valid()
      reads this`sequence, this`log, outstanding, publication
    {
      && outstanding.Length == 128 && publication.Length == 128
      && |log.times| == |log.delays| == sequence <= U64_MAX
      && (forall q <- log.closed :: 1 <= q <= sequence)
      && (forall q :: 1 <= q <= sequence && sequence - q < 128 ==> Holds(q))
      && (forall i :: 0 <= i < 128 && sequence < 128 && (i == 0 || i > sequence) ==> outstanding[i] == (0, 0))
    }

    ghost predicate Holds(q: nat)
      requires outstanding.Length == 128 && publication.Length == 128
      requires 1 <= q <= |log.times| && |log.delays| == |log.times|
      reads this`log, outstanding, publication
    {
      && outstanding[q % 128] == (if q in log.closed then (0, 0) else (q, log.times[q - 1]))
      && publication[q % 128] == log.delays[q - 1]
    }

    constructor ()
      ensures Valid() && log == NOTHING && lastPublication == None
      ensures fresh(outstanding) && fresh(publication)
    {
      outstanding := new (nat, nat)[128](_ => (0, 0));
      publication := new Option<nat>[128](_ => None);
      sequence, lastPublication, log := 0, None, NOTHING;
    }

    /** `Probes::request`. */
    method Request(now: nat) returns (r: Result<Probe>)
      requires Valid()
      modifies this`sequence, this`log, outstanding, publication
      ensures Valid() && log == Asked(old(log), now)
      ensures r == if CanAsk(old(log), now) then Ok(Probe(1, |log.times|, now, 0, 0)) else Err
    {
      if now > I64_MAX || sequence == U64_MAX {
        return Err;
      }
      sequence := sequence + 1;
      var i := sequence % 128;
      publication[i] := None;
      outstanding[i] := (sequence, now);
      log := Asked(log, now);
      forall q | 1 <= q <= sequence && sequence - q < 128 ensures Holds(q) {
        if q < sequence {
          assert old(Holds(q));
          if q % 128 == i {
            SameRemainder(q, sequence);
          }
        }
      }
      return Ok(Probe(1, sequence, now, 0, 0));
    }

    /** `Probes::publication_finished`. */
    method PublicationFinished(now: nat)
      requires Valid()
      modifies this`log, publication
      ensures Valid() && log == Published(old(log), now)
    {
      var i := sequence % 128;
      if sequence != 0 {
        assert Holds(sequence);
      }
      if outstanding[i].0 == sequence && sequence != 0 {
        publication[i] := if now < outstanding[i].1 then None else Some(now - outstanding[i].1);
        log := Published(log, now);
        forall q | 1 <= q <= sequence && sequence - q < 128 ensures Holds(q) {
          if q < sequence {
            assert old(Holds(q));
            if q % 128 == i {
              SameRemainder(q, sequence);
            }
          }
        }
      }
    }

    /** A slot matches an echo exactly when the log says the request can be answered. */
    lemma SlotMatches(p: Probe)
      requires Valid() && WellFormed(p)
      ensures outstanding[p.sequence % 128] == (p.sequence, p.t1) && p.t2 != 0 <==> Answers(log, p)
    {
      var i := p.sequence % 128;
      LatestWithRemainder(sequence, i);
      var q := sequence - (sequence - i) % 128;
      if q >= 1 {
        assert Holds(q);
        if p.sequence <= sequence && sequence - p.sequence < 128 {
          SameRemainder(p.sequence, q);
        }
      }
    }

    /** `Probes::reply`, on what decoding the message gave. */
    method Receive(decoded: Option<Probe>, now: nat) returns (r: Result<Option<Exchange>>)
      requires Valid()
      modifies this`lastPublication, this`log, outstanding
      ensures Valid()
      ensures if decoded.None? || !WellFormed(decoded.value) then r == Err && log == old(log) && lastPublication == None
              else var reply := Replied(old(log), decoded.value, now);
                   r == Ok(reply.exchange) && log == reply.log && lastPublication == reply.delay
    {
      lastPublication := None;
      if decoded.None? || !WellFormed(decoded.value) {
        return Err;
      }
      var p := decoded.value;
      var i := p.sequence % 128;
      SlotMatches(p);
      if outstanding[i] != (p.sequence, p.t1) || p.t2 == 0 {
        return Ok(None);
      }
      assert Holds(p.sequence);
      if now < p.t1 || p.t3 - p.t2 > now - p.t1 {
        return Ok(None);
      }
      var late := now - p.t1 > MAX_EXCHANGE_NS;
      outstanding[i] := (0, 0);
      log := log.(closed := log.closed + {p.sequence});
      if !late {
        lastPublication := publication[i];
      }
      forall q | 1 <= q <= sequence && sequence - q < 128 ensures Holds(q) {
        assert old(Holds(q));
        if q % 128 == i {
          SameRemainder(q, p.sequence);
        }
      }
      return if late then Ok(None) else Ok(Some(Exchange(p.t1, p.t2, p.t3, now)));
    }
  }

  // ---------------------------------------------------------------- whole runs

  datatype Event = Ask(now: nat) | Publish(now: nat) | Hear(probe: Probe, now: nat)

  function After(events: seq<Event>): (l: Log)
    ensures |l.delays| == |l.times|
  {
    if events == [] then NOTHING
    else
      var before, last := After(events[..|events| - 1]), events[|events| - 1];
      match last
      case Ask(now) => Asked(before, now)
      case Publish(now) => Published(before, now)
      case Hear(probe, now) => Replied(before, probe, now).log
  }

  /** The reply to the event at an index of a run. */
  function ReplyAt(events: seq<Event>, i: nat): Reply
    requires i < |events| && events[i].Hear?
  {
    Replied(After(events[..i]), events[i].probe, events[i].now)
  }

  predicate Yields(events: seq<Event>, i: nat) {
    i < |events| && events[i].Hear? && ReplyAt(events, i).exchange.Some?
  }

  /** Nothing recorded is ever changed back: requests keep their times, closed stays closed. */
  lemma {:induction false} LogGrows(events: seq<Event>, i: nat)
    requires i <= |events|
    ensures var a, b := After(events[..i]), After(events);
            a.times <= b.times && a.closed <= b.closed
    decreases |events|
  {
    if i == |events| {
      assert events[..i] == events;
    } else {
      var front := events[..|events| - 1];
      LogGrows(front, i);
      assert front[..i] == events[..i];
    }
  }

  lemma Step(events: seq<Event>, i: nat)
    requires i < |events| && events[i].Hear?
    ensures After(events[..i + 1]) == ReplyAt(events, i).log
  {
    assert events[..i + 1][..i] == events[..i];
  }

  /** Each sequence yields at most one exchange, whatever replies arrive, repeated or late. */
  lemma AtMostOneExchange(events: seq<Event>, i: nat, j: nat)
    requires Yields(events, i) && Yields(events, j) && i < j
    ensures events[i].probe.sequence != events[j].probe.sequence
  {
    Step(events, i);
    LogGrows(events[..j], i + 1);
    assert events[..j][..i + 1] == events[..i + 1];
  }

  /** An exchange carries the time of the request it answers, among the 128 latest, and was held
      by the leader no longer than it took, which is at most half a second. */
  lemma ExchangeIsOfItsRequest(events: seq<Event>, j: nat)
    requires Yields(events, j)
    ensures var e, q := ReplyAt(events, j).exchange.value, events[j].probe.sequence;
            && e.t3 - e.t2 <= e.t4 - e.t1 <= MAX_EXCHANGE_NS && e.t4 == events[j].now
            && 0 < e.t2 <= e.t3
            && 1 <= q <= |After(events[..j]).times| < q + 128
            && exists i: nat :: AskedAt(events, i, q, e.t1) && i < j
  {
    var q, time := events[j].probe.sequence, ReplyAt(events, j).exchange.value.t1;
    AskOf(events[..j], q, time);
    var i: nat :| AskedAt(events[..j], i, q, time);
    assert events[..j][..i] == events[..i];
    assert AskedAt(events, i, q, time);
  }

  /** The event at an index is the request that got a sequence number, at a time. */
  predicate AskedAt(events: seq<Event>, i: nat, q: nat, time: nat) {
    && i < |events| && events[i] == Ask(time)
    && |After(events[..i]).times| == q - 1 && CanAsk(After(events[..i]), time)
  }

  lemma {:induction false} AskOf(events: seq<Event>, q: nat, time: nat)
    requires 1 <= q <= |After(events).times| && time == After(events).times[q - 1]
    ensures exists i: nat :: AskedAt(events, i, q, time)
    decreases |events|
  {
    var n := |events| - 1;
    var front := events[..n];
    if q <= |After(front).times| {
      LogGrows(events, n);
      AskOf(front, q, time);
      var i: nat :| AskedAt(front, i, q, time);
      assert front[..i] == events[..i];
      assert AskedAt(events, i, q, time);
    } else {
      assert AskedAt(events, n, q, time);
    }
  }

  /** A publication finished at an index while a request was the latest, that long after it. */
  predicate MeasuredAt(events: seq<Event>, i: nat, q: nat, delay: nat) {
    && i < |events| && events[i].Publish?
    && |After(events[..i]).times| == q && q >= 1
    && events[i].now == After(events[..i]).times[q - 1] + delay
  }

  /** A delay on record was measured while its own request was the latest one. */
  lemma {:induction false} DelayIsOfItsRequest(events: seq<Event>, q: nat, delay: nat)
    requires 1 <= q <= |After(events).times| && After(events).delays[q - 1] == Some(delay)
    ensures exists i: nat :: MeasuredAt(events, i, q, delay)
    decreases |events|
  {
    var n := |events| - 1;
    var front := events[..n];
    if q <= |After(front).times| && After(front).delays[q - 1] == Some(delay) {
      DelayIsOfItsRequest(front, q, delay);
      var i: nat :| MeasuredAt(front, i, q, delay);
      assert front[..i] == events[..i];
      assert MeasuredAt(events, i, q, delay);
    } else {
      assert MeasuredAt(events, n, q, delay);
    }
  }

  /** A reported publication delay was measured for the very request the exchange answers. */
  lemma ReportedDelayMatches(events: seq<Event>, j: nat)
    requires Yields(events, j) && ReplyAt(events, j).delay.Some?
    ensures exists i: nat :: i < j && MeasuredAt(events, i, events[j].probe.sequence, ReplyAt(events, j).delay.value)
  {
    var q, delay := events[j].probe.sequence, ReplyAt(events, j).delay.value;
    DelayIsOfItsRequest(events[..j], q, delay);
    var i: nat :| MeasuredAt(events[..j], i, q, delay);
    assert events[..j][..i] == events[..i];
    assert MeasuredAt(events, i, q, delay);
  }

  /** A reply that is ignored, for its content or for claiming too long a residence, leaves the
      request answerable: the right reply to it still yields its exchange. */
  lemma IgnoredReplyCostsNothing(l: Log, bad: Probe, now: nat, p: Probe, later: nat)
    requires |l.delays| == |l.times|
    requires !Answers(l, bad) || !Plausible(bad, now)
    requires Answers(l, p) && Plausible(p, later) && InTime(p, later)
    ensures Replied(Replied(l, bad, now).log, p, later).exchange == Some(Exchange(p.t1, p.t2, p.t3, later))
  {
  }
}
