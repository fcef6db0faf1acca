/** Splitting DATA payloads out of the HTTP/3 frames of the CONNECT stream. */
module Capsules {
  import opened Arithmetic
  import opened Http3

  const FRAME_DATA := 0
  const MESSAGE_LIMIT := 65536

  /** One whole frame at the front, and what follows it. */
  datatype Split = Split(kind: nat, payload: seq<Byte>, rest: seq<Byte>)

  /** Section 7.1 of RFC 9114: a type, a length, and that many bytes. */
  function NextFrame(s: seq<Byte>): (r: Option<Split>)
    ensures r.Some? ==> |r.value.rest| < |s|
  {
    var kind := Decoded(s);
    if kind.None? then None
    else
      var afterKind := s[kind.value.length..];
      var len := Decoded(afterKind);
      if len.None? then None
      else
        var afterLen := afterKind[len.value.length..];
        if |afterLen| < len.value.value then None
        else Some(Split(kind.value.value, afterLen[..len.value.value], afterLen[len.value.value..]))
  }

  function DataOf(kind: nat, payload: seq<Byte>): seq<Byte> {
    if kind == FRAME_DATA then payload else []
  }

  /** The DATA payloads of all whole frames, joined. */
  function Payloads(s: seq<Byte>): seq<Byte>
    decreases |s|
  {
    var f := NextFrame(s);
    if f.None? then [] else DataOf(f.value.kind, f.value.payload) + Payloads(f.value.rest)
  }

  /** What is left once every whole frame is taken off. */
  function Suffix(s: seq<Byte>): seq<Byte>
    decreases |s|
  {
    var f := NextFrame(s);
    if f.None? then s else Suffix(f.value.rest)
  }

  datatype Buffers = Buffers(frames: seq<Byte>, body: seq<Byte>)

  datatype Outcome = Outcome(buffers: Buffers, ok: bool)

  function Demuxed(b: Buffers): Outcome
    decreases |b.frames|
  {
    var f := NextFrame(b.frames);
    if f.None? then Outcome(b, true)
    else if f.value.kind == FRAME_DATA && |b.body| + |f.value.payload| > MESSAGE_LIMIT then Outcome(b, false)
    else Demuxed(Buffers(f.value.rest, b.body + DataOf(f.value.kind, f.value.payload)))
  }

  /** The two buffers as the source has them. */
  class Reader {
    var frames: seq<Byte>
    var body: seq<Byte>

    function State(): Buffers
      reads this
    {
      Buffers(frames, body)
    }

    constructor ()
      ensures State() == Buffers([], [])
    {
      frames, body := [], [];
    }

    /** `Capsules::demux`. */
    method Demux() returns (ok: bool)
      modifies this
      ensures var o := Demuxed(old(State()));
              State() == o.buffers && ok == o.ok
    {
      hide NextFrame;
      while true
        invariant Demuxed(State()) == Demuxed(old(State()))
        decreases |frames|
      {
        var whole, kind, header, payload := Peek(frames);
        if !whole {
          return true;
        }
        if kind == FRAME_DATA {
          if |body| + |payload| > MESSAGE_LIMIT {
            return false;
          }
          body := body + payload;
        } else {
          assert body + [] == body;
        }
        frames := frames[header + |payload|..];
      }
    }
  }

  /** Type, length and body of the frame at the front, if all of it is there. */
  method Peek(frames: seq<Byte>) returns (whole: bool, kind: nat, header: nat, payload: seq<Byte>)
    ensures whole <==> NextFrame(frames).Some?
    ensures whole ==> header + |payload| <= |frames|
                      && NextFrame(frames) == Some(Split(kind, payload, frames[header + |payload|..]))
  {
    whole, kind, header, payload := false, 0, 0, [];
    hide Decoded;
    var typ, afterType := DecodeVarint(frames);
    if typ.None? {
      return;
    }
    var len, peek := DecodeVarint(afterType);
    if len.None? || |peek| < len.value {
      return;
    }
    whole, kind, header, payload := true, typ.value, |frames| - |peek|, peek[..len.value];
    assert frames[header..] == peek;
    assert frames[header + |payload|..] == peek[|payload|..];
  }

  // ---------------------------------------------------------------- chunk independence

  /** A whole frame stays the same frame whatever follows. */
  lemma NextFrameStable(s: seq<Byte>, t: seq<Byte>)
    requires NextFrame(s).Some?
    ensures NextFrame(s + t) == Some(NextFrame(s).value.(rest := NextFrame(s).value.rest + t))
  {
    hide Decoded;
    var kind := Decoded(s).value;
    DecodedStable(s, t);
    SplitJoined(s, t, kind.length);
    var afterKind := s[kind.length..];
    var len := Decoded(afterKind).value;
    DecodedStable(afterKind, t);
    SplitJoined(afterKind, t, len.length);
    SplitJoined(afterKind[len.length..], t, len.value);
  }

  lemma SplitJoined(s: seq<Byte>, t: seq<Byte>, n: nat)
    requires n <= |s|
    ensures (s + t)[..n] == s[..n] && (s + t)[n..] == s[n..] + t
  {
  }

  /** Parsing may stop anywhere and resume with more bytes. */
  lemma {:induction false} ParseResumes(s: seq<Byte>, t: seq<Byte>)
    ensures Payloads(s + t) == Payloads(s) + Payloads(Suffix(s) + t)
    ensures Suffix(s + t) == Suffix(Suffix(s) + t)
    decreases |s|
  {
    if NextFrame(s).Some? {
      NextFrameStable(s, t);
      ParseResumes(NextFrame(s).value.rest, t);
      hide NextFrame;
    }
  }

  /** `demux` fails exactly when the payloads would overflow the body; otherwise it leaves
      exactly the joined payloads of all whole frames, and the unparsed suffix. */
  lemma {:induction false} DemuxIsParse(b: Buffers)
    requires |b.body| <= MESSAGE_LIMIT
    ensures Demuxed(b).ok <==> |b.body + Payloads(b.frames)| <= 65_536
    ensures Demuxed(b).ok ==> Demuxed(b).buffers == Buffers(Suffix(b.frames), b.body + Payloads(b.frames))
    ensures |Demuxed(b).buffers.body| <= MESSAGE_LIMIT
    ensures Suffix(Suffix(b.frames)) == Suffix(b.frames) && Payloads(Suffix(b.frames)) == []
    decreases |b.frames|
  {
    hide NextFrame;
    var f := NextFrame(b.frames);
    if f.Some? {
      var data, more := DataOf(f.value.kind, f.value.payload), Payloads(f.value.rest);
      assert (b.body + data) + more == b.body + (data + more);
      if |b.body| + |data| <= MESSAGE_LIMIT {
        DemuxIsParse(Buffers(f.value.rest, b.body + data));
      } else {
        DemuxIsParse(Buffers(f.value.rest, []));
      }
    }
  }

  // ---------------------------------------------------------------- whole runs

  /** What happens to the buffers: bytes arrive, frames are split, capsules are consumed. */
  datatype Event = Arrive(bytes: seq<Byte>) | SplitFrames | Consume(count: nat)

  /** `taken` is every byte of the capsule stream already consumed. */
  datatype Progress = Progress(buffers: Buffers, taken: seq<Byte>, ok: bool)

  const BEGUN := Progress(Buffers([], []), [], true)

  function Step(p: Progress, e: Event): Progress {
    if !p.ok then p
    else
      match e
      case Arrive(bytes) => p.(buffers := p.buffers.(frames := p.buffers.frames + bytes))
      case SplitFrames =>
        var o := Demuxed(p.buffers);
        p.(buffers := o.buffers, ok := o.ok)
      case Consume(count) =>
        var n := MinI(count, |p.buffers.body|);
        p.(buffers := p.buffers.(body := p.buffers.body[n..]), taken := p.taken + p.buffers.body[..n])
  }

  function After(events: seq<Event>): Progress {
    if events == [] then BEGUN else Step(After(events[..|events| - 1]), events[|events| - 1])
  }

  function Arrived(events: seq<Event>): seq<Byte> {
    if events == [] then []
    else
      var last := events[|events| - 1];
      Arrived(events[..|events| - 1]) + if last.Arrive? then last.bytes else []
  }

  /** Nothing of the capsule stream is lost, repeated or reordered, however the bytes arrive. */
  ghost predicate Conserved(p: Progress, arrived: seq<Byte>) {
    && p.taken + p.buffers.body + Payloads(p.buffers.frames) == Payloads(arrived)
    && Suffix(p.buffers.frames) == Suffix(arrived)
    && |p.buffers.body| <= MESSAGE_LIMIT
  }

  lemma StepConserves(p: Progress, e: Event, arrived: seq<Byte>)
    requires p.ok && Step(p, e).ok && Conserved(p, arrived)
    ensures Conserved(Step(p, e), arrived + if e.Arrive? then e.bytes else [])
  {
    hide Payloads, Suffix, Demuxed;
    match e
    case Arrive(bytes) =>
      ParseResumes(p.buffers.frames, bytes);
      ParseResumes(arrived, bytes);
      Regroup(p.taken + p.buffers.body, Payloads(p.buffers.frames), Payloads(Suffix(arrived) + bytes));
    case SplitFrames =>
      DemuxIsParse(p.buffers);
      Regroup(p.taken, p.buffers.body, Payloads(p.buffers.frames));
      assert arrived + [] == arrived;
    case Consume(count) =>
      var n := MinI(count, |p.buffers.body|);
      Regroup(p.taken, p.buffers.body[..n], p.buffers.body[n..]);
      assert p.buffers.body == p.buffers.body[..n] + p.buffers.body[n..];
      assert arrived + [] == arrived;
  }

  lemma Regroup(a: seq<Byte>, b: seq<Byte>, c: seq<Byte>)
    ensures (a + b) + c == a + (b + c)
  {
  }

  lemma {:induction false} RunConserves(events: seq<Event>)
    requires After(events).ok
    ensures Conserved(After(events), Arrived(events))
  {
    if events == [] {
    } else {
      var front, last := events[..|events| - 1], events[|events| - 1];
      RunConserves(front);
      StepConserves(After(front), last, Arrived(front));
      hide Step, Conserved;
    }
  }

  /** Chunk independence: two runs over the same bytes, split and interleaved with parsing and
      consumption in any way, that end by splitting frames hold the same suffix and have produced
      the same capsule stream: the one that parsing everything at once gives. */
  lemma ChunkIndependent(events: seq<Event>, others: seq<Event>)
    requires Arrived(events) == Arrived(others)
    requires After(events + [SplitFrames]).ok && After(others + [SplitFrames]).ok
    ensures var p, q := After(events + [SplitFrames]), After(others + [SplitFrames]);
            && p.taken + p.buffers.body == q.taken + q.buffers.body == Payloads(Arrived(events))
            && p.buffers.frames == q.buffers.frames == Suffix(Arrived(events))
  {
    EndsParsed(events);
    EndsParsed(others);
  }

  lemma EndsParsed(events: seq<Event>)
    requires After(events + [SplitFrames]).ok
    ensures var p := After(events + [SplitFrames]);
            p.taken + p.buffers.body == Payloads(Arrived(events)) && p.buffers.frames == Suffix(Arrived(events))
  {
    hide Demuxed, Payloads, Suffix, Arrived;
    assert (events + [SplitFrames])[..|events|] == events;
    var p := After(events);
    assert After(events + [SplitFrames]) == Step(p, SplitFrames);
    assert p.ok;
    RunConserves(events);
    DemuxIsParse(p.buffers);
    Regroup(p.taken, p.buffers.body, Payloads(p.buffers.frames));
  }

  // ---------------------------------------------------------------- round trip with a sender

  datatype Frame = Frame(kind: nat, payload: seq<Byte>)

  /** Type and length of every frame are encodable. */
  predicate Sendable(fs: seq<Frame>) {
    forall f <- fs :: f.kind < VARINT_LIMIT && |f.payload| < VARINT_LIMIT
  }

  function Written(f: Frame): seq<Byte> {
    Encoded(f.kind) + (Encoded(|f.payload|) + f.payload)
  }

  function WrittenAll(fs: seq<Frame>): seq<Byte> {
    if fs == [] then [] else Written(fs[0]) + WrittenAll(fs[1..])
  }

  function Carried(fs: seq<Frame>): seq<Byte> {
    if fs == [] then [] else (if fs[0].kind == 0 then fs[0].payload else []) + Carried(fs[1..])
  }

  lemma ReadsBack(f: Frame, rest: seq<Byte>)
    requires f.kind < VARINT_LIMIT && |f.payload| < VARINT_LIMIT
    ensures NextFrame(Written(f) + rest) == Some(Split(f.kind, f.payload, rest))
  {
    var kind, len, p := Encoded(f.kind), Encoded(|f.payload|), f.payload;
    var s := Written(f) + rest;
    assert s == kind + (len + (p + rest));
    VarintRoundTrip(f.kind, len + (p + rest));
    assert s[|kind|..] == len + (p + rest);
    VarintRoundTrip(|p|, p + rest);
    assert (len + (p + rest))[|len|..] == p + rest;
    hide Decoded, Encoded;
    assert (p + rest)[..|p|] == p && (p + rest)[|p|..] == rest;
  }

  /** A frame cut short anywhere is not yet a frame. */
  lemma CutShort(f: Frame, n: nat)
    requires f.kind < VARINT_LIMIT && |f.payload| < VARINT_LIMIT && n < |Written(f)|
    ensures NextFrame(Written(f)[..n]).None?
  {
    hide NextFrame, Written;
    var s := Written(f);
    ReadsBack(f, []);
    assert s + [] == s && s[..n] + s[n..] == s;
    if NextFrame(s[..n]).Some? {
      NextFrameStable(s[..n], s[n..]);
    }
  }

  /** Whatever frames a peer writes, whole or with the last one cut short, the DATA payloads come
      out joined in order and only the cut frame is left over. */
  lemma {:induction false} FramesRoundTrip(fs: seq<Frame>, last: Frame, n: nat)
    requires Sendable(fs) && Sendable([last]) && n < |Written(last)|
    ensures Payloads(WrittenAll(fs) + Written(last)[..n]) == Carried(fs)
    ensures Suffix(WrittenAll(fs) + Written(last)[..n]) == Written(last)[..n]
    decreases fs
  {
    hide NextFrame, Written;
    var tail := Written(last)[..n];
    if fs == [] {
      assert last in [last];
      CutShort(last, n);
      assert [] + tail == tail;
    } else {
      assert fs[0] in fs;
      var rest := WrittenAll(fs[1..]) + tail;
      Regroup(Written(fs[0]), WrittenAll(fs[1..]), tail);
      ReadsBack(fs[0], rest);
      FramesRoundTrip(fs[1..], last, n);
    }
  }
}
