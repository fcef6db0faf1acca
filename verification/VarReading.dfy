/** Reading one varint off a stream whose bytes arrive in arbitrary chunks. */
module VarReading {
  import opened Arithmetic
  import opened Http3

  /** A receive stream: chunks that have arrived, and whether more can come. A read takes from
      the first chunk only, so every way of splitting the bytes is some list of chunks. */
  class RecvStream {
    var chunks: seq<seq<Byte>>
    var finished: bool

    ghost predicate Valid()
      reads this
    {
      forall c <- chunks :: c != []
    }

    ghost function Pending(): seq<Byte>
      reads this
    {
      Flat(chunks)
    }

    constructor (chunks: seq<seq<Byte>>, finished: bool)
      requires forall c <- chunks :: c != []
      ensures Valid() && Pending() == Flat(chunks) && this.finished == finished
    {
      this.chunks, this.finished := chunks, finished;
    }

    /** At most `limit` bytes of what has arrived; nothing when the reader would have to wait. */
    method Read(limit: nat) returns (bytes: seq<Byte>)
      requires Valid() && limit > 0
      modifies this`chunks
      ensures Valid() && bytes + Pending() == old(Pending())
      ensures |bytes| <= limit && (bytes == [] <==> old(Pending()) == [])
    {
      if chunks == [] {
        return [];
      }
      assert chunks[0] in chunks;
      FlatNonEmpty(chunks);
      var first, n := chunks[0], MinI(limit, |chunks[0]|);
      bytes := first[..n];
      assert first == first[..n] + first[n..];
      assert forall c :: c in chunks[1..] ==> c in chunks;
      if n == |first| {
        chunks := chunks[1..];
      } else {
        assert ([first[n..]] + chunks[1..])[1..] == chunks[1..];
        assert first[n..] != [];
        chunks := [first[n..]] + chunks[1..];
      }
    }
  }

  ghost function Flat(chunks: seq<seq<Byte>>): seq<Byte> {
    if chunks == [] then [] else chunks[0] + Flat(chunks[1..])
  }

  lemma FlatNonEmpty(chunks: seq<seq<Byte>>)
    requires chunks != [] && chunks[0] != []
    ensures Flat(chunks) != []
  {
  }

  datatype VarPoll = Value(value: nat) | End | NotYet

  class VarRead {
    const buf: array<Byte>
    var have: nat

    ghost predicate Valid()
      reads this, buf
    {
      && buf.Length == 8 && have <= 8
      && (have > 0 ==> have <= Need(buf[0]))
    }

    ghost function Held(): seq<Byte>
      requires Valid()
      reads this, buf
    {
      buf[..have]
    }

    constructor ()
      ensures Valid() && fresh(buf) && Held() == []
    {
      buf := new Byte[8](_ => 0);
      have := 0;
    }

    /** Puts freshly read bytes behind those held. */
    method Hold(bytes: seq<Byte>)
      requires Valid() && bytes != [] && have + |bytes| <= (if have == 0 then 1 else Need(buf[0]))
      modifies this`have, buf
      ensures Valid() && Held() == old(Held()) + bytes
    {
      ghost var held := Held();
      var k := 0;
      while k < |bytes|
        invariant 0 <= k <= |bytes|
        invariant buf[..have] == held && buf[have..have + k] == bytes[..k]
        modifies buf
      {
        buf[have + k] := bytes[k];
        k := k + 1;
      }
      assert buf[..have + |bytes|] == buf[..have] + buf[have..have + |bytes|];
      assert have > 0 ==> buf[0] == held[0];
      have := have + |bytes|;
    }

    /** The number the held bytes stand for. */
    method Assemble(need: nat) returns (value: nat)
      requires Valid() && 0 < have == need == Need(buf[0])
      ensures value == BigEndian(buf[0] % 64, Held()[1..])
    {
      ghost var held := Held();
      value := buf[0] % 64;
      var i := 1;
      while i < need
        invariant 1 <= i <= need
        invariant value == BigEndian(buf[0] % 64, held[1..i])
      {
        SliceGrows(held, 1, i);
        BigEndianSnoc(buf[0] % 64, held[1..i], buf[i]);
        value := value * 256 + buf[i];
        i := i + 1;
      }
      assert held[1..need] == held[1..];
    }

    /** `VarRead::poll`. The held and pending bytes together neither change nor get lost; the
        varint is delivered exactly when they start with a complete one, and then nothing past
        it has been taken off the stream. */
    method Poll(recv: RecvStream) returns (r: VarPoll)
      requires Valid() && recv.Valid()
      modifies this`have, buf, recv`chunks
      ensures Valid() && recv.Valid()
      ensures Held() + recv.Pending() == old(Held() + recv.Pending())
      ensures var all := old(Held() + recv.Pending());
              match Decoded(all)
              case Some(v) => r == Value(v.value) && |Held()| == v.length && recv.Pending() == all[v.length..]
              case None => r == (if recv.finished then End else NotYet) && recv.Pending() == [] && Held() == all
    {
      ghost var all := Held() + recv.Pending();
      while true
        invariant Valid() && recv.Valid()
        invariant Held() + recv.Pending() == all
        decreases 8 - have
      {
        var need := if have == 0 then 1 else Need(buf[0]);
        if have >= need {
          var value := Assemble(need);
          Complete(Held(), recv.Pending());
          return Value(value);
        }
        Incomplete(Held());
        var bytes := recv.Read(need - have);
        if bytes == [] {
          assert Held() == all;
          return if recv.finished then End else NotYet;
        }
        ghost var pending := recv.Pending();
        assert Held() + (bytes + pending) == all;
        Hold(bytes);
        assert recv.Pending() == pending;
      }
    }
  }

  lemma Complete(held: seq<Byte>, pending: seq<Byte>)
    requires held != [] && |held| == Need(held[0])
    ensures Decoded(held + pending) == Some(Varint(BigEndian(held[0] % 64, held[1..]), |held|))
    ensures (held + pending)[|held|..] == pending
  {
    var all := held + pending;
    assert all[0] == held[0] && all[1..|held|] == held[1..];
  }

  lemma Incomplete(held: seq<Byte>)
    requires held == [] || |held| < Need(held[0])
    ensures Decoded(held) == None
  {
  }
}
