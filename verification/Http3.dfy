/** QUIC variable-length integers and the HTTP/3 framing of the CONNECT stream. */
module Http3 {
  import opened Arithmetic

  // ---------------------------------------------------------------- variable-length integers

  const VARINT_LIMIT := 0x4000_0000_0000_0000

  /** The lowest `n` bytes, most significant first. */
  function ToBytes(x: nat, n: nat): (s: seq<Byte>)
    ensures |s| == n
  {
    if n == 0 then [] else ToBytes(x / 256, n - 1) + [x % 256]
  }

  /** Appending bytes to a number, most significant first. */
  function BigEndian(acc: nat, bytes: seq<Byte>): nat
    decreases |bytes|
  {
    if bytes == [] then acc else BigEndian(acc * 256 + bytes[0], bytes[1..])
  }

  /** Values below this fit the encoding of `n` bytes, whose two top bits give the length. */
  function Capacity(n: nat): (m: nat)
    requires n >= 1
    ensures m >= 64
  {
    if n == 1 then 64 else 256 * Capacity(n - 1)
  }

  /** Section 16 of RFC 9000. A value of 2^62 or more loses its top bits, as in the source. */
  function Encoded(value: nat): (s: seq<Byte>)
    ensures |s| in {1, 2, 4, 8}
  {
    if value < 0x40 then ToBytes(value, 1)
    else if value < 0x4000 then ToBytes(value + 0x4000, 2)
    else if value < 0x4000_0000 then ToBytes(value + 0x8000_0000, 4)
    else ToBytes(value % VARINT_LIMIT + 0xC000_0000_0000_0000, 8)
  }

  function Need(first: Byte): (n: nat)
    ensures n in {1, 2, 4, 8}
  {
    match first / 64
    case 0 => 1
    case 1 => 2
    case 2 => 4
    case _ => 8
  }

  datatype Varint = Varint(value: nat, length: nat)

  function Decoded(s: seq<Byte>): (r: Option<Varint>)
    ensures r.Some? ==> 1 <= r.value.length <= |s|
  {
    if s == [] || |s| < Need(s[0]) then None
    else Some(Varint(BigEndian(s[0] % 64, s[1..Need(s[0])]), Need(s[0])))
  }

  lemma {:induction false} BigEndianSnoc(acc: nat, s: seq<Byte>, b: Byte)
    ensures BigEndian(acc, s + [b]) == BigEndian(acc, s) * 256 + b
    decreases |s|
  {
    if s == [] {
      assert [b][1..] == [];
    } else {
      assert (s + [b])[1..] == s[1..] + [b];
      BigEndianSnoc(acc * 256 + s[0], s[1..], b);
    }
  }

  lemma SliceGrows(s: seq<Byte>, from: nat, to: nat)
    requires from <= to < |s|
    ensures s[from..to + 1] == s[from..to] + [s[to]]
  {
  }

  /** `decode_varint`: the value and what is left of the slice. */
  method DecodeVarint(buf: seq<Byte>) returns (value: Option<nat>, rest: seq<Byte>)
    ensures value.None? <==> Decoded(buf).None?
    ensures value.Some? ==> value.value == Decoded(buf).value.value && rest == buf[Decoded(buf).value.length..]
    ensures value.None? ==> rest == buf
  {
    if buf == [] || |buf| < Need(buf[0]) {
      return None, buf;
    }
    var len := Need(buf[0]);
    var v: nat := buf[0] % 64;
    var i := 1;
    while i < len
      invariant 1 <= i <= len
      invariant v == BigEndian(buf[0] % 64, buf[1..i])
    {
      assert i < |buf|;
      SliceGrows(buf, 1, i);
      BigEndianSnoc(buf[0] % 64, buf[1..i], buf[i]);
      v := v * 256 + buf[i];
      i := i + 1;
    }
    return Some(v), buf[len..];
  }

  lemma SplitModulus(x: nat, m: nat)
    requires m > 0 && 256 * m > 0
    ensures x / 256 % m * 256 + x % 256 == x % (256 * m)
    ensures x / 256 / m == x / (256 * m)
  {
    var q, r := x / 256, x % 256;
    var k, s := q / m, q % m;
    assert x == 256 * q + r && q == m * k + s;
    assert x == 256 * (m * k) + (256 * s + r);
    assert (256 * m) * k == 256 * (m * k);
    QuotientUnique(x, 256 * m, k);
  }

  /** The tag of the first byte, and the number the bytes stand for once it is masked off. */
  lemma {:induction false} TagAndValue(x: nat, n: nat)
    requires n >= 1
    ensures var s := ToBytes(x, n);
            && s[0] / 64 == x / Capacity(n) % 4
            && BigEndian(s[0] % 64, s[1..]) == x % Capacity(n)
  {
    if n == 1 {
      assert ToBytes(x / 256, 0) == [];
      assert ToBytes(x, 1) == [x % 256];
      LowByte(x);
    } else {
      TagAndValue(x / 256, n - 1);
      SplitModulus(x, Capacity(n - 1));
      var s := ToBytes(x / 256, n - 1);
      assert ToBytes(x, n) == s + [x % 256];
      assert (s + [x % 256])[1..] == s[1..] + [x % 256];
      BigEndianSnoc(s[0] % 64, s[1..], x % 256);
    }
  }

  lemma LowByte(x: nat)
    ensures x % 256 / 64 == x / 64 % 4 && x % 256 % 64 == x % 64
  {
  }

  lemma Capacities()
    ensures Capacity(1) == 0x40 && Capacity(2) == 0x4000 && Capacity(4) == 0x4000_0000 && Capacity(8) == VARINT_LIMIT
  {
    assert Capacity(3) == 0x40_0000;
    assert Capacity(5) == 0x40_0000_0000;
    assert Capacity(6) == 0x4000_0000_0000;
    assert Capacity(7) == 0x40_0000_0000_0000;
  }

  /** What decoding an encoding yields, for every value. */
  lemma DecodesModulo(value: nat, rest: seq<Byte>)
    ensures Decoded(Encoded(value) + rest) == Some(Varint(value % VARINT_LIMIT, |Encoded(value)|))
  {
    Capacities();
    var n := |Encoded(value)|;
    var tag := match n case 1 => 0 case 2 => 1 case 4 => 2 case _ => 3;
    var x := (if n == 8 then value % VARINT_LIMIT else value) + tag * Capacity(n);
    assert Encoded(value) == ToBytes(x, n);
    TagAndValue(x, n);
    hide ToBytes, BigEndian, Capacity;
    assert x / Capacity(n) == tag && x % Capacity(n) == value % VARINT_LIMIT;
    var s := Encoded(value) + rest;
    assert s[0] == Encoded(value)[0] && s[1..n] == Encoded(value)[1..];
  }

  /** The round trip holds for exactly the values below 2^62, whatever follows. */
  lemma VarintRoundTrip(value: nat, rest: seq<Byte>)
    ensures Decoded(Encoded(value) + rest) == Some(Varint(value, |Encoded(value)|)) <==> value < VARINT_LIMIT
  {
    DecodesModulo(value, rest);
    if value < VARINT_LIMIT {
      ModSmall(value, VARINT_LIMIT);
    }
  }

  /** Digits to the base 256, most significant first. */
  function Digits(s: seq<Byte>): nat {
    if s == [] then 0 else Digits(s[..|s| - 1]) * 256 + s[|s| - 1]
  }

  lemma {:induction false} DigitsAreBigEndian(s: seq<Byte>)
    requires s != []
    ensures Digits(s) == BigEndian(s[0], s[1..])
  {
    var front, last := s[..|s| - 1], s[|s| - 1];
    if front == [] {
      assert s[1..] == [];
    } else {
      DigitsAreBigEndian(front);
      assert s[1..] == front[1..] + [last];
      BigEndianSnoc(s[0], front[1..], last);
    }
  }

  /** What is on the wire: the two top bits of the first byte give the length as a power of two, and
      with them cleared the bytes are the value, most significant first. */
  lemma EncodingIs(value: nat)
    requires value < 0x4000_0000_0000_0000
    ensures var s := Encoded(value);
            && |s| == (if value < 64 then 1 else if value < 16384 then 2 else if value < 1_073_741_824 then 4 else 8)
            && |s| == (match s[0] / 64 case 0 => 1 case 1 => 2 case 2 => 4 case _ => 8)
            && Digits([s[0] % 64] + s[1..]) == value
  {
    DecodesModulo(value, []);
    ModSmall(value, VARINT_LIMIT);
    var s := Encoded(value);
    assert s + [] == s;
    DigitsAreBigEndian([s[0] % 64] + s[1..]);
    assert ([s[0] % 64] + s[1..])[1..] == s[1..];
    assert s[1..|s|] == s[1..];
    hide BigEndian, ToBytes, Digits;
  }

  /** The examples of section A.1 of RFC 9000. */
  lemma Examples()
    ensures Decoded([0xc2, 0x19, 0x7c, 0x5e, 0xff, 0x14, 0xe8, 0x8c]) == Some(Varint(151_288_809_941_952_652, 8))
    ensures Decoded([0x9d, 0x7f, 0x3e, 0x7d]) == Some(Varint(494_878_333, 4))
    ensures Decoded([0x7b, 0xbd]) == Some(Varint(15_293, 2))
    ensures Decoded([0x25]) == Some(Varint(37, 1)) && Decoded([0x40, 0x25]) == Some(Varint(37, 2))
  {
    EightBytes([0xc2, 0x19, 0x7c, 0x5e, 0xff, 0x14, 0xe8, 0x8c]);
    assert [0x9d, 0x7f, 0x3e, 0x7d][1..4] == [0x7f, 0x3e, 0x7d];
    assert [0x7f, 0x3e, 0x7d][1..] == [0x3e, 0x7d] && [0x3e, 0x7d][1..] == [0x7d] && [0x7d][1..] == [];
    assert BigEndian(0x1d7f, [0x3e, 0x7d]) == BigEndian(0x1d7f3e, [0x7d]) == 494_878_333;
    assert [0x7b, 0xbd][1..2] == [0xbd] && [0xbd][1..] == [] && [0x25][1..1] == [];
    assert [0x40, 0x25][1..2] == [0x25] && [0x25][1..] == [];
  }

  lemma EightBytes(s: seq<Byte>)
    requires s == [0xc2, 0x19, 0x7c, 0x5e, 0xff, 0x14, 0xe8, 0x8c]
    ensures Decoded(s) == Some(Varint(151_288_809_941_952_652, 8))
  {
    var t := s[1..8];
    assert t == [0x19, 0x7c, 0x5e, 0xff, 0x14, 0xe8, 0x8c];
    assert BigEndian(0x02, t) == BigEndian(0x0219, t[1..]);
    assert BigEndian(0x0219, t[1..]) == BigEndian(0x02197c, t[1..][1..]) && t[1..][1..] == t[2..];
    assert BigEndian(0x02197c, t[2..]) == BigEndian(0x02197c5e, t[2..][1..]) && t[2..][1..] == t[3..];
    assert BigEndian(0x02197c5e, t[3..]) == BigEndian(0x02197c5eff, t[3..][1..]) && t[3..][1..] == t[4..];
    assert BigEndian(0x02197c5eff, t[4..]) == BigEndian(0x02197c5eff14, t[4..][1..]) && t[4..][1..] == t[5..];
    assert BigEndian(0x02197c5eff14, t[5..]) == BigEndian(0x02197c5eff14e8, t[5..][1..]) && t[5..][1..] == t[6..];
    assert BigEndian(0x02197c5eff14e8, t[6..]) == BigEndian(0x02197c5eff14e88c, t[6..][1..]) && t[6..][1..] == [];
  }

  lemma {:induction false} BigEndianBelow(acc: nat, s: seq<Byte>)
    requires acc < 64
    ensures BigEndian(acc, s) < Capacity(|s| + 1)
    decreases |s|
  {
    if s == [] {
    } else {
      var front, last := s[..|s| - 1], s[|s| - 1];
      assert s == front + [last];
      BigEndianBelow(acc, front);
      BigEndianSnoc(acc, front, last);
    }
  }

  /** Nothing decodable stands for 2^62 or more, and no encoding of a value is shorter than the
      one produced. */
  lemma DecodedRange(s: seq<Byte>)
    requires Decoded(s).Some?
    ensures Decoded(s).value.value < VARINT_LIMIT
    ensures |Encoded(Decoded(s).value.value)| <= Decoded(s).value.length
  {
    var n := Need(s[0]);
    Capacities();
    BigEndianBelow(s[0] % 64, s[1..n]);
    hide ToBytes, BigEndian;
  }

  /** More bytes never change a varint already complete. */
  lemma DecodedStable(s: seq<Byte>, t: seq<Byte>)
    requires Decoded(s).Some?
    ensures Decoded(s + t) == Decoded(s)
  {
    var n := Need(s[0]);
    assert (s + t)[0] == s[0] && (s + t)[1..n] == s[1..n];
  }
}
