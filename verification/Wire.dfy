/**
 Big-endian words on the wire (frame.cpp:10-29, encoding/binary in tools/chaskibridge/frame.go).
 */
module Wire {
  import opened Crc

  function PutU32(v: bv32): (r: seq<Byte>)
    ensures |r| == 4
  {
    [((v >> 24) & 0xFF) as bv8, ((v >> 16) & 0xFF) as bv8, ((v >> 8) & 0xFF) as bv8, (v & 0xFF) as bv8]
  }

  function GetU32(p: seq<Byte>): bv32
    requires |p| == 4
  {
    ((p[0] as bv32) << 24) | ((p[1] as bv32) << 16) | ((p[2] as bv32) << 8) | (p[3] as bv32)
  }

  lemma Gather(v: bv32)
    ensures GetU32(PutU32(v)) == v
  {
  }

  lemma Spread(a: bv8, b: bv8, c: bv8, d: bv8)
    ensures var v := ((a as bv32) << 24) | ((b as bv32) << 16) | ((c as bv32) << 8) | (d as bv32);
            && ((v >> 24) & 0xFF) as bv8 == a && ((v >> 16) & 0xFF) as bv8 == b
            && ((v >> 8) & 0xFF) as bv8 == c && (v & 0xFF) as bv8 == d
  {
  }

  lemma Scatter(p: seq<Byte>)
    requires |p| == 4
    ensures PutU32(GetU32(p)) == p
  {
    Spread(p[0], p[1], p[2], p[3]);
    assert p == [p[0], p[1], p[2], p[3]];
  }

  // ---------------------------------------------------------------- bytes as numbers

  datatype Octet = Octet(b7: bool, b6: bool, b5: bool, b4: bool, b3: bool, b2: bool, b1: bool, b0: bool)

  function IfBit(c: bool, v: bv8): bv8
  {
    if c then v else 0
  }

  /** Horner's rule, bit by bit. */
  function Sum(o: Octet): (n: nat)
  {
    Twice(Twice(Twice(Twice(Twice(Twice(Twice(Twice(0, o.b7), o.b6), o.b5), o.b4), o.b3), o.b2), o.b1), o.b0)
  }

  function Twice(n: nat, c: bool): (r: nat)
    ensures r / 2 == n && (r % 2 == 1 <==> c)
  {
    2 * n + if c then 1 else 0
  }

  function Pack(o: Octet): (b: Byte)
  {
    IfBit(o.b7, 128) | IfBit(o.b6, 64) | IfBit(o.b5, 32) | IfBit(o.b4, 16)
    | IfBit(o.b3, 8) | IfBit(o.b2, 4) | IfBit(o.b1, 2) | IfBit(o.b0, 1)
  }

  function BitsOf(b: Byte): (o: Octet)
  {
    Octet(b & 128 != 0, b & 64 != 0, b & 32 != 0, b & 16 != 0, b & 8 != 0, b & 4 != 0, b & 2 != 0, b & 1 != 0)
  }

  function Digits(n: nat): (o: Octet)
  {
    var h, l := n / 16, n % 16;
    Octet(h / 8 == 1, h / 4 % 2 == 1, h / 2 % 2 == 1, h % 2 == 1, l / 8 == 1, l / 4 % 2 == 1, l / 2 % 2 == 1, l % 2 == 1)
  }

  lemma PackBits(b: Byte)
    ensures Pack(BitsOf(b)) == b
  {
  }

  lemma BitsPack(o: Octet)
    ensures BitsOf(Pack(o)) == o
  {
  }

  lemma Nibble(n: nat, start: nat)
    requires n < 16
    ensures Twice(Twice(Twice(Twice(start, n / 8 == 1), n / 4 % 2 == 1), n / 2 % 2 == 1), n % 2 == 1) == 16 * start + n
  {
  }

  lemma SumDigits(n: nat)
    requires n < 256
    ensures Sum(Digits(n)) == n
  {
    Nibble(n / 16, 0);
    Nibble(n % 16, n / 16);
  }

  lemma SumBelow(o: Octet)
    ensures Sum(o) < 256
  {
  }

  lemma DigitsSum(o: Octet)
    ensures Sum(o) < 256 && Digits(Sum(o)) == o
  {
    SumBelow(o);
    SumDigits(Sum(o));
    SumInjective(Digits(Sum(o)), o);
  }

  lemma SumInjective(o: Octet, p: Octet)
    requires Sum(o) == Sum(p)
    ensures o == p
  {
  }

  function Value(b: Byte): (n: nat)
  {
    Sum(BitsOf(b))
  }

  function ToByte(n: nat): (b: Byte)
  {
    Pack(Digits(n))
  }

  lemma ValueOfByte(n: nat)
    requires n < 256
    ensures Value(ToByte(n)) == n
  {
    BitsPack(Digits(n));
    SumDigits(n);
  }

  lemma ByteOfValue(b: Byte)
    ensures Value(b) < 256 && ToByte(Value(b)) == b
  {
    DigitsSum(BitsOf(b));
    PackBits(b);
  }

  // ---------------------------------------------------------------- lengths

  function Horner(a: nat, b: nat): nat
  {
    a * 256 + b
  }

  lemma Refold(n: nat)
    ensures Horner(n / 256, n % 256) == n
  {
  }

  lemma Unfold(a: nat, b: nat)
    requires b < 256
    ensures Horner(a, b) / 256 == a && Horner(a, b) % 256 == b
  {
  }

  /** A length in four bytes, most significant first. */
  function PutDigits<B>(byte: nat -> B, n: nat): (r: seq<B>)
    ensures |r| == 4
  {
    var q1 := n / 256;
    var q2 := q1 / 256;
    var q3 := q2 / 256;
    [byte(q3), byte(q2 % 256), byte(q1 % 256), byte(n % 256)]
  }

  function GetDigits<B>(value: B -> nat, p: seq<B>): (n: nat)
    requires |p| == 4
  {
    Horner(Horner(Horner(value(p[0]), value(p[1])), value(p[2])), value(p[3]))
  }

  ghost predicate Inverse<B(!new)>(value: B -> nat, byte: nat -> B)
  {
    && (forall n :: 0 <= n < 256 ==> value(byte(n)) == n)
    && (forall b :: value(b) < 256 && byte(value(b)) == b)
  }

  lemma DigitsRoundTrip<B(!new)>(value: B -> nat, byte: nat -> B, n: nat)
    requires Inverse(value, byte) && n < 0x1_0000_0000
    ensures GetDigits(value, PutDigits(byte, n)) == n
  {
    Refold(n);
    Refold(n / 256);
    Refold(n / 256 / 256);
  }

  lemma DigitsAreBytes<B(!new)>(value: B -> nat, byte: nat -> B, p: seq<B>)
    requires Inverse(value, byte) && |p| == 4
    ensures PutDigits(byte, GetDigits(value, p)) == p
  {
    var a, b, c, d := value(p[0]), value(p[1]), value(p[2]), value(p[3]);
    Unfold(Horner(Horner(a, b), c), d);
    Unfold(Horner(a, b), c);
    Unfold(a, b);
    assert p == [p[0], p[1], p[2], p[3]];
  }

  lemma BytesAreNumbers()
    ensures Inverse(Value, ToByte)
  {
    forall n: nat | n < 256
      ensures Value(ToByte(n)) == n
    {
      ValueOfByte(n);
    }
    forall b: Byte
      ensures Value(b) < 256 && ToByte(Value(b)) == b
    {
      ByteOfValue(b);
    }
  }

  /** A sixteen-bit number in two bytes. */
  function PutPair<B>(byte: nat -> B, n: nat): (r: seq<B>)
    ensures |r| == 2
  {
    [byte(n / 256), byte(n % 256)]
  }

  function GetPair<B>(value: B -> nat, p: seq<B>): (n: nat)
    requires |p| == 2
  {
    Horner(value(p[0]), value(p[1]))
  }

  lemma PairRoundTrip<B(!new)>(value: B -> nat, byte: nat -> B, n: nat)
    requires Inverse(value, byte) && n < 0x1_0000
    ensures GetPair(value, PutPair(byte, n)) == n
  {
    Refold(n);
  }

  lemma PairIsBytes<B(!new)>(value: B -> nat, byte: nat -> B, p: seq<B>)
    requires Inverse(value, byte) && |p| == 2
    ensures GetPair(value, p) < 0x1_0000 && PutPair(byte, GetPair(value, p)) == p
  {
    Unfold(value(p[0]), value(p[1]));
    assert p == [p[0], p[1]];
  }
}
