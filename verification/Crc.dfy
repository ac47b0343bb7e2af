/**
 CRC-32/IEEE, bit by bit (firmware/chaski/components/transport/frame.cpp), and why it catches any
 damage confined to one byte: every step of it is injective.
 */
module Crc {
  import opened Basics

  type Byte = bv8

  /** frame.cpp:45-48: one bit of the register. */
  function Bit(crc: bv32): (r: bv32)
  {
    (crc >> 1) ^ (if crc & 1 == 1 then 0xEDB88320 else 0)
  }

  function Bits(crc: bv32, n: nat): (r: bv32)
  {
    if n == 0 then crc else Bit(Bits(crc, n - 1))
  }

  /** The places of the eight bits of a byte. */
  const OCTET: seq<nat> := [0, 1, 2, 3, 4, 5, 6, 7]

  /** The register after one byte. */
  function Step(crc: bv32, x: Byte): (r: bv32)
  {
    Bits(crc ^ (x as bv32), |OCTET|)
  }

  function Crc32(s: seq<Byte>): (r: bv32)
  {
    Fold(Step, 0xFFFF_FFFF, s) ^ 0xFFFF_FFFF
  }

  /** frame.cpp:43-48. The mask is the source's minus one when the low bit is set, zero when not. */
  method ComputeStep(crc0: bv32, x: Byte) returns (crc: bv32)
    ensures crc == Step(crc0, x)
  {
    crc := crc0 ^ (x as bv32);
    ghost var start := crc;
    var bit := 0;
    while bit < |OCTET|
      invariant 0 <= bit <= |OCTET| && crc == Bits(start, bit)
    {
      var mask: bv32 := 0 - (crc & 1);
      MaskedIsBit(crc, mask);
      crc := (crc >> 1) ^ (0xEDB88320 & mask);
      bit := bit + 1;
    }
  }

  /** frame.cpp:40-50. */
  method ComputeCrc32(data: seq<Byte>) returns (r: bv32)
    ensures r == Crc32(data)
  {
    var crc: bv32 := 0xFFFF_FFFF;
    for i := 0 to |data|
      invariant crc == Fold(Step, 0xFFFF_FFFF, data[..i])
    {
      assert data[..i + 1][..i] == data[..i];
      crc := ComputeStep(crc, data[i]);
    }
    assert data[..|data|] == data;
    r := crc ^ 0xFFFF_FFFF;
  }

  lemma MaskedIsBit(crc: bv32, mask: bv32)
    requires mask == 0 - (crc & 1)
    ensures (crc >> 1) ^ (0xEDB88320 & mask) == Bit(crc)
  {
    LowBit(crc);
    MaskOf(crc & 1);
  }

  lemma LowBit(x: bv32)
    ensures x & 1 == 0 || x & 1 == 1
  {
  }

  lemma MaskOf(b: bv32)
    requires b == 0 || b == 1
    ensures 0xEDB88320 & (0 - b) == if b == 1 then 0xEDB88320 else 0
  {
  }

  lemma BitInjective(a: bv32, b: bv32)
    requires Bit(a) == Bit(b)
    ensures a == b
  {
  }

  lemma {:induction false} BitsInjective(a: bv32, b: bv32, n: nat)
    requires Bits(a, n) == Bits(b, n)
    ensures a == b
  {
    if n > 0 {
      BitInjective(Bits(a, n - 1), Bits(b, n - 1));
      BitsInjective(a, b, n - 1);
    }
  }

  lemma XorInjective(a: bv32, b: bv32, c: bv32)
    requires a ^ c == b ^ c
    ensures a == b
  {
  }

  lemma XorByteInjective(a: bv32, x: Byte, y: Byte)
    requires a ^ (x as bv32) == a ^ (y as bv32)
    ensures x == y
  {
  }

  lemma BitsXorInjective(a: bv32, b: bv32, c: bv32, n: nat)
    requires Bits(a ^ c, n) == Bits(b ^ c, n)
    ensures a == b
  {
    BitsInjective(a ^ c, b ^ c, n);
    XorInjective(a, b, c);
  }

  lemma BitsXorByteInjective(a: bv32, x: Byte, y: Byte, n: nat)
    requires Bits(a ^ (x as bv32), n) == Bits(a ^ (y as bv32), n)
    ensures x == y
  {
    BitsInjective(a ^ (x as bv32), a ^ (y as bv32), n);
    XorByteInjective(a, x, y);
  }

  lemma StepInjective(a: bv32, b: bv32, x: Byte)
    requires Step(a, x) == Step(b, x)
    ensures a == b
  {
    BitsXorInjective(a, b, x as bv32, |OCTET|);
  }

  lemma StepByteInjective(a: bv32, x: Byte, y: Byte)
    requires Step(a, x) == Step(a, y)
    ensures x == y
  {
    BitsXorByteInjective(a, x, y, |OCTET|);
  }

  ghost predicate Injective<R(!new), B(!new)>(f: (R, B) -> R)
  {
    && (forall a, b, x :: f(a, x) == f(b, x) ==> a == b)
    && (forall a, x, y :: f(a, x) == f(a, y) ==> x == y)
  }

  /** A different register stays different, whatever follows. */
  lemma {:induction false} FoldInjective<R(!new), B(!new)>(f: (R, B) -> R, a: R, b: R, s: seq<B>)
    requires Injective(f) && Fold(f, a, s) == Fold(f, b, s)
    ensures a == b
  {
    if s != [] {
      FoldInjective(f, a, b, s[..|s| - 1]);
    }
  }

  /** A fold of injective steps tells apart any two inputs that differ in one place. */
  lemma OnePlaceChangesFold<R(!new), B(!new)>(f: (R, B) -> R, start: R, s: seq<B>, k: nat, y: B)
    requires Injective(f) && k < |s| && s[k] != y
    ensures Fold(f, start, s[k := y]) != Fold(f, start, s)
  {
    var head, tail := s[..k], s[k + 1..];
    assert s == head + [s[k]] + tail && s[k := y] == head + [y] + tail;
    FoldOne(f, start, head, s[k], tail);
    FoldOne(f, start, head, y, tail);
    var r := Fold(f, start, head);
    if Fold(f, start, s[k := y]) == Fold(f, start, s) {
      FoldInjective(f, f(r, s[k]), f(r, y), tail);
    }
  }

  /** Two messages that differ in one byte only never share a checksum. */
  lemma OneByteChangesCrc(s: seq<Byte>, k: nat, y: Byte)
    requires k < |s| && s[k] != y
    ensures Crc32(s[k := y]) != Crc32(s)
  {
    forall a: bv32, b: bv32, x: Byte | Step(a, x) == Step(b, x)
      ensures a == b
    {
      StepInjective(a, b, x);
    }
    forall a: bv32, x: Byte, y: Byte | Step(a, x) == Step(a, y)
      ensures x == y
    {
      StepByteInjective(a, x, y);
    }
    assert Injective(Step);
    OnePlaceChangesFold(Step, 0xFFFF_FFFF, s, k, y);
    if Crc32(s[k := y]) == Crc32(s) {
      XorInjective(Fold(Step, 0xFFFF_FFFF, s), Fold(Step, 0xFFFF_FFFF, s[k := y]), 0xFFFF_FFFF);
    }
  }
}
