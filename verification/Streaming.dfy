/**
 A block hash fed piece by piece (firmware/chaski/components/pututu/hmac_sha256.cpp, Context, Update
 and Final), for any compression function over 64-byte blocks.
 */
module Streaming {
  const BLOCK: nat := 64
  const LENGTH_AT: nat := 56
  const WORD64: nat := 0x1_0000_0000_0000_0000

  /** The chaining value after the blocks of `s`. */
  function Blocks<H, B>(f: (H, seq<B>) -> H, start: H, s: seq<B>): (r: H)
    requires |s| % BLOCK == 0
  {
    if s == [] then start else f(Blocks(f, start, s[..|s| - BLOCK]), s[|s| - BLOCK..])
  }

  lemma BlocksPush<H, B>(f: (H, seq<B>) -> H, start: H, s: seq<B>, p: seq<B>)
    requires |s| % BLOCK == 0 && |p| == BLOCK
    ensures Blocks(f, start, s + p) == f(Blocks(f, start, s), p)
  {
    var t := s + p;
    assert t[..|t| - BLOCK] == s && t[|t| - BLOCK..] == p;
  }

  /** How many zero bytes go between the marker and the length. */
  function Zeros(n: nat): (k: nat)
    ensures k < BLOCK && (n + 1 + k) % BLOCK == LENGTH_AT
  {
    (55 - n % BLOCK) % BLOCK
  }

  /** Section 5.1.1 of FIPS 180-4 asks for the smallest such number. */
  lemma ZerosIsLeast(n: nat, k: nat)
    requires (n + 1 + k) % BLOCK == LENGTH_AT
    ensures Zeros(n) <= k
  {
  }

  function Repeat<B>(x: B, n: nat): (s: seq<B>)
    ensures |s| == n
  {
    if n == 0 then [] else Repeat(x, n - 1) + [x]
  }

  /** The constants of a padding: the marker, the filler, and how a length is written. */
  datatype Padding<!B> = Padding(marker: B, zero: B, length: nat -> seq<B>)

  /** Eight bytes, for a count that is kept in sixty-four bits. */
  ghost predicate Lawful<B>(pad: Padding<B>)
  {
    forall n: nat :: |pad.length(n)| == 8 && pad.length(n % WORD64) == pad.length(n)
  }

  /** The whole message as section 5.1.1 of FIPS 180-4 pads it. */
  ghost function Padded<B>(pad: Padding<B>, msg: seq<B>): (s: seq<B>)
    requires Lawful(pad)
    ensures |s| % BLOCK == 0
  {
    PaddedLength(|msg|);
    msg + [pad.marker] + Repeat(pad.zero, Zeros(|msg|)) + pad.length(|msg|)
  }

  lemma PaddedLength(n: nat)
    ensures (n + 1 + Zeros(n) + 8) % BLOCK == 0
  {
    var m := n + 1 + Zeros(n);
    assert m == m / BLOCK * BLOCK + LENGTH_AT;
    assert m + 8 == (m / BLOCK + 1) * BLOCK;
  }

  class Context<H, B> {
    const f: (H, seq<B>) -> H
    const start: H
    var h: H
    var total: nat              // a 64-bit counter of message bytes
    const block: array<B>
    var filled: nat
    ghost var done: seq<B>      // what has been compressed

    ghost predicate Chained()
      reads this, block
    {
      block.Length == BLOCK && filled <= BLOCK && |done| % BLOCK == 0 && h == Blocks(f, start, done)
    }

    /** Everything fed in so far: what is not yet compressed waits in the block. */
    ghost function Fed(): (s: seq<B>)
      requires Chained()
      reads this, block
    {
      done + block[..filled]
    }

    ghost predicate Valid()
      reads this, block
    {
      Chained() && filled < BLOCK && total == |Fed()| % WORD64
    }

    constructor (f: (H, seq<B>) -> H, start: H, zero: B)
      ensures Valid() && Fed() == [] && this.f == f && this.start == start && fresh(block)
    {
      this.f := f;
      this.start := start;
      h := start;
      total := 0;
      block := new B[BLOCK](_ => zero);
      filled := 0;
      done := [];
    }

    /** memcpy into the free part of the block. */
    method Fill(data: seq<B>)
      requires Chained() && |data| <= BLOCK - filled
      modifies this`filled, block
      ensures Chained() && filled == old(filled) + |data| && Fed() == old(Fed()) + data
    {
      var at := filled;
      forall i | 0 <= i < |data| {
        block[at + i] := data[i];
      }
      filled := at + |data|;
      assert block[..filled] == old(block[..filled]) + data;
    }

    /** Compress the full block. */
    method Flush()
      requires Chained() && filled == BLOCK
      modifies this`h, this`filled, this`done
      ensures Chained() && filled == 0 && Fed() == old(Fed())
    {
      BlocksPush(f, start, done, block[..]);
      h := f(h, block[..]);
      done := done + block[..];
      filled := 0;
      assert block[..BLOCK] == block[..];
    }

    /** hmac_sha256.cpp:81-89: one turn of the loop. */
    method Take(data: seq<B>) returns (n: nat)
      requires Chained() && filled < BLOCK && data != []
      modifies this`h, this`filled, this`done, block
      ensures Chained() && filled < BLOCK && 0 < n <= |data| && Fed() == old(Fed()) + data[..n]
    {
      n := if BLOCK - filled < |data| then BLOCK - filled else |data|;
      Fill(data[..n]);
      if filled == BLOCK {
        Flush();
      }
    }

    /** hmac_sha256.cpp:78-91. */
    method Update(data: seq<B>)
      requires Valid()
      modifies this`h, this`total, this`filled, this`done, block
      ensures Valid() && Fed() == old(Fed()) + data
    {
      ghost var before := Fed();
      total := (total + |data|) % WORD64;
      var i := 0;
      assert before + data[..0] == before;
      while i < |data|
        invariant i <= |data| && Chained() && filled < BLOCK && Fed() == before + data[..i]
        invariant total == (old(total) + |data|) % WORD64
      {
        var n := Take(data[i..]);
        Advance(before, data, i, n);
        i := i + n;
      }
      assert data[..|data|] == data;
      TotalGrows(|before|, |data|);
      assert |Fed()| == |before| + |data|;
    }

    method UpdateOne(x: B)
      requires Valid()
      modifies this`h, this`total, this`filled, this`done, block
      ensures Valid() && Fed() == old(Fed()) + [x]
      ensures filled == if old(filled) + 1 == BLOCK then 0 else old(filled) + 1
    {
      ghost var was, fed := filled, Fed();
      Update([x]);
      FilledStep(|fed|, was, |done|, filled);
    }

    /** hmac_sha256.cpp:97-98: zeros up to the length field. The loop ends. */
    method FillZeros(zero: B) returns (ghost k: nat)
      requires Valid()
      modifies this`h, this`total, this`filled, this`done, block
      ensures Valid() && filled == LENGTH_AT && k < BLOCK
      ensures Fed() == old(Fed()) + Repeat(zero, k)
    {
      ghost var before := Fed();
      k := 0;
      assert before + Repeat(zero, 0) == before;
      while filled != LENGTH_AT
        invariant Valid() && Fed() == before + Repeat(zero, k) && k + Gap(filled) < BLOCK
        decreases Gap(filled)
      {
        UpdateOne(zero);
        RepeatPush(before, zero, k);
        k := k + 1;
      }
    }

    /** hmac_sha256.cpp:93-115: the length goes straight into the block, uncounted. */
    method Final(pad: Padding<B>) returns (r: H)
      requires Valid() && Lawful(pad)
      modifies this`h, this`total, this`filled, this`done, block
      ensures r == Blocks(f, start, Padded(pad, old(Fed())))
    {
      ghost var msg := Fed();
      var length := pad.length(total);
      assert length == pad.length(|msg|);
      Update([pad.marker]);
      ghost var k := FillZeros(pad.zero);
      ZerosAreZeros(|msg|, k, |done|);
      Fill(length);
      Flush();
      assert done + block[..0] == done;
      r := h;
    }
  }

  lemma ZerosAreZeros(n: nat, k: nat, done: nat)
    requires done % BLOCK == 0 && n + 1 + k == done + LENGTH_AT && k < BLOCK
    ensures k == Zeros(n)
  {
  }

  // ---------------------------------------------------------------- a hash and its HMAC

  datatype Hash<!H, !B> = Hash(f: (H, seq<B>) -> H, start: H, pad: Padding<B>, out: H -> seq<B>)

  /** The digest as the standard defines it. */
  ghost function Digest<H, B>(alg: Hash<H, B>, msg: seq<B>): seq<B>
    requires Lawful(alg.pad)
  {
    alg.out(Blocks(alg.f, alg.start, Padded(alg.pad, msg)))
  }

  function Concat<B>(parts: seq<seq<B>>): seq<B>
  {
    if parts == [] then [] else Concat(parts[..|parts| - 1]) + parts[|parts| - 1]
  }

  /** hmac_sha256.cpp:122-126, for any split of the message into Update calls. */
  method Compute<H, B>(alg: Hash<H, B>, parts: seq<seq<B>>) returns (d: seq<B>)
    requires Lawful(alg.pad)
    ensures d == Digest(alg, Concat(parts))
  {
    var c := new Context(alg.f, alg.start, alg.pad.zero);
    for i := 0 to |parts|
      invariant c.Valid() && fresh(c) && fresh(c.block) && c.Fed() == Concat(parts[..i])
    {
      c.Update(parts[i]);
      assert parts[..i + 1][..i] == parts[..i];
    }
    assert parts[..|parts|] == parts;
    var h := c.Final(alg.pad);
    d := alg.out(h);
  }

  /** Section 2 of RFC 2104. */
  datatype Keying<!B> = Keying(xor: (B, B) -> B, ipad: B, opad: B)

  function Masked<B>(xor: (B, B) -> B, k: seq<B>, x: B): (s: seq<B>)
    ensures |s| == |k| && forall i :: 0 <= i < |k| ==> s[i] == xor(k[i], x)
  {
    seq(|k|, i requires 0 <= i < |k| => xor(k[i], x))
  }

  /** A key longer than a block is hashed; then zeros fill the block. */
  ghost function BlockKey<H, B>(alg: Hash<H, B>, key: seq<B>): (k: seq<B>)
    requires Lawful(alg.pad)
  {
    var short := if |key| > BLOCK then Digest(alg, key) else key;
    if |short| <= BLOCK then short + Repeat(alg.pad.zero, BLOCK - |short|) else short
  }

  ghost function Hmac<H, B>(alg: Hash<H, B>, ks: Keying<B>, key: seq<B>, text: seq<B>): seq<B>
    requires Lawful(alg.pad)
  {
    var k := BlockKey(alg, key);
    Digest(alg, Masked(ks.xor, k, ks.opad) + Digest(alg, Masked(ks.xor, k, ks.ipad) + text))
  }

  /** hmac_sha256.cpp:138-139 and 146: the key block under one mask. */
  method Mask<B(==)>(ks: Keying<B>, k: array<B>, x: B) returns (pad: array<B>)
    requires k.Length == BLOCK
    ensures fresh(pad) && pad.Length == BLOCK && pad[..] == Masked(ks.xor, k[..], x)
  {
    pad := new B[BLOCK](i requires 0 <= i < BLOCK reads k => k[i]);
    for i := 0 to BLOCK
      invariant forall j :: 0 <= j < i ==> pad[j] == ks.xor(k[j], x)
    {
      pad[i] := ks.xor(k[i], x);
    }
  }

  /** One context fed the mask and then a text. */
  method Keyed<H, B>(alg: Hash<H, B>, pad: array<B>, text: seq<B>) returns (d: seq<B>)
    requires Lawful(alg.pad)
    ensures d == Digest(alg, pad[..] + text)
  {
    var c := new Context(alg.f, alg.start, alg.pad.zero);
    c.Update(pad[..]);
    c.Update(text);
    assert [] + pad[..] == pad[..];
    var h := c.Final(alg.pad);
    d := alg.out(h);
  }

  /** hmac_sha256.cpp:128-157, whatever the length of the key. */
  method ComputeHmac<H, B(==)>(alg: Hash<H, B>, ks: Keying<B>, key: seq<B>, text: seq<B>) returns (d: seq<B>)
    requires Lawful(alg.pad) && forall h :: |alg.out(h)| <= BLOCK
    ensures d == Hmac(alg, ks, key, text)
  {
    var short := key;
    if |key| > BLOCK {
      short := Compute(alg, [key]);
      assert [key][..0] == [] && Concat([]) + key == key;
      assert Concat([key]) == key;
    }
    var k := new B[BLOCK](_ => alg.pad.zero);
    forall i | 0 <= i < |short| {
      k[i] := short[i];
    }
    ZerosFill(k[..], short, alg.pad.zero);
    var inner := Mask(ks, k, ks.ipad);
    var innerDigest := Keyed(alg, inner, text);
    var outer := Mask(ks, k, ks.opad);
    d := Keyed(alg, outer, innerDigest);
  }

  lemma RepeatPush<B>(before: seq<B>, x: B, k: nat)
    ensures (before + Repeat(x, k)) + [x] == before + Repeat(x, k + 1)
  {
  }

  lemma {:induction false} RepeatAt<B>(x: B, n: nat, i: nat)
    requires i < n
    ensures Repeat(x, n)[i] == x
  {
    if i < n - 1 {
      RepeatAt(x, n - 1, i);
    }
  }

  lemma ZerosFill<B>(k: seq<B>, short: seq<B>, zero: B)
    requires |k| == BLOCK && |short| <= BLOCK && short <= k && forall i :: |short| <= i < BLOCK ==> k[i] == zero
    ensures k == short + Repeat(zero, BLOCK - |short|)
  {
    forall i | |short| <= i < BLOCK
      ensures k[i] == (short + Repeat(zero, BLOCK - |short|))[i]
    {
      RepeatAt(zero, BLOCK - |short|, i - |short|);
    }
  }

  /** How many bytes are missing up to the length field. */
  function Gap(filled: nat): (n: int)
  {
    if filled <= LENGTH_AT then LENGTH_AT - filled else BLOCK + LENGTH_AT - filled
  }

  lemma Advance<B>(before: seq<B>, data: seq<B>, i: nat, n: nat)
    requires i + n <= |data|
    ensures (before + data[..i]) + data[i..][..n] == before + data[..i + n]
  {
  }

  lemma TotalGrows(a: nat, b: nat)
    ensures (a % WORD64 + b) % WORD64 == (a + b) % WORD64
  {
    var q := a / WORD64;
    assert a == q * WORD64 + a % WORD64;
    assert (a % WORD64 + b + q * WORD64) % WORD64 == (a % WORD64 + b) % WORD64;
  }

  /** The block holds what is left over from whole blocks, so one byte more moves it by one. */
  lemma FilledStep(n: nat, was: nat, done: nat, filled: nat)
    requires was < BLOCK && filled < BLOCK && done % BLOCK == 0
    requires n >= was && (n - was) % BLOCK == 0 && n + 1 == done + filled
    ensures filled == if was + 1 == BLOCK then 0 else was + 1
  {
  }
}
