/**
 SHA-256's compression function (firmware/chaski/components/pututu/hmac_sha256.cpp, Compress) against
 section 6.2.2 of FIPS 180-4.
 */
module Compression {

  /** The eight working variables, or the eight words of a hash value. */
  datatype Vars<W> = Vars(a: W, b: W, c: W, d: W, e: W, f: W, g: W, h: W)

  /** The word functions of section 4.1.2, and the constants of section 4.2.2. */
  datatype Ops<!W, !B> = Ops(load: seq<B> -> W, extend: (W, W, W, W) -> W, t1: (Vars<W>, W, W) -> W,
                             t2: Vars<W> -> W, add: (W, W) -> W, k: seq<W>)

  /** The message schedule, first `t` words: sixteen from the block, the others from those before. */
  function Schedule<W, B>(ops: Ops<W, B>, p: seq<B>, t: nat): (w: seq<W>)
    requires |p| == 64
    ensures |w| == t
  {
    if t == 0 then []
    else
      var w := Schedule(ops, p, t - 1);
      w + [if t <= 16 then ops.load(p[4 * t - 4..4 * t]) else ops.extend(w[t - 3], w[t - 8], w[t - 16], w[t - 17])]
  }

  function Round<W, B>(ops: Ops<W, B>, v: Vars<W>, k: W, w: W): Vars<W>
  {
    var t1 := ops.t1(v, k, w);
    Vars(ops.add(t1, ops.t2(v)), v.a, v.b, v.c, ops.add(v.d, t1), v.e, v.f, v.g)
  }

  function Rounds<W, B>(ops: Ops<W, B>, v: Vars<W>, w: seq<W>, t: nat): Vars<W>
    requires t <= |ops.k| && t <= |w|
  {
    if t == 0 then v else Round(ops, Rounds(ops, v, w, t - 1), ops.k[t - 1], w[t - 1])
  }

  function Sum<W, B>(ops: Ops<W, B>, u: Vars<W>, v: Vars<W>): Vars<W>
  {
    Vars(ops.add(u.a, v.a), ops.add(u.b, v.b), ops.add(u.c, v.c), ops.add(u.d, v.d),
         ops.add(u.e, v.e), ops.add(u.f, v.f), ops.add(u.g, v.g), ops.add(u.h, v.h))
  }

  /** One block into the hash value. */
  function Compressed<W, B>(ops: Ops<W, B>, h: Vars<W>, p: seq<B>): Vars<W>
  {
    if |p| != 64 then h else Sum(ops, h, Rounds(ops, h, Schedule(ops, p, |ops.k|), |ops.k|))
  }

  ghost function AsVars<W>(h: array<W>): Vars<W>
    requires h.Length == 8
    reads h
  {
    Vars(h[0], h[1], h[2], h[3], h[4], h[5], h[6], h[7])
  }

  /** hmac_sha256.cpp:37-48. */
  method Expand<W, B>(ops: Ops<W, B>, p: seq<B>, w: array<W>)
    requires |p| == 64 && w.Length == |ops.k| && 16 <= w.Length
    modifies w
    ensures w[..] == Schedule(ops, p, |ops.k|)
  {
    for i := 0 to 16
      invariant w[..i] == Schedule(ops, p, i)
    {
      w[i] := ops.load(p[i * 4..i * 4 + 4]);
      assert w[..i + 1] == w[..i] + [w[i]];
    }
    for i := 16 to w.Length
      invariant w[..i] == Schedule(ops, p, i)
    {
      ghost var before := w[..i];
      w[i] := ops.extend(w[i - 2], w[i - 7], w[i - 15], w[i - 16]);
      assert w[..i + 1] == before + [w[i]];
    }
    assert w[..] == w[..w.Length];
  }

  /** hmac_sha256.cpp:36-76. */
  method Compress<W(0), B>(ops: Ops<W, B>, hash: array<W>, p: seq<B>)
    requires hash.Length == 8 && |p| == 64 && 16 <= |ops.k|
    modifies hash
    ensures AsVars(hash) == Compressed(ops, old(AsVars(hash)), p)
  {
    var w := new W[|ops.k|];
    Expand(ops, p, w);
    var a, b, c, d := hash[0], hash[1], hash[2], hash[3];
    var e, f, g, h := hash[4], hash[5], hash[6], hash[7];
    ghost var start := Vars(a, b, c, d, e, f, g, h);
    for i := 0 to w.Length
      invariant Vars(a, b, c, d, e, f, g, h) == Rounds(ops, start, w[..], i)
    {
      var t1 := ops.t1(Vars(a, b, c, d, e, f, g, h), ops.k[i], w[i]);
      var t2 := ops.t2(Vars(a, b, c, d, e, f, g, h));
      h := g;
      g := f;
      f := e;
      e := ops.add(d, t1);
      d := c;
      c := b;
      b := a;
      a := ops.add(t1, t2);
    }
    hash[0], hash[1], hash[2], hash[3] := ops.add(hash[0], a), ops.add(hash[1], b), ops.add(hash[2], c), ops.add(hash[3], d);
    hash[4], hash[5], hash[6], hash[7] := ops.add(hash[4], e), ops.add(hash[5], f), ops.add(hash[6], g), ops.add(hash[7], h);
  }
}
