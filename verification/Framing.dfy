/**
 The resynchronising frame codec, for any byte format: a magic, a type, a length, a payload and a
 seal over the last three (firmware/chaski/components/transport/frame.cpp, tools/chaskibridge/frame.go).
 */
module Framing {
  import opened Basics

  const MAX_PAYLOAD: nat := 65536
  const HEADER: nat := 9
  const OVERHEAD: nat := 13

  /** How a format writes its magic and its lengths, and what it seals a frame with. */
  datatype Format<!B> = Format(magic: seq<B>, putLength: nat -> seq<B>, getLength: seq<B> -> nat, seal: seq<B> -> seq<B>)

  ghost predicate Lawful<B(!new)>(fm: Format<B>)
  {
    && |fm.magic| == 4
    && (forall n: nat :: n <= MAX_PAYLOAD ==> |fm.putLength(n)| == 4 && fm.getLength(fm.putLength(n)) == n)
    && (forall p :: |p| == 4 ==> fm.putLength(fm.getLength(p)) == p)
    && (forall s :: |fm.seal(s)| == 4)
  }

  datatype Frame<B> = Frame(kind: B, payload: seq<B>)

  function Covered<B>(fm: Format<B>, f: Frame<B>): seq<B>
  {
    [f.kind] + fm.putLength(|f.payload|) + f.payload
  }

  function Encoding<B>(fm: Format<B>, f: Frame<B>): seq<B>
  {
    fm.magic + Covered(fm, f) + fm.seal(Covered(fm, f))
  }

  datatype Why = Noise | BadHeader | Torn

  /** What the head of a buffer is: not decidable yet, a byte to drop, or a whole frame. */
  datatype Verdict<B> = Need | Drop(why: Why) | Whole(frame: Frame<B>)

  function VerdictOf<B(==)>(fm: Format<B>, b: seq<B>): Verdict<B>
  {
    if |b| < 4 then Need
    else if b[..4] != fm.magic then Drop(Noise)
    else if |b| < HEADER then Need
    else
      var n := fm.getLength(b[5..9]);
      if n > MAX_PAYLOAD then Drop(BadHeader)
      else if |b| < OVERHEAD + n then Need
      else if b[HEADER + n..OVERHEAD + n] != fm.seal(b[4..HEADER + n]) then Drop(Torn)
      else Whole(Frame(b[4], b[HEADER..HEADER + n]))
  }

  /** What the decoders make of a stream: bytes thrown away and frames, in order. */
  datatype Piece<B> = Junk(byte: B, why: Why) | Good(frame: Frame<B>)
  datatype Drained<B> = Drained(pieces: seq<Piece<B>>, rest: seq<B>)

  function Bytes<B>(fm: Format<B>, p: Piece<B>): seq<B>
  {
    match p case Junk(b, _) => [b] case Good(f) => Encoding(fm, f)
  }

  function Flat<B>(fm: Format<B>, ps: seq<Piece<B>>): seq<B>
  {
    if ps == [] then [] else Bytes(fm, ps[0]) + Flat(fm, ps[1..])
  }

  /** What the head of `b` is taken off as, and how long it is. */
  function PieceOf<B>(b: seq<B>, v: Verdict<B>): Piece<B>
    requires v != Need && b != []
  {
    if v.Drop? then Junk(b[0], v.why) else Good(v.frame)
  }

  function Length<B>(v: Verdict<B>): (n: nat)
    requires v != Need
    ensures n > 0
  {
    if v.Drop? then 1 else OVERHEAD + |v.frame.payload|
  }

  lemma LengthFits<B>(fm: Format<B>, b: seq<B>)
    ensures var v := VerdictOf(fm, b); v != Need ==> b != [] && Length(v) <= |b|
  {
  }

  /** The reference decoder: judge the head, take it off, go on. */
  function Drain<B(==)>(fm: Format<B>, b: seq<B>): (d: Drained<B>)
    ensures |d.rest| <= |b|
    decreases |b|
  {
    LengthFits(fm, b);
    var v := VerdictOf(fm, b);
    if v == Need then Drained([], b)
    else
      var d := Drain(fm, b[Length(v)..]);
      Drained([PieceOf(b, v)] + d.pieces, d.rest)
  }

  // ---------------------------------------------------------------- one verdict

  /** Bytes that have not arrived cannot change a verdict. */
  lemma VerdictStable<B>(fm: Format<B>, b: seq<B>, x: seq<B>)
    requires VerdictOf(fm, b) != Need
    ensures VerdictOf(fm, b + x) == VerdictOf(fm, b)
  {
    var c := b + x;
    assert c[..4] == b[..4];
    if b[..4] == fm.magic {
      assert c[5..9] == b[5..9];
      var n := fm.getLength(b[5..9]);
      if n <= MAX_PAYLOAD {
        assert c[HEADER + n..OVERHEAD + n] == b[HEADER + n..OVERHEAD + n];
        assert c[4..HEADER + n] == b[4..HEADER + n];
        assert c[HEADER..HEADER + n] == b[HEADER..HEADER + n];
      }
    }
  }

  /** What is taken for a frame is, byte for byte, that frame's encoding. */
  lemma WholeIsEncoding<B(!new)>(fm: Format<B>, b: seq<B>)
    requires Lawful(fm) && VerdictOf(fm, b).Whole?
    ensures var f := VerdictOf(fm, b).frame;
            |f.payload| <= MAX_PAYLOAD && OVERHEAD + |f.payload| <= |b| && b[..OVERHEAD + |f.payload|] == Encoding(fm, f)
  {
    var n := fm.getLength(b[5..9]);
    var f := VerdictOf(fm, b).frame;
    assert fm.putLength(n) == b[5..9];
    assert b[4..HEADER + n] == [b[4]] + b[5..9] + b[HEADER..HEADER + n];
    assert Covered(fm, f) == b[4..HEADER + n];
    assert b[..OVERHEAD + n] == b[..4] + b[4..HEADER + n] + b[HEADER + n..OVERHEAD + n];
  }

  /** A whole encoding at the head is taken for its frame, whatever follows. */
  lemma EncodingIsWhole<B(!new)>(fm: Format<B>, f: Frame<B>, x: seq<B>)
    requires Lawful(fm) && |f.payload| <= MAX_PAYLOAD
    ensures |Encoding(fm, f)| == OVERHEAD + |f.payload| && VerdictOf(fm, Encoding(fm, f) + x) == Whole(f)
  {
    var n := |f.payload|;
    var c, e := Covered(fm, f), Encoding(fm, f);
    assert |fm.putLength(n)| == 4 && |fm.seal(c)| == 4;
    var b := e + x;
    assert b[..4] == fm.magic;
    assert b[4..HEADER + n] == c;
    assert b[5..9] == c[1..5] == fm.putLength(n);
    assert b[HEADER..HEADER + n] == c[5..] == f.payload;
    assert b[HEADER + n..OVERHEAD + n] == fm.seal(c);
  }

  // ---------------------------------------------------------------- whole streams

  lemma {:induction false} FlatOn<B>(fm: Format<B>, a: seq<Piece<B>>, b: seq<Piece<B>>)
    ensures Flat(fm, a + b) == Flat(fm, a) + Flat(fm, b)
  {
    if a == [] {
      assert a + b == b;
    } else {
      assert (a + b)[1..] == a[1..] + b;
      FlatOn(fm, a[1..], b);
    }
  }

  lemma FlatCons<B>(fm: Format<B>, p: Piece<B>, ps: seq<Piece<B>>)
    ensures Flat(fm, [p] + ps) == Bytes(fm, p) + Flat(fm, ps)
  {
    assert ([p] + ps)[1..] == ps;
  }

  lemma HeadIsBytes<B(!new)>(fm: Format<B>, b: seq<B>, v: Verdict<B>)
    requires Lawful(fm) && v == VerdictOf(fm, b) && v != Need
    ensures b != [] && Length(v) <= |b| && b[..Length(v)] == Bytes(fm, PieceOf(b, v))
  {
    if v.Whole? {
      WholeIsEncoding(fm, b);
    }
  }

  lemma {:induction false} RestIsNeeded<B>(fm: Format<B>, b: seq<B>)
    ensures VerdictOf(fm, Drain(fm, b).rest) == Need
    decreases |b|
  {
    var v := VerdictOf(fm, b);
    if v != Need {
      LengthFits(fm, b);
      RestIsNeeded(fm, b[Length(v)..]);
    }
  }

  lemma PutBack<T>(head: seq<T>, flat: seq<T>, rest: seq<T>, b: seq<T>, n: nat)
    requires n <= |b| && b[..n] == head && flat + rest == b[n..]
    ensures (head + flat) + rest == b
  {
    Regroup(head, flat, rest);
    assert b == b[..n] + b[n..];
  }

  /** Nothing is lost: discarded bytes, frames and leftover are the stream again. */
  lemma {:induction false} Conserved<B(!new)>(fm: Format<B>, b: seq<B>)
    requires Lawful(fm)
    ensures Flat(fm, Drain(fm, b).pieces) + Drain(fm, b).rest == b
    decreases |b|
  {
    var v := VerdictOf(fm, b);
    if v != Need {
      HeadIsBytes(fm, b, v);
      var n, p := Length(v), PieceOf(b, v);
      var d := Drain(fm, b[n..]);
      Conserved(fm, b[n..]);
      FlatCons(fm, p, d.pieces);
      PutBack(Bytes(fm, p), Flat(fm, d.pieces), d.rest, b, n);
    }
  }

  lemma Regroup<T>(a: seq<T>, b: seq<T>, c: seq<T>)
    ensures a + b + c == a + (b + c)
  {
  }

  function Joined<B>(a: Drained<B>, b: Drained<B>): Drained<B>
  {
    Drained(a.pieces + b.pieces, b.rest)
  }

  /** Decoding what has arrived and then the rest is decoding it all at once. */
  lemma {:induction false} DrainOn<B>(fm: Format<B>, b: seq<B>, x: seq<B>)
    ensures Drain(fm, b + x) == Joined(Drain(fm, b), Drain(fm, Drain(fm, b).rest + x))
    decreases |b|
  {
    var v := VerdictOf(fm, b);
    if v == Need {
      assert [] + Drain(fm, b + x).pieces == Drain(fm, b + x).pieces;
    } else {
      VerdictStable(fm, b, x);
      LengthFits(fm, b);
      var n := Length(v);
      var d := Drain(fm, b[n..]);
      assert (b + x)[n..] == b[n..] + x;
      DrainOn(fm, b[n..], x);
      Regroup([PieceOf(b, v)], d.pieces, Drain(fm, d.rest + x).pieces);
    }
  }

  function Concat<B>(chunks: seq<seq<B>>): seq<B>
  {
    if chunks == [] then [] else Concat(chunks[..|chunks| - 1]) + chunks[|chunks| - 1]
  }

  /** The decoder fed chunk by chunk. */
  function Fed<B(==)>(fm: Format<B>, chunks: seq<seq<B>>): Drained<B>
  {
    if chunks == [] then Drained([], [])
    else
      var d := Fed(fm, chunks[..|chunks| - 1]);
      Joined(d, Drain(fm, d.rest + chunks[|chunks| - 1]))
  }

  /** How the stream is cut up makes no difference: the same frames, discards and leftover. */
  lemma {:induction false} ChunkingIsInvisible<B>(fm: Format<B>, chunks: seq<seq<B>>)
    ensures Fed(fm, chunks) == Drain(fm, Concat(chunks))
  {
    if chunks != [] {
      var front, x := chunks[..|chunks| - 1], chunks[|chunks| - 1];
      ChunkingIsInvisible(fm, front);
      DrainOn(fm, Concat(front), x);
    }
  }

  // ---------------------------------------------------------------- resynchronisation

  lemma LongIsDecided<B>(fm: Format<B>, b: seq<B>)
    requires |b| >= OVERHEAD + MAX_PAYLOAD
    ensures VerdictOf(fm, b) != Need
  {
  }

  /** No frame with a good seal starts before `k` and reaches past it. */
  ghost predicate Unobstructed<B>(fm: Format<B>, b: seq<B>, k: nat)
    requires k <= |b|
  {
    forall j :: 0 <= j < k && VerdictOf(fm, b[j..]).Whole? ==> j + Length(VerdictOf(fm, b[j..])) <= k
  }

  lemma UnobstructedTail<B>(fm: Format<B>, b: seq<B>, k: nat, n: nat)
    requires n <= k <= |b| && Unobstructed(fm, b, k)
    ensures Unobstructed(fm, b[n..], k - n)
  {
    forall j | 0 <= j < k - n && VerdictOf(fm, b[n..][j..]).Whole?
      ensures j + Length(VerdictOf(fm, b[n..][j..])) <= k - n
    {
      assert b[n..][j..] == b[n + j..];
    }
  }

  lemma RecoversHere<B(!new)>(fm: Format<B>, b: seq<B>, f: Frame<B>)
    requires Lawful(fm) && |f.payload| <= MAX_PAYLOAD && Encoding(fm, f) <= b
    ensures VerdictOf(fm, b) == Whole(f)
  {
    var e := Encoding(fm, f);
    EncodingIsWhole(fm, f, b[|e|..]);
    assert b == e + b[|e|..];
  }

  /** One more piece in front. */
  lemma RecoversLater<B(!new)>(fm: Format<B>, b: seq<B>, k: nat, v: Verdict<B>, rest: seq<Piece<B>>, g: Piece<B>)
    requires Lawful(fm) && v == VerdictOf(fm, b) && v != Need && Length(v) <= k <= |b|
    requires rest + [g] <= Drain(fm, b[Length(v)..]).pieces && Flat(fm, rest) == b[Length(v)..][..k - Length(v)]
    ensures b != [] && [PieceOf(b, v)] + rest + [g] <= Drain(fm, b).pieces
    ensures Flat(fm, [PieceOf(b, v)] + rest) == b[..k]
  {
    HeadIsBytes(fm, b, v);
    FlatCons(fm, PieceOf(b, v), rest);
    Regroup([PieceOf(b, v)], rest, [g]);
    assert b[..k] == b[..Length(v)] + b[Length(v)..][..k - Length(v)];
  }

  /**
   Resynchronisation always recovers: once the stream reaches a maximum frame past offset `k`, a
   whole frame lying there is delivered, and everything before it is accounted for, unless a
   frame with a good seal starts earlier and overlaps it.
   */
  lemma {:induction false} Recovers<B(!new)>(fm: Format<B>, b: seq<B>, k: nat, f: Frame<B>) returns (front: seq<Piece<B>>)
    requires Lawful(fm) && |f.payload| <= MAX_PAYLOAD && k + OVERHEAD + MAX_PAYLOAD <= |b|
    requires Encoding(fm, f) <= b[k..] && Unobstructed(fm, b, k)
    ensures front + [Good(f)] <= Drain(fm, b).pieces && Flat(fm, front) == b[..k]
    decreases k
  {
    assert b[0..] == b;
    if k == 0 {
      front := [];
      RecoversHere(fm, b, f);
    } else {
      var v := VerdictOf(fm, b);
      LongIsDecided(fm, b);
      var n := Length(v);
      assert n <= k;
      UnobstructedTail(fm, b, k, n);
      assert b[n..][k - n..] == b[k..];
      var rest := Recovers(fm, b[n..], k - n, f);
      RecoversLater(fm, b, k, v, rest, Good(f));
      front := [PieceOf(b, v)] + rest;
    }
  }

  function Altered<B>(s: seq<B>, k: nat, y: B): seq<B>
  {
    if k < |s| then s[k := y] else s
  }

  /** A seal that notices any one changed byte. */
  ghost predicate Sensitive<B(!new)>(fm: Format<B>)
  {
    forall s, k, y :: 0 <= k < |s| && s[k] != y ==> fm.seal(Altered(s, k, y)) != fm.seal(s)
  }

  /** A frame damaged in one byte of its type, payload or seal is never delivered at its own offset. */
  lemma DamagedIsTorn<B(!new)>(fm: Format<B>, f: Frame<B>, i: nat, y: B, x: seq<B>)
    requires Lawful(fm) && Sensitive(fm) && |f.payload| <= MAX_PAYLOAD
    requires (i == 4 || HEADER <= i) && i < |Encoding(fm, f)| && Encoding(fm, f)[i] != y
    ensures VerdictOf(fm, Encoding(fm, f)[i := y] + x) == Drop(Torn)
  {
    var n := |f.payload|;
    var c, e := Covered(fm, f), Encoding(fm, f);
    EncodingIsWhole(fm, f, []);
    assert |fm.putLength(n)| == 4 && |fm.seal(c)| == 4;
    var b := e[i := y] + x;
    assert b[..4] == fm.magic;
    assert b[5..9] == c[1..5] == fm.putLength(n);
    if i < HEADER + n {
      assert e[i] == c[i - 4];
      assert b[4..HEADER + n] == Altered(c, i - 4, y);
      assert b[HEADER + n..OVERHEAD + n] == fm.seal(c);
    } else {
      assert b[4..HEADER + n] == c;
      assert b[HEADER + n..OVERHEAD + n][i - HEADER - n] == y;
      assert fm.seal(c)[i - HEADER - n] == e[i];
    }
  }
}
