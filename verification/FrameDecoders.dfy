/**
 The two decoders as code: the device's (frame.cpp, Decoder) and the host's (frame.go, FrameReader).
 Both are shown to do what the reference decoder does, one frame at a time.
 */
module FrameDecoders {
  import opened Basics
  import opened Framing

  predicate AllJunk<B>(ps: seq<Piece<B>>)
  {
    forall i :: 0 <= i < |ps| ==> ps[i].Junk?
  }

  /**
   One call over buffer `b`: bytes are skipped up to the first frame, which is delivered and taken
   off; without a frame, only what cannot be decided yet is kept.
   */
  ghost predicate NextIs<B(!new)>(fm: Format<B>, b: seq<B>, skipped: seq<Piece<B>>, r: Option<Frame<B>>, b': seq<B>)
  {
    && AllJunk(skipped)
    && Drain(fm, b).rest == Drain(fm, b').rest
    && match r
       case Some(f) => Drain(fm, b).pieces == skipped + [Good(f)] + Drain(fm, b').pieces
       case None => Drain(fm, b).pieces == skipped && b' == Drain(fm, b).rest
  }

  /** Two decoders that both do this agree on everything. */
  lemma DecodersAgree<B(!new)>(fm: Format<B>, b: seq<B>, s1: seq<Piece<B>>, r1: Option<Frame<B>>, b1: seq<B>,
                               s2: seq<Piece<B>>, r2: Option<Frame<B>>, b2: seq<B>)
    requires Lawful(fm) && NextIs(fm, b, s1, r1, b1) && NextIs(fm, b, s2, r2, b2)
    ensures s1 == s2 && r1 == r2 && b1 == b2
  {
    FirstGood(Drain(fm, b).pieces, s1, r1, s2, r2);
    if r1.Some? {
      var ps := Drain(fm, b).pieces;
      assert ps[|s1| + 1..] == Drain(fm, b1).pieces;
      assert ps[|s2| + 1..] == Drain(fm, b2).pieces;
      Conserved(fm, b1);
      Conserved(fm, b2);
    }
  }

  predicate Opens<B(==)>(ps: seq<Piece<B>>, skipped: seq<Piece<B>>, r: Option<Frame<B>>)
  {
    match r case Some(f) => skipped + [Good(f)] <= ps case None => ps == skipped
  }

  lemma FirstGood<B>(ps: seq<Piece<B>>, s1: seq<Piece<B>>, r1: Option<Frame<B>>, s2: seq<Piece<B>>, r2: Option<Frame<B>>)
    requires AllJunk(s1) && AllJunk(s2) && Opens(ps, s1, r1) && Opens(ps, s2, r2)
    ensures s1 == s2 && r1 == r2
  {
    assert forall i :: 0 <= i < |s1| ==> ps[i] == s1[i];
    assert forall i :: 0 <= i < |s2| ==> ps[i] == s2[i];
    if r1.Some? {
      assert ps[|s1|] == (s1 + [Good(r1.value)])[|s1|];
    }
    if r2.Some? {
      assert ps[|s2|] == (s2 + [Good(r2.value)])[|s2|];
    }
    assert s1 == ps[..|s1|] && s2 == ps[..|s2|];
  }

  // ---------------------------------------------------------------- what is counted

  /** Bytes are discarded a run of noise at a time, and one at a time where a candidate failed. */
  function Resyncs<B>(ps: seq<Piece<B>>): (n: nat)
  {
    if ps == [] then 0
    else
      var front, p := ps[..|ps| - 1], ps[|ps| - 1];
      Resyncs(front) + (if p.Good? || (p.why == Noise && EndsInNoise(front)) then 0 else 1)
  }

  predicate EndsInNoise<B>(ps: seq<Piece<B>>)
  {
    ps != [] && ps[|ps| - 1].Junk? && ps[|ps| - 1].why == Noise
  }

  function TornIn<B>(ps: seq<Piece<B>>): (n: nat)
  {
    if ps == [] then 0
    else TornIn(ps[..|ps| - 1]) + if ps[|ps| - 1].Junk? && ps[|ps| - 1].why == Torn then 1 else 0
  }

  function NoiseOf<B>(s: seq<B>): (ps: seq<Piece<B>>)
    ensures |ps| == |s|
  {
    if s == [] then [] else NoiseOf(s[..|s| - 1]) + [Junk(s[|s| - 1], Noise)]
  }

  /** One more byte discarded. */
  lemma JunkFacts<B>(fm: Format<B>, ps: seq<Piece<B>>, x: B, why: Why)
    requires AllJunk(ps)
    ensures var all := ps + [Junk(x, why)];
            && AllJunk(all) && (EndsInNoise(all) <==> why == Noise)
            && Resyncs(all) == Resyncs(ps) + (if why == Noise && EndsInNoise(ps) then 0 else 1)
            && TornIn(all) == TornIn(ps) + (if why == Torn then 1 else 0)
            && Flat(fm, all) == Flat(fm, ps) + [x]
  {
    var all := ps + [Junk(x, why)];
    assert all[..|all| - 1] == ps;
    FlatOn(fm, ps, [Junk(x, why)]);
    OneByte(fm, x, why);
  }

  /** A run of noise discarded at once. */
  lemma {:induction false} NoiseFacts<B>(ps: seq<Piece<B>>, s: seq<B>)
    requires AllJunk(ps) && !EndsInNoise(ps)
    ensures var all := ps + NoiseOf(s);
            && AllJunk(all) && (EndsInNoise(all) <==> s != [])
            && Resyncs(all) == Resyncs(ps) + (if s == [] then 0 else 1)
            && TornIn(all) == TornIn(ps)
  {
    if s == [] {
      assert ps + NoiseOf(s) == ps;
    } else {
      var front, x := s[..|s| - 1], s[|s| - 1];
      NoiseFacts(ps, front);
      var before := ps + NoiseOf(front);
      NoisePush(before, x);
      Regroup(ps, NoiseOf(front), [Junk(x, Noise)]);
    }
  }

  lemma NoisePush<B>(before: seq<Piece<B>>, x: B)
    requires AllJunk(before)
    ensures var all := before + [Junk(x, Noise)];
            && AllJunk(all) && EndsInNoise(all) && TornIn(all) == TornIn(before)
            && Resyncs(all) == Resyncs(before) + if EndsInNoise(before) then 0 else 1
  {
    var all := before + [Junk(x, Noise)];
    assert all[..|all| - 1] == before;
  }

  lemma {:induction false} NoiseFlat<B>(fm: Format<B>, ps: seq<Piece<B>>, s: seq<B>)
    ensures Flat(fm, ps + NoiseOf(s)) == Flat(fm, ps) + s
  {
    FlatOn(fm, ps, NoiseOf(s));
    NoiseIsBytes(fm, s);
  }

  lemma {:induction false} NoiseIsBytes<B>(fm: Format<B>, s: seq<B>)
    ensures Flat(fm, NoiseOf(s)) == s
  {
    if s != [] {
      var front, x := s[..|s| - 1], s[|s| - 1];
      NoiseIsBytes(fm, front);
      JunkFlat(fm, NoiseOf(front), x, Noise);
      assert s == front + [x];
    }
  }

  lemma JunkFlat<B>(fm: Format<B>, ps: seq<Piece<B>>, x: B, why: Why)
    ensures Flat(fm, ps + [Junk(x, why)]) == Flat(fm, ps) + [x]
  {
    FlatOn(fm, ps, [Junk(x, why)]);
    OneByte(fm, x, why);
  }

  lemma OneByte<B>(fm: Format<B>, x: B, why: Why)
    ensures Flat(fm, [Junk(x, why)]) == [x]
  {
    assert [Junk(x, why)][1..] == [];
  }

  // ---------------------------------------------------------------- noise

  predicate MagicAt<B(==)>(fm: Format<B>, b: seq<B>, i: nat)
  {
    i + 4 <= |b| && b[i..i + 4] == fm.magic
  }

  /** Bytes before the first magic are noise, one and all. */
  lemma {:induction false} NoiseRun<B>(fm: Format<B>, b: seq<B>, n: nat)
    requires n + 3 <= |b| && forall k :: 0 <= k < n ==> !MagicAt(fm, b, k)
    ensures Drain(fm, b) == Joined(Drained(NoiseOf(b[..n]), []), Drain(fm, b[n..]))
    decreases n
  {
    if n == 0 {
      assert b[0..] == b && [] + Drain(fm, b).pieces == Drain(fm, b).pieces;
    } else {
      NoiseRun(fm, b, n - 1);
      NoiseHead(fm, b, n - 1);
      assert b[..n][..n - 1] == b[..n - 1];
      Regroup(NoiseOf(b[..n - 1]), [Junk(b[n - 1], Noise)], Drain(fm, b[n..]).pieces);
    }
  }

  lemma NoiseHead<B>(fm: Format<B>, b: seq<B>, k: nat)
    requires k + 4 <= |b| && !MagicAt(fm, b, k)
    ensures Drain(fm, b[k..]) == Joined(Drained([Junk(b[k], Noise)], []), Drain(fm, b[k + 1..]))
  {
    var tail := b[k..];
    assert tail[..4] == b[k..k + 4];
    assert tail[1..] == b[k + 1..];
  }

  /** frame.cpp:83-89 and frame.go:220-227. */
  method FindMagic<B(==)>(fm: Format<B>, b: seq<B>) returns (start: Option<nat>)
    requires |fm.magic| == 4
    ensures start.Some? ==> MagicAt(fm, b, start.value) && forall k :: 0 <= k < start.value ==> !MagicAt(fm, b, k)
    ensures start.None? ==> forall k :: 0 <= k < |b| - 3 ==> !MagicAt(fm, b, k)
  {
    var i := 0;
    while i + 4 <= |b|
      invariant forall k :: 0 <= k < i ==> !MagicAt(fm, b, k)
    {
      if b[i..i + 4] == fm.magic {
        return Some(i);
      }
      i := i + 1;
    }
    return None;
  }

  // ---------------------------------------------------------------- progress of one call

  /** What one call has skipped so far leaves exactly the rest to do. */
  ghost predicate Skipped<B>(fm: Format<B>, b0: seq<B>, skipped: seq<Piece<B>>, b: seq<B>)
  {
    && AllJunk(skipped)
    && Drain(fm, b0) == Joined(Drained(skipped, []), Drain(fm, b))
  }

  lemma SkipStart<B>(fm: Format<B>, b: seq<B>)
    ensures Skipped(fm, b, [], b)
  {
    assert [] + Drain(fm, b).pieces == Drain(fm, b).pieces;
  }

  lemma SkipNoise<B>(fm: Format<B>, b0: seq<B>, skipped: seq<Piece<B>>, b: seq<B>, n: nat)
    requires Skipped(fm, b0, skipped, b) && !EndsInNoise(skipped)
    requires n + 3 <= |b| && forall k :: 0 <= k < n ==> !MagicAt(fm, b, k)
    ensures Skipped(fm, b0, skipped + NoiseOf(b[..n]), b[n..])
  {
    NoiseRun(fm, b, n);
    NoiseFacts(skipped, b[..n]);
    Regroup(skipped, NoiseOf(b[..n]), Drain(fm, b[n..]).pieces);
  }

  lemma SkipFailed<B>(fm: Format<B>, b0: seq<B>, skipped: seq<Piece<B>>, b: seq<B>, why: Why)
    requires Skipped(fm, b0, skipped, b) && VerdictOf(fm, b) == Drop(why)
    ensures b != [] && Skipped(fm, b0, skipped + [Junk(b[0], why)], b[1..])
  {
    LengthFits(fm, b);
    JunkFacts(fm, skipped, b[0], why);
    Regroup(skipped, [Junk(b[0], why)], Drain(fm, b[1..]).pieces);
  }

  lemma EndsWithNeed<B(!new)>(fm: Format<B>, b0: seq<B>, skipped: seq<Piece<B>>, b: seq<B>)
    requires Skipped(fm, b0, skipped, b) && VerdictOf(fm, b) == Need
    ensures NextIs(fm, b0, skipped, None, b)
  {
    assert skipped + [] == skipped;
  }

  lemma EndsWithFrame<B(!new)>(fm: Format<B>, b0: seq<B>, skipped: seq<Piece<B>>, b: seq<B>, f: Frame<B>)
    requires Skipped(fm, b0, skipped, b) && VerdictOf(fm, b) == Whole(f)
    ensures OVERHEAD + |f.payload| <= |b| && NextIs(fm, b0, skipped, Some(f), b[OVERHEAD + |f.payload|..])
  {
    LengthFits(fm, b);
    var rest := b[OVERHEAD + |f.payload|..];
    Regroup(skipped, [Good(f)], Drain(fm, rest).pieces);
  }

  // ---------------------------------------------------------------- whole streams

  /** The frames among some pieces, in order. */
  function FramesOf<B>(ps: seq<Piece<B>>): (r: seq<Frame<B>>)
  {
    if ps == [] then []
    else FramesOf(ps[..|ps| - 1]) + if ps[|ps| - 1].Good? then [ps[|ps| - 1].frame] else []
  }

  /** The bytes thrown away among some pieces, in order. */
  function Discarded<B>(ps: seq<Piece<B>>): (r: seq<B>)
  {
    if ps == [] then []
    else Discarded(ps[..|ps| - 1]) + if ps[|ps| - 1].Junk? then [ps[|ps| - 1].byte] else []
  }

  lemma {:induction false} FramesOfJunk<B>(ps: seq<Piece<B>>, junk: seq<Piece<B>>)
    requires AllJunk(junk)
    ensures FramesOf(ps + junk) == FramesOf(ps)
  {
    if junk == [] {
      assert ps + junk == ps;
    } else {
      var front := junk[..|junk| - 1];
      FramesOfJunk(ps, front);
      assert (ps + junk)[..|ps + junk| - 1] == ps + front;
    }
  }

  lemma FramesPush<B>(ps: seq<Piece<B>>, f: Frame<B>)
    ensures FramesOf(ps + [Good(f)]) == FramesOf(ps) + [f]
    ensures Discarded(ps + [Good(f)]) == Discarded(ps)
    ensures TornIn(ps + [Good(f)]) == TornIn(ps)
  {
    assert (ps + [Good(f)])[..|ps|] == ps;
  }

  lemma {:induction false} DiscardedJunk<B>(fm: Format<B>, ps: seq<Piece<B>>, junk: seq<Piece<B>>)
    requires AllJunk(junk)
    ensures Discarded(ps + junk) == Discarded(ps) + Flat(fm, junk)
    ensures TornIn(ps + junk) == TornIn(ps) + TornIn(junk)
  {
    if junk == [] {
      assert ps + junk == ps;
    } else {
      var front, last := junk[..|junk| - 1], junk[|junk| - 1];
      DiscardedJunk(fm, ps, front);
      assert (ps + junk)[..|ps + junk| - 1] == ps + front;
      assert junk == front + [last];
      JunkFlat(fm, front, last.byte, last.why);
      Regroup(Discarded(ps), Flat(fm, front), [last.byte]);
    }
  }

  /** What a decoder has taken off a stream so far leaves exactly its buffer to do. */
  ghost predicate Progress<B>(fm: Format<B>, stream: seq<B>, pieces: seq<Piece<B>>, b: seq<B>)
  {
    Drain(fm, stream) == Joined(Drained(pieces, []), Drain(fm, b))
  }

  lemma ProgressStart<B>(fm: Format<B>)
    ensures Progress(fm, [], [], [])
  {
  }

  /** More bytes arrive. */
  lemma ProgressGrows<B>(fm: Format<B>, stream: seq<B>, pieces: seq<Piece<B>>, b: seq<B>, x: seq<B>)
    requires Progress(fm, stream, pieces, b)
    ensures Progress(fm, stream + x, pieces, b + x)
  {
    DrainOn(fm, stream, x);
    DrainOn(fm, b, x);
    Regroup(pieces, Drain(fm, b).pieces, Drain(fm, Drain(fm, b).rest + x).pieces);
  }

  /** What one call takes off. */
  function Taken<B>(skipped: seq<Piece<B>>, r: Option<Frame<B>>): seq<Piece<B>>
  {
    if r.Some? then skipped + [Good(r.value)] else skipped
  }

  lemma ProgressByCall<B(!new)>(fm: Format<B>, stream: seq<B>, pieces: seq<Piece<B>>, b: seq<B>,
                                skipped: seq<Piece<B>>, r: Option<Frame<B>>, b': seq<B>)
    requires Progress(fm, stream, pieces, b) && NextIs(fm, b, skipped, r, b')
    ensures Progress(fm, stream, pieces + Taken(skipped, r), b')
    ensures r.None? ==> Drain(fm, stream) == Drained(pieces + skipped, b')
  {
    if r.Some? {
      Regroup(pieces, Taken(skipped, r), Drain(fm, b').pieces);
    } else {
      NeedStays(fm, b);
      assert pieces + skipped + [] == pieces + skipped;
    }
  }

  /** The leftover is decided by nothing but bytes still to come. */
  lemma NeedStays<B>(fm: Format<B>, b: seq<B>)
    ensures Drain(fm, Drain(fm, b).rest) == Drained([], Drain(fm, b).rest)
  {
    RestIsNeeded(fm, b);
  }

  lemma FramesByCall<B>(fm: Format<B>, pieces: seq<Piece<B>>, skipped: seq<Piece<B>>, r: Option<Frame<B>>)
    requires AllJunk(skipped)
    ensures FramesOf(pieces + Taken(skipped, r)) == FramesOf(pieces) + if r.Some? then [r.value] else []
    ensures Discarded(pieces + Taken(skipped, r)) == Discarded(pieces) + Flat(fm, skipped)
    ensures TornIn(pieces + Taken(skipped, r)) == TornIn(pieces) + TornIn(skipped)
  {
    FramesOfJunk(pieces, skipped);
    DiscardedJunk(fm, pieces, skipped);
    if r.Some? {
      FramesPush(pieces + skipped, r.value);
      Regroup(pieces, skipped, [Good(r.value)]);
    }
  }

  lemma CallShrinks<B(!new)>(fm: Format<B>, b: seq<B>, skipped: seq<Piece<B>>, r: Option<Frame<B>>, b': seq<B>)
    requires Lawful(fm) && NextIs(fm, b, skipped, r, b') && r.Some?
    ensures |Drain(fm, b').pieces| < |Drain(fm, b).pieces|
  {
  }

  lemma ConcatPush<B>(chunks: seq<seq<B>>, n: nat)
    requires n < |chunks|
    ensures Concat(chunks[..n + 1]) == Concat(chunks[..n]) + chunks[n]
  {
    assert chunks[..n + 1][..n] == chunks[..n];
  }

  // ---------------------------------------------------------------- the device's decoder

  class Decoder<B(==, !new)> {
    const fm: Format<B>
    var buf: seq<B>
    var resyncs: nat

    constructor (fm: Format<B>)
      requires Lawful(fm)
      ensures this.fm == fm && buf == [] && resyncs == 0
    {
      this.fm := fm;
      buf := [];
      resyncs := 0;
    }

    /** frame.cpp:68-71. */
    method Append(data: seq<B>)
      modifies this`buf
      ensures buf == old(buf) + data
    {
      buf := buf + data;
    }

    /** buf_.erase and ++resyncs_, for a run of noise. */
    method DropRun(ghost b0: seq<B>, ghost skipped: seq<Piece<B>>, n: nat) returns (ghost now: seq<Piece<B>>)
      requires Skipped(fm, b0, skipped, buf) && !EndsInNoise(skipped)
      requires 0 < n && n + 3 <= |buf| && forall k :: 0 <= k < n ==> !MagicAt(fm, buf, k)
      modifies this`buf, this`resyncs
      ensures Skipped(fm, b0, now, buf) && resyncs - old(resyncs) == Resyncs(now) - Resyncs(skipped)
      ensures buf == old(buf)[n..]
    {
      SkipNoise(fm, b0, skipped, buf, n);
      NoiseFacts(skipped, buf[..n]);
      now := skipped + NoiseOf(buf[..n]);
      buf := buf[n..];
      resyncs := resyncs + 1;
    }

    /** frame.cpp:83-101: drop what precedes a candidate; false when there is none. */
    method DropNoise(ghost b0: seq<B>, ghost skipped: seq<Piece<B>>) returns (found: bool, ghost now: seq<Piece<B>>)
      requires Lawful(fm) && Skipped(fm, b0, skipped, buf) && !EndsInNoise(skipped)
      modifies this`buf, this`resyncs
      ensures Skipped(fm, b0, now, buf) && resyncs - old(resyncs) == Resyncs(now) - Resyncs(skipped)
      ensures |buf| <= |old(buf)|
      ensures found ==> MagicAt(fm, buf, 0)
      ensures !found ==> |buf| < 4
    {
      var start := FindMagic(fm, buf);
      now := skipped;
      if start.None? {
        if |buf| > 3 {
          now := DropRun(b0, skipped, |buf| - 3);
        }
        return false, now;
      }
      var i := start.value;
      if i > 0 {
        assert buf[i..][0..4] == buf[i..i + 4];
        now := DropRun(b0, skipped, i);
      }
      return true, now;
    }

    method DropOne(ghost b0: seq<B>, ghost skipped: seq<Piece<B>>, ghost why: Why) returns (ghost now: seq<Piece<B>>)
      requires Skipped(fm, b0, skipped, buf) && VerdictOf(fm, buf) == Drop(why) && why != Noise
      modifies this`buf, this`resyncs
      ensures Skipped(fm, b0, now, buf) && !EndsInNoise(now) && |buf| < |old(buf)|
      ensures resyncs - old(resyncs) == Resyncs(now) - Resyncs(skipped)
    {
      SkipFailed(fm, b0, skipped, buf, why);
      JunkFacts(fm, skipped, buf[0], why);
      now := skipped + [Junk(buf[0], why)];
      buf := buf[1..];
      resyncs := resyncs + 1;
    }

    /** frame.cpp:103-126: the candidate at the head of the buffer. */
    method Judge() returns (v: Verdict<B>)
      requires Lawful(fm) && MagicAt(fm, buf, 0)
      ensures v == VerdictOf(fm, buf)
    {
      if |buf| < HEADER {
        return Need;
      }
      var declared := fm.getLength(buf[5..9]);
      if declared > MAX_PAYLOAD {
        return Drop(BadHeader);
      }
      if |buf| < HEADER + declared + 4 {
        return Need;
      }
      var covered, want := buf[4..4 + 5 + declared], buf[HEADER + declared..HEADER + declared + 4];
      if fm.seal(covered) != want {
        return Drop(Torn);
      }
      return Whole(Frame(buf[4], buf[HEADER..HEADER + declared]));
    }

    /** frame.cpp:78-131. */
    method Next() returns (r: Option<Frame<B>>, ghost skipped: seq<Piece<B>>)
      requires Lawful(fm)
      modifies this`buf, this`resyncs
      ensures NextIs(fm, old(buf), skipped, r, buf) && resyncs == old(resyncs) + Resyncs(skipped)
    {
      skipped := [];
      SkipStart(fm, buf);
      ghost var b0 := buf;
      while true
        invariant Skipped(fm, b0, skipped, buf) && !EndsInNoise(skipped)
        invariant resyncs == old(resyncs) + Resyncs(skipped)
        decreases |buf|
      {
        var found;
        found, skipped := DropNoise(b0, skipped);
        if !found {
          EndsWithNeed(fm, b0, skipped, buf);
          return None, skipped;
        }
        var v := Judge();
        match v {
          case Need =>
            EndsWithNeed(fm, b0, skipped, buf);
            return None, skipped;
          case Drop(why) =>
            skipped := DropOne(b0, skipped, why);
          case Whole(f) =>
            EndsWithFrame(fm, b0, skipped, buf, f);
            buf := buf[OVERHEAD + |f.payload|..];
            return Some(f), skipped;
        }
      }
    }

    /** usbbridge.cpp:52-107: a chunk arrives, and every frame it completes is delivered. */
    method Feed(chunk: seq<B>, ghost stream: seq<B>, ghost pieces: seq<Piece<B>>)
      returns (frames: seq<Frame<B>>, ghost now: seq<Piece<B>>)
      requires Lawful(fm) && Progress(fm, stream, pieces, buf)
      modifies this`buf, this`resyncs
      ensures Drain(fm, stream + chunk) == Drained(now, buf) && Progress(fm, stream + chunk, now, buf)
      ensures FramesOf(now) == FramesOf(pieces) + frames
    {
      Append(chunk);
      ProgressGrows(fm, stream, pieces, old(buf), chunk);
      frames, now := [], pieces;
      while true
        invariant Progress(fm, stream + chunk, now, buf)
        invariant FramesOf(now) == FramesOf(pieces) + frames
        decreases |Drain(fm, buf).pieces|
      {
        ghost var before, was := buf, now;
        var f;
        ghost var skipped;
        f, skipped := Next();
        ProgressByCall(fm, stream + chunk, was, before, skipped, f, buf);
        FramesByCall(fm, was, skipped, f);
        now := was + Taken(skipped, f);
        if f.None? {
          return;
        }
        CallShrinks(fm, before, skipped, f, buf);
        Regroup(FramesOf(pieces), frames, [f.value]);
        frames := frames + [f.value];
      }
    }

    /** However a stream is cut into chunks, the frames and the leftover are those of the whole stream. */
    method FeedAll(chunks: seq<seq<B>>) returns (frames: seq<Frame<B>>, ghost pieces: seq<Piece<B>>)
      requires Lawful(fm) && buf == []
      modifies this`buf, this`resyncs
      ensures Drain(fm, Concat(chunks)) == Drained(pieces, buf) && frames == FramesOf(pieces)
    {
      frames, pieces := [], [];
      ProgressStart(fm);
      for n := 0 to |chunks|
        invariant Drain(fm, Concat(chunks[..n])) == Drained(pieces, buf)
        invariant Progress(fm, Concat(chunks[..n]), pieces, buf)
        invariant frames == FramesOf(pieces)
      {
        ConcatPush(chunks, n);
        var more;
        more, pieces := Feed(chunks[n], Concat(chunks[..n]), pieces);
        frames := frames + more;
      }
      assert chunks[..|chunks|] == chunks;
    }
  }

  // ---------------------------------------------------------------- the host's reader

  /** What a call of Next comes back with: a frame, the end of the source, or a read that brought nothing. */
  datatype Delivery<B> = Delivered(frame: Frame<B>) | Closed | Stalled

  class FrameReader<B(==, !new)> {
    const fm: Format<B>
    var src: seq<seq<B>>   // the reads to come; the source fails after the last
    var buf: seq<B>
    var console: seq<B>    // what was written to Console
    var resyncs: nat
    var torn: nat

    constructor (fm: Format<B>, src: seq<seq<B>>)
      requires Lawful(fm)
      ensures this.fm == fm && this.src == src && buf == [] && console == [] && resyncs == 0 && torn == 0
    {
      this.fm := fm;
      this.src := src;
      buf, console, resyncs, torn := [], [], 0, 0;
    }

    /** frame.go:207-218: drop leading bytes, forwarding them to Console. */
    method Discard(n: nat)
      requires n <= |buf|
      modifies this`buf, this`console, this`resyncs
      ensures buf == old(buf)[n..] && console == old(console) + old(buf)[..n]
      ensures resyncs == old(resyncs) + if n == 0 then 0 else 1
    {
      if n == 0 {
        assert buf[0..] == buf && console + buf[..0] == console;
        return;
      }
      console := console + buf[..n];
      buf := buf[n..];
      resyncs := resyncs + 1;
    }

    /** What has been skipped since `b0`, and what it did to the counts and to Console. */
    ghost predicate Tally(b0: seq<B>, skipped: seq<Piece<B>>, console0: seq<B>, resyncs0: nat, torn0: nat)
      reads this
    {
      && Skipped(fm, b0, skipped, buf)
      && console == console0 + Flat(fm, skipped)
      && resyncs == resyncs0 + Resyncs(skipped) && torn == torn0 + TornIn(skipped)
    }

    method DiscardRun(ghost b0: seq<B>, ghost skipped: seq<Piece<B>>, ghost c0: seq<B>, ghost r0: nat, ghost t0: nat, n: nat)
      returns (ghost now: seq<Piece<B>>)
      requires Tally(b0, skipped, c0, r0, t0) && !EndsInNoise(skipped)
      requires 0 < n && n + 3 <= |buf| && forall k :: 0 <= k < n ==> !MagicAt(fm, buf, k)
      modifies this`buf, this`console, this`resyncs
      ensures Tally(b0, now, c0, r0, t0) && buf == old(buf)[n..]
    {
      SkipNoise(fm, b0, skipped, buf, n);
      NoiseFacts(skipped, buf[..n]);
      NoiseFlat(fm, skipped, buf[..n]);
      Regroup(c0, Flat(fm, skipped), buf[..n]);
      now := skipped + NoiseOf(buf[..n]);
      Discard(n);
    }

    /** frame.go:158-169. */
    method DiscardNoise(ghost b0: seq<B>, ghost skipped: seq<Piece<B>>, ghost c0: seq<B>, ghost r0: nat, ghost t0: nat)
      returns (found: bool, ghost now: seq<Piece<B>>)
      requires Lawful(fm) && Tally(b0, skipped, c0, r0, t0) && !EndsInNoise(skipped)
      modifies this`buf, this`console, this`resyncs
      ensures Tally(b0, now, c0, r0, t0) && |buf| <= |old(buf)|
      ensures found ==> MagicAt(fm, buf, 0)
      ensures !found ==> |buf| < 4
    {
      var start := FindMagic(fm, buf);
      now := skipped;
      if start.None? {
        if |buf| > 3 {
          now := DiscardRun(b0, skipped, c0, r0, t0, |buf| - 3);
        }
        return false, now;
      }
      var i := start.value;
      if i > 0 {
        assert buf[i..][0..4] == buf[i..i + 4];
        now := DiscardRun(b0, skipped, c0, r0, t0, i);
      }
      return true, now;
    }

    method DiscardOne(ghost b0: seq<B>, ghost skipped: seq<Piece<B>>, ghost c0: seq<B>, ghost r0: nat, ghost t0: nat, why: Why)
      returns (ghost now: seq<Piece<B>>)
      requires Tally(b0, skipped, c0, r0, t0) && VerdictOf(fm, buf) == Drop(why) && why != Noise
      modifies this`buf, this`console, this`resyncs, this`torn
      ensures Tally(b0, now, c0, r0, t0) && !EndsInNoise(now) && |buf| < |old(buf)|
    {
      SkipFailed(fm, b0, skipped, buf, why);
      JunkFacts(fm, skipped, buf[0], why);
      Regroup(c0, Flat(fm, skipped), [buf[0]]);
      assert buf[..1] == [buf[0]];
      now := skipped + [Junk(buf[0], why)];
      if why == Torn {
        torn := torn + 1;
      }
      Discard(1);
    }

    /** frame.go:170-200: the candidate at the head of the buffer. */
    method Weigh() returns (v: Verdict<B>)
      requires Lawful(fm) && MagicAt(fm, buf, 0)
      ensures v == VerdictOf(fm, buf)
    {
      if |buf| < HEADER {
        return Need;
      }
      var declared := fm.getLength(buf[5..9]);
      if declared > MAX_PAYLOAD {
        return Drop(BadHeader);
      }
      var total := HEADER + declared + 4;
      if |buf| < total {
        return Need;
      }
      if fm.seal(buf[4..HEADER + declared]) != buf[HEADER + declared..total] {
        return Drop(Torn);
      }
      return Whole(Frame(buf[4], buf[HEADER..HEADER + declared]));
    }

    /** frame.go:156-204. */
    method Scan() returns (r: Option<Frame<B>>, ghost skipped: seq<Piece<B>>)
      requires Lawful(fm)
      modifies this`buf, this`console, this`resyncs, this`torn
      ensures NextIs(fm, old(buf), skipped, r, buf)
      ensures console == old(console) + Flat(fm, skipped)
      ensures resyncs == old(resyncs) + Resyncs(skipped) && torn == old(torn) + TornIn(skipped)
    {
      skipped := [];
      SkipStart(fm, buf);
      assert console + [] == console;
      ghost var b0, c0, r0, t0 := buf, console, resyncs, torn;
      while true
        invariant Tally(b0, skipped, c0, r0, t0) && !EndsInNoise(skipped)
        decreases |buf|
      {
        var found;
        found, skipped := DiscardNoise(b0, skipped, c0, r0, t0);
        if !found {
          EndsWithNeed(fm, b0, skipped, buf);
          return None, skipped;
        }
        var v := Weigh();
        match v {
          case Need =>
            EndsWithNeed(fm, b0, skipped, buf);
            return None, skipped;
          case Drop(why) =>
            skipped := DiscardOne(b0, skipped, c0, r0, t0, why);
          case Whole(f) =>
            EndsWithFrame(fm, b0, skipped, buf, f);
            buf := buf[OVERHEAD + |f.payload|..];
            return Some(f), skipped;
        }
      }
    }

    /** What has been read of `chunks`, and what became of it: pieces, Console, the torn count, the buffer. */
    ghost predicate HasRead(chunks: seq<seq<B>>, n: nat, pieces: seq<Piece<B>>)
      reads this
    {
      && n <= |chunks| && src == chunks[n..]
      && Progress(fm, Concat(chunks[..n]), pieces, buf)
      && console == Discarded(pieces) && torn == TornIn(pieces)
    }

    /** One scan of the buffer. */
    method Pull(ghost chunks: seq<seq<B>>, ghost n: nat, ghost pieces: seq<Piece<B>>)
      returns (f: Option<Frame<B>>, ghost now: seq<Piece<B>>)
      requires Lawful(fm) && HasRead(chunks, n, pieces)
      modifies this`buf, this`console, this`resyncs, this`torn
      ensures HasRead(chunks, n, now) && FramesOf(now) == FramesOf(pieces) + if f.Some? then [f.value] else []
      ensures |now| >= |pieces| + if f.Some? then 1 else 0
      ensures f.None? ==> Drain(fm, Concat(chunks[..n])) == Drained(now, buf)
    {
      ghost var skipped;
      ghost var before := buf;
      f, skipped := Scan();
      ProgressByCall(fm, Concat(chunks[..n]), pieces, before, skipped, f, buf);
      FramesByCall(fm, pieces, skipped, f);
      now := pieces + Taken(skipped, f);
    }

    /** One read of the source, its bytes behind those in the buffer. */
    method Read(ghost chunks: seq<seq<B>>, ghost n: nat, ghost pieces: seq<Piece<B>>) returns (bytes: nat)
      requires HasRead(chunks, n, pieces) && src != []
      modifies this`src, this`buf
      ensures HasRead(chunks, n + 1, pieces) && |src| < |old(src)| && bytes == |chunks[n]|
      ensures bytes == 0 ==> buf == old(buf) && Concat(chunks[..n + 1]) == Concat(chunks[..n])
    {
      assert src[0] == chunks[n] && src[1..] == chunks[n + 1..];
      ConcatPush(chunks, n);
      ProgressGrows(fm, Concat(chunks[..n]), pieces, buf, src[0]);
      bytes := |src[0]|;
      buf := buf + src[0];
      src := src[1..];
    }

    /** frame.go:134-152: scan, and read more until a frame is whole or the source ends. */
    method Next(ghost chunks: seq<seq<B>>, ghost n: nat, ghost pieces: seq<Piece<B>>)
      returns (d: Delivery<B>, ghost m: nat, ghost now: seq<Piece<B>>)
      requires Lawful(fm) && HasRead(chunks, n, pieces)
      modifies this
      ensures n <= m && HasRead(chunks, m, now)
      ensures FramesOf(now) == FramesOf(pieces) + if d.Delivered? then [d.frame] else []
      ensures d.Delivered? ==> |now| > |pieces|
      ensures !d.Delivered? ==> Drain(fm, Concat(chunks[..m])) == Drained(now, buf)
      ensures d.Closed? ==> m == |chunks|
      ensures d.Stalled? ==> [] in chunks
    {
      m, now := n, pieces;
      while true
        invariant n <= m && HasRead(chunks, m, now) && FramesOf(now) == FramesOf(pieces) && |now| >= |pieces|
        decreases |src|
      {
        ghost var was := now;
        var f;
        f, now := Pull(chunks, m, was);
        if f.Some? {
          return Delivered(f.value), m, now;
        }
        if src == [] {
          return Closed, m, now;
        }
        var bytes := Read(chunks, m, now);
        m := m + 1;
        if bytes == 0 {
          assert Concat(chunks[..m]) == Concat(chunks[..m - 1]);
          return Stalled, m, now;
        }
      }
    }

    /**
     The bridge's loop over Next. Unless a read stalls, the whole source has been read, and however
     it was cut up, the frames, Console, the torn count and the leftover are those of the whole stream.
     */
    method ReadAll() returns (frames: seq<Frame<B>>, closed: bool, ghost pieces: seq<Piece<B>>)
      requires Lawful(fm) && buf == [] && console == [] && torn == 0
      modifies this
      ensures closed || [] in old(src)
      ensures closed ==> Drain(fm, Concat(old(src))) == Drained(pieces, buf)
      ensures frames == FramesOf(pieces) && console == Discarded(pieces) && torn == TornIn(pieces)
    {
      ghost var chunks, n := src, 0;
      frames, pieces := [], [];
      ProgressStart(fm);
      assert Concat(chunks[..0]) == [];
      while true
        invariant HasRead(chunks, n, pieces) && frames == FramesOf(pieces)
        decreases |Drain(fm, Concat(chunks)).pieces| - |pieces|
      {
        var d;
        ghost var was := pieces;
        d, n, pieces := Next(chunks, n, was);
        TakenInAll(fm, chunks, n, pieces, buf);
        if !d.Delivered? {
          assert d.Closed? ==> chunks[..n] == chunks;
          return frames, d.Closed?, pieces;
        }
        frames := frames + [d.frame];
      }
    }
  }

  /** Pieces already taken are among those of the whole stream. */
  lemma {:induction false} TakenInAll<B>(fm: Format<B>, chunks: seq<seq<B>>, n: nat, pieces: seq<Piece<B>>, b: seq<B>)
    requires n <= |chunks| && Progress(fm, Concat(chunks[..n]), pieces, b)
    ensures |pieces| <= |Drain(fm, Concat(chunks)).pieces|
    decreases |chunks| - n
  {
    if n == |chunks| {
      assert chunks[..n] == chunks;
    } else {
      ConcatPush(chunks, n);
      ProgressGrows(fm, Concat(chunks[..n]), pieces, b, chunks[n]);
      TakenInAll(fm, chunks, n + 1, pieces, b + chunks[n]);
    }
  }

  // ---------------------------------------------------------------- both on one stream

  /**
   The device and the host read the same bytes, each in its own chunks: the same frames, the same
   leftover; and the host's Console holds exactly the bytes that are in no frame and not left over.
   */
  method BothDecode<B(==, !new)>(fm: Format<B>, device: seq<seq<B>>, host: seq<seq<B>>)
    returns (atDevice: seq<Frame<B>>, atHost: seq<Frame<B>>, left: seq<B>, leftAtHost: seq<B>, console: seq<B>, torn: nat)
    requires Lawful(fm) && Concat(device) == Concat(host) && [] !in host
    ensures atDevice == atHost && left == leftAtHost
    ensures atDevice == FramesOf(Drain(fm, Concat(device)).pieces) && left == Drain(fm, Concat(device)).rest
    ensures console == Discarded(Drain(fm, Concat(device)).pieces) && torn == TornIn(Drain(fm, Concat(device)).pieces)
  {
    var decoder := new Decoder<B>(fm);
    var reader := new FrameReader<B>(fm, host);
    ghost var pieces;
    atDevice, pieces := decoder.FeedAll(device);
    var closed;
    atHost, closed, pieces := reader.ReadAll();
    left, leftAtHost, console, torn := decoder.buf, reader.buf, reader.console, reader.torn;
  }
}
