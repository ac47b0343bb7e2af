/**
 The format the device and the bridge share, and the two payloads that cross it.
 */
module ChaskiFrames {
  import opened Basics
  import opened Crc
  import opened Wire
  import opened Framing

  const MAGIC: bv32 := 0x4348_4B31

  function Seal(covered: seq<Byte>): seq<Byte>
  {
    PutU32(Crc32(covered))
  }

  /** Comparing a word that was read is comparing its four bytes. */
  lemma SameWord(p: seq<Byte>, v: bv32)
    requires |p| == 4
    ensures GetU32(p) == v <==> p == PutU32(v)
  {
    Gather(v);
    Scatter(p);
  }

  /** Lengths written digit by digit to the base 256. */
  function MakeFormat<B>(magic: seq<B>, byte: nat -> B, value: B -> nat, seal: seq<B> -> seq<B>): Format<B>
  {
    Format(magic, n => PutDigits(byte, n), p => if |p| == 4 then GetDigits(value, p) else 0, seal)
  }

  lemma MakeLawful<B(!new)>(magic: seq<B>, byte: nat -> B, value: B -> nat, seal: seq<B> -> seq<B>)
    requires |magic| == 4 && Inverse(value, byte) && forall s :: |seal(s)| == 4
    ensures Lawful(MakeFormat(magic, byte, value, seal))
  {
    forall n: nat | n <= MAX_PAYLOAD
      ensures GetDigits(value, PutDigits(byte, n)) == n
    {
      DigitsRoundTrip(value, byte, n);
    }
    forall p: seq<B> | |p| == 4
      ensures PutDigits(byte, GetDigits(value, p)) == p
    {
      DigitsAreBytes(value, byte, p);
    }
  }

  const CHASKI: Format<Byte> := MakeFormat(PutU32(MAGIC), ToByte, Value, Seal)

  lemma ChaskiIsLawful()
    ensures Lawful(CHASKI)
  {
    BytesAreNumbers();
    MakeLawful(PutU32(MAGIC), ToByte, Value, Seal);
  }

  lemma SealNotices(s: seq<Byte>, k: nat, y: Byte)
    requires k < |s| && s[k] != y
    ensures Seal(Altered(s, k, y)) != Seal(s)
  {
    OneByteChangesCrc(s, k, y);
    Gather(Crc32(s));
    Gather(Crc32(s[k := y]));
  }

  /** Because each step of the checksum is injective, one changed byte always shows. */
  lemma ChaskiIsSensitive()
    ensures Sensitive(CHASKI)
  {
    forall s: seq<Byte>, k, y | 0 <= k < |s| && s[k] != y
      ensures Seal(Altered(s, k, y)) != Seal(s)
    {
      SealNotices(s, k, y);
    }
  }

  /** frame.cpp:52-66 and frame.go:71-81. */
  method Encode(kind: Byte, payload: seq<Byte>, out: seq<Byte>) returns (ok: bool, r: seq<Byte>)
    ensures ok <==> |payload| <= MAX_PAYLOAD
    ensures r == if ok then out + Encoding(CHASKI, Frame(kind, payload)) else out
  {
    if |payload| > MAX_PAYLOAD {
      return false, out;
    }
    var covered := [kind] + PutDigits(ToByte, |payload|) + payload;
    var crc := ComputeCrc32(covered);
    r := out + PutU32(MAGIC);
    r := r + covered;
    r := r + PutU32(crc);
    Trailing(out, PutU32(MAGIC), covered, PutU32(crc));
    ok := true;
  }

  lemma Trailing<T>(a: seq<T>, b: seq<T>, c: seq<T>, d: seq<T>)
    ensures ((a + b) + c) + d == a + (b + c + d)
  {
  }

  /** What Encode wrote is what the decoders deliver, whatever comes after it. */
  lemma FrameRoundTrip(f: Frame<Byte>, x: seq<Byte>)
    requires |f.payload| <= MAX_PAYLOAD
    ensures VerdictOf(CHASKI, Encoding(CHASKI, f) + x) == Whole(f)
  {
    ChaskiIsLawful();
    EncodingIsWhole(CHASKI, f, x);
  }

  /** A frame damaged in one byte of its type, payload or checksum is never delivered where it lies. */
  lemma DamageIsNoticed(f: Frame<Byte>, i: nat, y: Byte, x: seq<Byte>)
    requires |f.payload| <= MAX_PAYLOAD && i < |Encoding(CHASKI, f)| && Encoding(CHASKI, f)[i] != y
    requires i == 4 || HEADER <= i
    ensures VerdictOf(CHASKI, Encoding(CHASKI, f)[i := y] + x) == Drop(Torn)
  {
    ChaskiIsLawful();
    ChaskiIsSensitive();
    DamagedIsTorn(CHASKI, f, i, y, x);
  }

  // ---------------------------------------------------------------- payloads

  /** How a format writes sixteen-bit numbers. */
  datatype Shorts<!B> = Shorts(put: nat -> seq<B>, get: seq<B> -> nat)

  ghost predicate LawfulShorts<B(!new)>(sh: Shorts<B>)
  {
    && (forall n: nat :: n < 0x1_0000 ==> |sh.put(n)| == 2 && sh.get(sh.put(n)) == n)
    && (forall p :: |p| == 2 ==> sh.get(p) < 0x1_0000 && sh.put(sh.get(p)) == p)
  }

  function MakeShorts<B>(byte: nat -> B, value: B -> nat): Shorts<B>
  {
    Shorts(n => PutPair(byte, n), p => if |p| == 2 then GetPair(value, p) else 0)
  }

  lemma MakeShortsLawful<B(!new)>(byte: nat -> B, value: B -> nat)
    requires Inverse(value, byte)
    ensures LawfulShorts(MakeShorts(byte, value))
  {
    forall n: nat | n < 0x1_0000
      ensures GetPair(value, PutPair(byte, n)) == n
    {
      PairRoundTrip(value, byte, n);
    }
    forall p: seq<B> | |p| == 2
      ensures GetPair(value, p) < 0x1_0000 && PutPair(byte, GetPair(value, p)) == p
    {
      PairIsBytes(value, byte, p);
    }
  }

  const CHASKI_SHORTS: Shorts<Byte> := MakeShorts(ToByte, Value)

  lemma ChaskiShortsAreLawful()
    ensures LawfulShorts(CHASKI_SHORTS)
  {
    BytesAreNumbers();
    MakeShortsLawful(ToByte, Value);
  }

  /** Some fixed fields, a length, a text of that length, and the rest. */
  function Layout<B>(fixed: seq<B>, size: seq<B>, text: seq<B>, body: seq<B>): seq<B>
  {
    fixed + size + text + body
  }

  lemma PartsOf<B>(fixed: seq<B>, size: seq<B>, text: seq<B>, body: seq<B>)
    requires |size| == 2
    ensures var b, h := Layout(fixed, size, text, body), |fixed|;
            && |b| == h + 2 + |text| + |body| && b[..h] == fixed && b[h..h + 2] == size
            && b[h + 2..h + 2 + |text|] == text && b[h + 2 + |text|..] == body
  {
  }

  lemma LayoutOf<B>(b: seq<B>, h: nat, n: nat)
    requires h + 2 + n <= |b|
    ensures Layout(b[..h], b[h..h + 2], b[h + 2..h + 2 + n], b[h + 2 + n..]) == b
  {
  }

  /** u16 seq, u16 length, authorization, body. */
  datatype Request<B> = Request(seqNo: nat, authorization: seq<B>, body: seq<B>)

  /** The device's encoders refuse a payload above the cap (frame.cpp:140, 163); the host's have none. */
  predicate Within(max: Option<nat>, n: nat)
  {
    max.Some? ==> n <= max.value
  }

  function EncodeRequest<B>(sh: Shorts<B>, max: Option<nat>, r: Request<B>): (out: Option<seq<B>>)
  {
    if |r.authorization| > 0xFFFF then None
    else
      var b := Layout(sh.put(r.seqNo), sh.put(|r.authorization|), r.authorization, r.body);
      if Within(max, |b|) then Some(b) else None
  }

  function DecodeRequest<B>(sh: Shorts<B>, b: seq<B>): (out: Option<Request<B>>)
  {
    if |b| < 4 then None
    else
      var n := sh.get(b[2..4]);
      if 4 + n > |b| then None else Some(Request(sh.get(b[..2]), b[4..4 + n], b[4 + n..]))
  }

  lemma RequestRoundTrip<B(!new)>(sh: Shorts<B>, max: Option<nat>, r: Request<B>)
    requires LawfulShorts(sh) && r.seqNo < 0x1_0000
    ensures EncodeRequest(sh, max, r).Some? ==> DecodeRequest(sh, EncodeRequest(sh, max, r).value) == Some(r)
  {
    if EncodeRequest(sh, max, r).Some? {
      PartsOf(sh.put(r.seqNo), sh.put(|r.authorization|), r.authorization, r.body);
    }
  }

  /** And only encodings decode: a payload has one reading, and the reading gives it back. */
  lemma RequestIsBytes<B(!new)>(sh: Shorts<B>, max: Option<nat>, b: seq<B>)
    requires LawfulShorts(sh)
    ensures DecodeRequest(sh, b).Some? && Within(max, |b|) ==> EncodeRequest(sh, max, DecodeRequest(sh, b).value) == Some(b)
  {
    if DecodeRequest(sh, b).Some? {
      LayoutOf(b, 2, sh.get(b[2..4]));
    }
  }

  /** u16 seq, u8 outcome, u16 status, u16 length, Retry-After, body. */
  datatype Response<B> = Response(seqNo: nat, outcome: B, status: nat, retryAfter: seq<B>, body: seq<B>)

  function Fixed<B>(sh: Shorts<B>, r: Response<B>): (s: seq<B>)
  {
    sh.put(r.seqNo) + [r.outcome] + sh.put(r.status)
  }

  function EncodeResponse<B>(sh: Shorts<B>, max: Option<nat>, r: Response<B>): (out: Option<seq<B>>)
  {
    if |r.retryAfter| > 0xFFFF then None
    else
      var b := Layout(Fixed(sh, r), sh.put(|r.retryAfter|), r.retryAfter, r.body);
      if Within(max, |b|) then Some(b) else None
  }

  /** `known` is what a reader takes an outcome byte for. */
  function DecodeResponse<B>(sh: Shorts<B>, known: B -> B, b: seq<B>): (out: Option<Response<B>>)
  {
    if |b| < 7 then None
    else
      var n := sh.get(b[5..7]);
      if 7 + n > |b| then None
      else Some(Response(sh.get(b[..2]), known(b[2]), sh.get(b[3..5]), b[7..7 + n], b[7 + n..]))
  }

  /** The round trip gives back everything, and the outcome as the reader knows it. */
  lemma ResponseRoundTrip<B(!new)>(sh: Shorts<B>, max: Option<nat>, known: B -> B, r: Response<B>)
    requires LawfulShorts(sh) && r.seqNo < 0x1_0000 && r.status < 0x1_0000 && EncodeResponse(sh, max, r).Some?
    ensures DecodeResponse(sh, known, EncodeResponse(sh, max, r).value) == Some(r.(outcome := known(r.outcome)))
  {
    var b, f := EncodeResponse(sh, max, r).value, Fixed(sh, r);
    PartsOf(f, sh.put(|r.retryAfter|), r.retryAfter, r.body);
    assert f[..2] == sh.put(r.seqNo) && f[2] == r.outcome && f[3..5] == sh.put(r.status);
    assert b[..2] == b[..5][..2] && b[2] == b[..5][2] && b[3..5] == b[..5][3..5];
  }

  const TRANSPORT_FAIL: Byte := 1
  const TLS_TRUST_FAIL: Byte := 2

  /** frame.cpp:170-176: the device takes an outcome it does not know for "no response arrived". */
  function KnownOutcome(b: Byte): Byte
  {
    if b <= TLS_TRUST_FAIL then b else TRANSPORT_FAIL
  }

  /** frame.go:341: the host keeps the byte. */
  function AnyOutcome(b: Byte): Byte
  {
    b
  }

  /** So the host reads back what it wrote, and the device does exactly for the outcomes it knows. */
  lemma ResponseRoundTripIff(max: Option<nat>, r: Response<Byte>)
    requires r.seqNo < 0x1_0000 && r.status < 0x1_0000 && EncodeResponse(CHASKI_SHORTS, max, r).Some?
    ensures var b := EncodeResponse(CHASKI_SHORTS, max, r).value;
            && DecodeResponse(CHASKI_SHORTS, AnyOutcome, b) == Some(r)
            && (DecodeResponse(CHASKI_SHORTS, KnownOutcome, b) == Some(r) <==> r.outcome <= TLS_TRUST_FAIL)
  {
    ChaskiShortsAreLawful();
    ResponseRoundTrip(CHASKI_SHORTS, max, AnyOutcome, r);
    ResponseRoundTrip(CHASKI_SHORTS, max, KnownOutcome, r);
  }
}
