/**
 Decimal text: how the server and the device print counters, and the two parsers that read
 them back, strict for a doorbell token and lenient for a flash file.
 */
module Decimal {
  import opened Basics

  const MAX_U64: nat := 0xFFFF_FFFF_FFFF_FFFF
  const MAX_I64: nat := 0x7FFF_FFFF_FFFF_FFFF

  predicate IsDigit(c: char)
  {
    '0' <= c <= '9'
  }

  predicate Digits(s: string)
  {
    forall i :: 0 <= i < |s| ==> IsDigit(s[i])
  }

  function DigitValue(c: char): (d: nat)
    requires IsDigit(c)
    ensures d < 10
  {
    (c - '0') as nat
  }

  function DigitChar(d: nat): (c: char)
    requires d < 10
    ensures IsDigit(c) && DigitValue(c) == d
  {
    '0' + d as char
  }

  /** std::to_string and strconv.FormatUint. */
  function ToText(n: nat): (s: string)
    ensures |s| > 0 && Digits(s)
  {
    if n < 10 then [DigitChar(n)] else ToText(n / 10) + [DigitChar(n % 10)]
  }

  function Value(s: string): (n: nat)
    requires Digits(s)
  {
    if s == "" then 0 else Value(s[..|s| - 1]) * 10 + DigitValue(s[|s| - 1])
  }

  /** No sign, no leading zero, no space, not empty. */
  predicate Canonical(s: string)
  {
    |s| > 0 && Digits(s) && (|s| > 1 ==> s[0] != '0')
  }

  lemma {:induction false} ValueOfText(n: nat)
    ensures Value(ToText(n)) == n
    ensures Canonical(ToText(n)) && (n > 0 ==> ToText(n)[0] != '0')
  {
    var s := ToText(n);
    if n < 10 {
      assert s[..0] == "";
      assert Value(s) == Value(s[..0]) * 10 + DigitValue(s[0]);
    } else {
      ValueOfText(n / 10);
      assert s[..|s| - 1] == ToText(n / 10);
      assert s[0] == ToText(n / 10)[0];
    }
  }

  lemma LastDigit(q: nat, d: nat)
    requires d < 10
    ensures (q * 10 + d) / 10 == q && (q * 10 + d) % 10 == d
  {
  }

  /** A canonical text is the one printing of its value. */
  lemma {:induction false} TextOfValue(s: string)
    requires Canonical(s)
    ensures ToText(Value(s)) == s
    ensures |s| > 1 ==> Value(s) > 0
  {
    var front, last := s[..|s| - 1], s[|s| - 1];
    if |s| == 1 {
      assert front == "" && Value(s) == DigitValue(last);
      assert DigitChar(DigitValue(last)) == last;
    } else {
      assert front[0] == s[0];
      TextOfValue(front);
      LeadingDigit(front);
      LastDigit(Value(front), DigitValue(last));
      assert s == front + [last];
      assert DigitChar(DigitValue(last)) == last;
    }
  }

  lemma {:induction false} LeadingDigit(s: string)
    requires Digits(s) && |s| > 0 && s[0] != '0'
    ensures Value(s) > 0
  {
    if |s| > 1 {
      LeadingDigit(s[..|s| - 1]);
    } else {
      assert s[..0] == "" && DigitValue(s[0]) > 0;
    }
  }

  function Pow10(k: nat): (r: nat)
    ensures r > 0
  {
    if k == 0 then 1 else 10 * Pow10(k - 1)
  }

  lemma {:induction false} ValueBound(s: string)
    requires Digits(s)
    ensures Value(s) < Pow10(|s|)
  {
    if s != "" {
      ValueBound(s[..|s| - 1]);
    }
  }

  lemma {:induction false} LongMeansLarge(s: string)
    requires Digits(s) && |s| > 0 && s[0] != '0'
    ensures Value(s) >= Pow10(|s| - 1)
  {
    if |s| > 1 {
      LongMeansLarge(s[..|s| - 1]);
    } else {
      assert s[..0] == "" && DigitValue(s[0]) > 0;
    }
  }

  /** A value never shrinks as digits follow. */
  lemma {:induction false} ValueGrows(s: string, i: nat)
    requires Digits(s) && i <= |s|
    ensures Digits(s[..i]) && Value(s[..i]) <= Value(s)
    decreases |s| - i
  {
    if i == |s| {
      assert s[..i] == s;
    } else {
      ValueGrows(s, i + 1);
      assert s[..i + 1][..i] == s[..i];
    }
  }

  /** Twenty-one canonical digits are past any 64-bit value. */
  lemma TooLong(s: string)
    requires Canonical(s) && |s| > 20
    ensures Value(s) > MAX_U64
  {
    LongMeansLarge(s);
    Pow10Grows(20, |s| - 1);
    TwentyDigits();
  }

  lemma TwentyDigits()
    ensures Pow10(20) == 100_000_000_000_000_000_000
  {
    assert Pow10(2) == 100 && Pow10(4) == 10_000;
    assert Pow10(6) == 1_000_000 && Pow10(8) == 100_000_000;
    assert Pow10(10) == 10_000_000_000 && Pow10(12) == 1_000_000_000_000;
    assert Pow10(14) == 100_000_000_000_000 && Pow10(16) == 10_000_000_000_000_000;
    assert Pow10(18) == 1_000_000_000_000_000_000;
  }

  lemma {:induction false} Pow10Grows(a: nat, b: nat)
    requires a <= b
    ensures Pow10(a) <= Pow10(b)
    decreases b
  {
    if a < b {
      Pow10Grows(a, b - 1);
    }
  }

  // ---------------------------------------------------------------- the strict parser

  const MAX_COUNTER_DIGITS: nat := 20

  /**
   pututu.cpp:41-54. Accepts exactly the canonical decimals of 64-bit values, and reads each as
   its value.
   */
  method ParseCounter(s: string) returns (r: Option<nat>)
    ensures r.Some? <==> Canonical(s) && Value(s) <= MAX_U64
    ensures r.Some? ==> r.value == Value(s)
  {
    if s == "" || |s| > MAX_COUNTER_DIGITS {
      if Canonical(s) {
        TooLong(s);
      }
      return None;
    }
    if |s| > 1 && s[0] == '0' {
      return None;
    }
    var v := 0;
    for i := 0 to |s|
      invariant Digits(s[..i]) && v == Value(s[..i]) <= MAX_U64
    {
      assert s[..i + 1][..i] == s[..i];
      if !IsDigit(s[i]) {
        return None;
      }
      var d := DigitValue(s[i]);
      assert Digits(s[..i + 1]) && Value(s[..i + 1]) == v * 10 + d;
      if v > (MAX_U64 - d) / 10 {
        if Digits(s) {
          ValueGrows(s, i + 1);
        }
        return None;
      }
      v := v * 10 + d;
    }
    assert s[..|s|] == s;
    return Some(v);
  }

  /** Every 64-bit counter the server prints is read back, and nothing else prints like it. */
  lemma CounterRoundTrip(n: nat, s: string)
    requires n <= MAX_U64
    ensures Canonical(ToText(n)) && Value(ToText(n)) == n
    ensures Canonical(s) && Value(s) == n ==> s == ToText(n)
  {
    ValueOfText(n);
    if Canonical(s) {
      TextOfValue(s);
    }
  }

  // ---------------------------------------------------------------- the lenient parser

  /** std::to_string of a signed integer. */
  function SignedText(n: int): (s: string)
  {
    if n < 0 then "-" + ToText(-n) else ToText(n)
  }

  predicate IsSpace(c: char)
  {
    c == ' ' || 9 as char <= c <= 13 as char
  }

  function SkipSpaces(s: string): string
  {
    if s != "" && IsSpace(s[0]) then SkipSpaces(s[1..]) else s
  }

  const NUL: char := 0 as char

  /** What a C string makes of a text: it ends at the first NUL. */
  function UntilNul(s: string): (r: string)
    ensures r <= s && NUL !in r
    ensures NUL !in s ==> r == s
  {
    if s == "" || s[0] == NUL then "" else [s[0]] + UntilNul(s[1..])
  }

  /** strtoll over the text up to any NUL: spaces, one sign, digits, nothing more, and in range. */
  function ParseI64(s: string): (r: Option<int>)
    ensures r.Some? ==> -(MAX_I64 as int) - 1 <= r.value <= MAX_I64
  {
    var t := SkipSpaces(UntilNul(s));
    var negative := t != "" && t[0] == '-';
    var u := if t != "" && (t[0] == '-' || t[0] == '+') then t[1..] else t;
    if u == "" || !Digits(u) then None
    else
      var v := if negative then -(Value(u) as int) else Value(u);
      if -(MAX_I64 as int) - 1 <= v <= MAX_I64 then Some(v) else None
  }

  lemma SignedRoundTrip(n: int)
    requires -(MAX_I64 as int) - 1 <= n <= MAX_I64
    ensures ParseI64(SignedText(n)) == Some(n)
  {
    var s := SignedText(n);
    ValueOfText(if n < 0 then -n else n);
    assert forall i :: 0 <= i < |s| ==> s[i] == '-' || IsDigit(s[i]);
    assert UntilNul(s) == s;
    assert !IsSpace(s[0]) && SkipSpaces(s) == s;
    if n < 0 {
      assert s[1..] == ToText(-n);
    }
  }

  predicate IsInt32(n: int)
  {
    -0x8000_0000 <= n <= 0x7FFF_FFFF
  }

  /** static_cast<int> of a 64-bit value. */
  function Truncated(n: int): (r: int)
    ensures IsInt32(r)
  {
    (n + 0x8000_0000) % 0x1_0000_0000 - 0x8000_0000
  }

  // ---------------------------------------------------------------- padded local ids

  const LOCAL_ID_DIGITS: nat := 16

  function Zeros(n: nat): (s: string)
    ensures |s| == n && Digits(s)
  {
    if n == 0 then "" else "0" + Zeros(n - 1)
  }

  /** store.cpp:47-50. */
  function FormatLocalId(n: nat): (s: string)
    ensures Digits(s)
  {
    var s := ToText(n);
    if |s| >= LOCAL_ID_DIGITS then s else Zeros(LOCAL_ID_DIGITS - |s|) + s
  }

  lemma {:induction false} ValueSkipsZeros(k: nat, s: string)
    requires Digits(s)
    ensures Digits(Zeros(k) + s) && Value(Zeros(k) + s) == Value(s)
    decreases |s|, k
  {
    var t := Zeros(k) + s;
    if s != "" {
      ValueSkipsZeros(k, s[..|s| - 1]);
      assert t[..|t| - 1] == Zeros(k) + s[..|s| - 1];
    } else if k > 0 {
      ValueOfZeros(k);
      assert t == Zeros(k);
    }
  }

  lemma {:induction false} ValueOfZeros(k: nat)
    ensures Value(Zeros(k)) == 0
  {
    if k > 0 {
      ValueOfZeros(k - 1);
      ZerosBack(k);
      assert Zeros(k)[..k - 1] == Zeros(k - 1);
    }
  }

  lemma {:induction false} ZerosBack(k: nat)
    requires k > 0
    ensures Zeros(k) == Zeros(k - 1) + "0"
  {
    if k > 1 {
      ZerosBack(k - 1);
    }
  }

  /** The padded id still says its number, so two numbers never share an id. */
  lemma LocalIdsAreUnique(n: nat, m: nat)
    ensures Value(FormatLocalId(n)) == n
    ensures FormatLocalId(n) == FormatLocalId(m) ==> n == m
  {
    LocalIdValue(n);
    LocalIdValue(m);
  }

  lemma LocalIdValue(n: nat)
    ensures Value(FormatLocalId(n)) == n
  {
    ValueOfText(n);
    if |ToText(n)| < LOCAL_ID_DIGITS {
      ValueSkipsZeros(LOCAL_ID_DIGITS - |ToText(n)|, ToText(n));
    }
  }

  /** The order of std::string. */
  predicate Less(a: string, b: string)
  {
    b != "" && (a == "" || a[0] < b[0] || (a[0] == b[0] && Less(a[1..], b[1..])))
  }

  lemma {:induction false} LessIsValueOrder(a: string, b: string)
    requires |a| == |b| && Digits(a) && Digits(b)
    ensures Less(a, b) <==> Value(a) < Value(b)
  {
    if a != "" {
      LessIsValueOrder(a[1..], b[1..]);
      ValueFront(a);
      ValueFront(b);
      ValueBound(a[1..]);
      ValueBound(b[1..]);
      LeadDecides(DigitValue(a[0]), DigitValue(b[0]), Pow10(|a| - 1), Value(a[1..]), Value(b[1..]));
    }
  }

  lemma LeadDecides(x: nat, y: nat, p: nat, u: nat, v: nat)
    requires u < p && v < p
    ensures x * p + u < y * p + v <==> x < y || (x == y && u < v)
  {
    if x < y {
      assert (x + 1) * p <= y * p;
    } else if y < x {
      assert (y + 1) * p <= x * p;
    }
  }

  lemma ShiftDigits(lead: nat, p: nat, v: nat, last: nat)
    ensures (lead * p + v) * 10 + last == lead * (10 * p) + (v * 10 + last)
  {
  }

  lemma {:induction false} ValueFront(s: string)
    requires Digits(s) && s != ""
    ensures Value(s) == DigitValue(s[0]) * Pow10(|s| - 1) + Value(s[1..])
  {
    if |s| == 1 {
      assert s[..0] == "" && s[1..] == "";
    } else {
      var front, rest := s[..|s| - 1], s[1..];
      ValueFront(front);
      assert rest[..|rest| - 1] == front[1..];
      ShiftDigits(DigitValue(s[0]), Pow10(|front| - 1), Value(front[1..]), DigitValue(s[|s| - 1]));
    }
  }

  lemma {:induction false} LengthOfText(n: nat, k: nat)
    requires k > 0
    ensures |ToText(n)| <= k <==> n < Pow10(k)
    decreases k
  {
    if n < 10 {
      Pow10Grows(1, k);
    } else if k > 1 {
      LengthOfText(n / 10, k - 1);
    } else {
      assert Pow10(1) == 10;
      assert |ToText(n / 10)| > 0;
    }
  }

  /** Sorting a directory by name is sorting letters by age, while ids fit their sixteen digits. */
  lemma LocalIdOrder(n: nat, m: nat)
    requires n < Pow10(LOCAL_ID_DIGITS) && m < Pow10(LOCAL_ID_DIGITS)
    ensures Less(FormatLocalId(n), FormatLocalId(m)) <==> n < m
  {
    LengthOfText(n, LOCAL_ID_DIGITS);
    LengthOfText(m, LOCAL_ID_DIGITS);
    LessIsValueOrder(FormatLocalId(n), FormatLocalId(m));
    LocalIdValue(n);
    LocalIdValue(m);
  }
}
