/**
 Comparing addresses (internal/ayllu/store.go, normalizeAddress).
 */
module Addresses {
  import opened Basics

  // ---------------------------------------------------------------- addresses

  /** unicode.IsSpace. */
  predicate IsSpace(c: char)
  {
    var n := c as int;
    9 <= n <= 13 || n == 0x20 || n == 0x85 || n == 0xA0 || n == 0x1680 || 0x2000 <= n <= 0x200a
    || n == 0x2028 || n == 0x2029 || n == 0x202f || n == 0x205f || n == 0x3000
  }

  function TrimLeft(s: string): (r: string)
    ensures r != "" ==> !IsSpace(r[0])
  {
    if s != "" && IsSpace(s[0]) then TrimLeft(s[1..]) else s
  }

  function TrimRight(s: string): (r: string)
    ensures r != "" ==> !IsSpace(r[|r| - 1])
    ensures r <= s
  {
    if s != "" && IsSpace(s[|s| - 1]) then TrimRight(s[..|s| - 1]) else s
  }

  /** strings.TrimSpace. */
  function Trim(s: string): (r: string)
    ensures r != "" ==> !IsSpace(r[0]) && !IsSpace(r[|r| - 1])
  {
    TrimRight(TrimLeft(s))
  }

  lemma TrimTwice(s: string)
    ensures Trim(Trim(s)) == Trim(s)
  {
  }

  /** The position behind the last `c`, or none. */
  function LastIndex(s: string, c: char): (r: Option<nat>)
    ensures r.Some? ==> r.value < |s| && s[r.value] == c
  {
    if s == "" then None else if s[|s| - 1] == c then Some(|s| - 1) else LastIndex(s[..|s| - 1], c)
  }

  function FirstIndex(s: string, c: char): (r: Option<nat>)
    ensures r.Some? ==> r.value < |s| && s[r.value] == c
  {
    if s == "" then None
    else if s[0] == c then Some(0)
    else match FirstIndex(s[1..], c) case Some(i) => Some(i + 1) case None => None
  }

  /** strings.ToLower, for ASCII. */
  function ToLower(s: string): string
  {
    if s == "" then "" else [if 'A' <= s[0] <= 'Z' then s[0] - 'A' + 'a' else s[0]] + ToLower(s[1..])
  }

  /** Unwrap "Name <addr>", trim, lower-case the domain only. */
  function NormalizeTrimmed(a: string): string
  {
    var inner :=
      match LastIndex(a, '<')
      case None => a
      case Some(i) => (match FirstIndex(a[i..], '>') case None => a case Some(j) => if j > 0 then a[i + 1..i + j] else a);
    LowerDomain(Trim(inner))
  }

  /** store.go:626-641. */
  function Normalize(addr: string): string
  {
    NormalizeTrimmed(Trim(addr))
  }

  const SYSTEM_ADDRESS: string := "system@wasi.internal"

  /** An address as written, with the key it is compared by. */
  datatype Address = Address(text: string, key: Name)

  function Read(text: string): (r: Address)
    ensures Proper(r)
  {
    assert text == "" ==> Trim(text) == "";
    Address(text, Name(Normalize(text)))
  }

  const SYS_KEY: Name := Name(SYSTEM_ADDRESS)
  const NO_KEY: Name := Name("")

  /** Only the empty text has to be told apart: it never has a key worth finding. */
  predicate Proper(a: Address)
  {
    a.text == "" ==> a.key == NO_KEY
  }

  /** Trimming an address, as an add and a readdress do, does not change what it is compared by. */
  lemma TrimKeepsKey(text: string)
    ensures Read(Trim(text)).key == Read(text).key
  {
    TrimTwice(text);
  }

  lemma {:induction false} LastIndexIs(s: string, c: char, at: int)
    requires -1 <= at < |s| && (at >= 0 ==> s[at] == c)
    requires forall i :: at < i < |s| ==> s[i] != c
    ensures LastIndex(s, c) == if at < 0 then None else Some(at)
    decreases |s|
  {
    if s != "" && at != |s| - 1 {
      LastIndexIs(s[..|s| - 1], c, at);
    }
  }

  lemma {:induction false} LowerIsKept(s: string)
    requires forall i :: 0 <= i < |s| ==> !('A' <= s[i] <= 'Z')
    ensures ToLower(s) == s
  {
    if s != "" {
      LowerIsKept(s[1..]);
      assert s == [s[0]] + s[1..];
    }
  }

  /** A bare address, already in lower case behind its '@', is compared as it is written. */
  lemma BareIsKept(s: string, at: nat)
    requires 0 < at < |s| && s[at] == '@' && !IsSpace(s[0]) && !IsSpace(s[|s| - 1])
    requires forall i :: 0 <= i < |s| ==> s[i] != '<' && (i > at ==> s[i] != '@' && !('A' <= s[i] <= 'Z'))
    ensures Normalize(s) == s
  {
    assert Trim(s) == s;
    BareIsWhole(s, at);
  }

  lemma BareIsWhole(s: string, at: nat)
    requires at < |s| && s[at] == '@' && Trim(s) == s
    requires forall i :: 0 <= i < |s| ==> s[i] != '<' && (i > at ==> s[i] != '@' && !('A' <= s[i] <= 'Z'))
    ensures NormalizeTrimmed(s) == s
  {
    LastIndexIs(s, '<', -1);
    BareDomain(s, at);
  }

  /** The part of NormalizeTrimmed behind the unwrapping. */
  function LowerDomain(b: string): string
  {
    match LastIndex(b, '@')
    case None => b
    case Some(at) => b[..at] + "@" + ToLower(b[at + 1..])
  }

  lemma BareDomain(s: string, at: nat)
    requires at < |s| && s[at] == '@'
    requires forall i :: at < i < |s| ==> s[i] != '@' && !('A' <= s[i] <= 'Z')
    ensures LowerDomain(s) == s
  {
    LastIndexIs(s, '@', at);
    LowerIsKept(s[at + 1..]);
    assert s == s[..at] + "@" + s[at + 1..];
  }

  /** Wasi's own sender address is compared by the key the table answers for. */
  lemma SystemKey(text: string)
    requires text == SYSTEM_ADDRESS
    ensures Read(text).key == SYS_KEY
  {
    BareIsKept(text, 6);
  }
}
