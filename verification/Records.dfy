/**
 The line and record formats of the device's flash files
 (firmware/chaski/components/store/fsutil.cpp).
 */
module Records {
  import opened Basics

  // ---------------------------------------------------------------- lines

  /** The first position of `c`, or the length when it does not occur. */
  function Find(s: string, c: char): (k: nat)
    ensures k <= |s|
    ensures forall i :: 0 <= i < k ==> s[i] != c
    ensures k < |s| ==> s[k] == c
  {
    if s == [] || s[0] == c then 0 else 1 + Find(s[1..], c)
  }

  lemma FindIs(s: string, c: char, k: nat)
    requires k < |s| && s[k] == c && forall i :: 0 <= i < k ==> s[i] != c
    ensures Find(s, c) == k
  {
  }

  predicate NoNewline(s: string)
  {
    forall i :: 0 <= i < |s| ==> s[i] != '\n'
  }

  /** The lines that are complete; a last one without its newline is a torn write and is not there. */
  function Lines(text: string): (r: seq<string>)
    ensures forall i :: 0 <= i < |r| ==> NoNewline(r[i])
  {
    if text == "" then []
    else
      var front := text[..|text| - 1];
      if text[|text| - 1] == '\n' then Lines(front) + [Tail(front)] else Lines(front)
  }

  /** What is left behind the last newline. */
  function Tail(text: string): (t: string)
    ensures NoNewline(t)
  {
    if text == "" || text[|text| - 1] == '\n' then ""
    else Tail(text[..|text| - 1]) + [text[|text| - 1]]
  }

  function Joined(lines: seq<string>): string
  {
    if lines == [] then "" else Joined(lines[..|lines| - 1]) + lines[|lines| - 1] + "\n"
  }

  /** Nothing but the torn tail is left out. */
  lemma {:induction false} LinesAndTail(text: string)
    ensures text == Joined(Lines(text)) + Tail(text)
  {
    if text != "" {
      var front, last := text[..|text| - 1], text[|text| - 1];
      LinesAndTail(front);
      var joined, torn := Joined(Lines(front)), Tail(front);
      assert text == front + [last];
      if last == '\n' {
        assert (Lines(front) + [torn])[..|Lines(front)|] == Lines(front);
        assert Joined(Lines(text)) == joined + torn + "\n";
      } else {
        assert joined + (torn + [last]) == joined + torn + [last];
      }
    }
  }

  /** More text after a first part: its torn tail is completed by what follows. */
  lemma {:induction false} LinesOfSum(a: string, b: string)
    ensures Lines(a + b) == Lines(a) + Lines(Tail(a) + b)
    ensures Tail(a + b) == Tail(Tail(a) + b)
  {
    if b == "" {
      assert a + b == a && Tail(a) + b == Tail(a);
      NoNewlineNoLines(Tail(a));
    } else {
      var front := b[..|b| - 1];
      LinesOfSum(a, front);
      assert (a + b)[..|a + b| - 1] == a + front;
      assert (Tail(a) + b)[..|Tail(a) + b| - 1] == Tail(a) + front;
    }
  }

  lemma {:induction false} NoNewlineNoLines(s: string)
    requires NoNewline(s)
    ensures Lines(s) == [] && Tail(s) == s
  {
    if s != "" {
      NoNewlineNoLines(s[..|s| - 1]);
    }
  }

  lemma EndLine(text: string)
    ensures Lines(text + "\n") == Lines(text) + [Tail(text)] && Tail(text + "\n") == ""
  {
    assert (text + "\n")[..|text|] == text;
  }

  lemma GrowTail(text: string, more: string)
    requires NoNewline(more)
    ensures Lines(text + more) == Lines(text) && Tail(text + more) == Tail(text) + more
  {
    LinesOfSum(text, more);
    NoNewlineNoLines(Tail(text) + more);
  }

  /** Appending a line merges it with whatever a torn write left behind. */
  lemma AppendLine(text: string, line: string)
    requires NoNewline(line)
    ensures Lines(text + line + "\n") == Lines(text) + [Tail(text) + line]
    ensures Tail(text + line + "\n") == ""
  {
    GrowTail(text, line);
    EndLine(text + line);
  }

  /** One complete line in front. */
  lemma LinesCons(line: string, rest: string)
    requires NoNewline(line)
    ensures Lines(line + "\n" + rest) == [line] + Lines(rest) && Tail(line + "\n" + rest) == Tail(rest)
  {
    AppendLine("", line);
    assert "" + line + "\n" == line + "\n";
    LinesOfSum(line + "\n", rest);
    assert "" + rest == rest && "" + line == line;
  }

  /** fsutil.cpp:258-268. */
  method SplitCompleteLines(text: string) returns (lines: seq<string>)
    ensures lines == Lines(text)
  {
    lines := [];
    var start := 0;
    while true
      invariant 0 <= start <= |text|
      invariant lines == Lines(text[..start]) && Tail(text[..start]) == ""
      decreases |text| - start
    {
      var nl := start + Find(text[start..], '\n');
      if nl == |text| {
        assert text == text[..start] + text[start..];
        GrowTail(text[..start], text[start..]);
        break;
      }
      var line := text[start..nl];
      assert text[..nl + 1] == text[..start] + line + "\n";
      AppendLine(text[..start], line);
      assert "" + line == line;
      lines := lines + [line];
      start := nl + 1;
    }
  }

  // ---------------------------------------------------------------- escaping

  function EscapeChar(c: char): string
  {
    if c == '\\' then "\\\\" else if c == '\n' then "\\n" else if c == '\r' then "\\r" else [c]
  }

  function Escape(v: string): (r: string)
    ensures NoNewline(r)
  {
    if v == "" then "" else EscapeChar(v[0]) + Escape(v[1..])
  }

  /** The decoder's inner loop: a backslash takes the next character with it, if there is one. */
  function Unescape(s: string): string
  {
    if s == "" then ""
    else if s[0] != '\\' || |s| == 1 then [s[0]] + Unescape(s[1..])
    else [if s[1] == 'n' then '\n' else if s[1] == 'r' then '\r' else s[1]] + Unescape(s[2..])
  }

  lemma UnescapeHead(c: char, rest: string)
    ensures Unescape(EscapeChar(c) + rest) == [c] + Unescape(rest)
  {
    var s := EscapeChar(c) + rest;
    if |EscapeChar(c)| == 1 {
      assert s[1..] == rest;
    } else {
      assert s[2..] == rest;
    }
  }

  lemma {:induction false} UnescapeEscape(v: string)
    ensures Unescape(Escape(v)) == v
  {
    if v != "" {
      UnescapeEscape(v[1..]);
      UnescapeHead(v[0], Escape(v[1..]));
    }
  }

  lemma {:induction false} EscapePush(v: string, c: char)
    ensures Escape(v + [c]) == Escape(v) + EscapeChar(c)
  {
    if v == "" {
      assert v + [c] == [c] && [c][1..] == "";
    } else {
      EscapePush(v[1..], c);
      assert (v + [c])[1..] == v[1..] + [c];
    }
  }

  /** The value half of a pair (fsutil.cpp:182-189). */
  method EscapeValue(value: string) returns (out: string)
    ensures out == Escape(value)
  {
    out := "";
    for j := 0 to |value|
      invariant out == Escape(value[..j])
    {
      assert value[..j + 1] == value[..j] + [value[j]];
      EscapePush(value[..j], value[j]);
      out := out + EscapeChar(value[j]);
    }
    assert value[..|value|] == value;
  }

  // ---------------------------------------------------------------- records

  datatype Pair = Pair(key: string, value: string)
  type Record = seq<Pair>

  function PairLine(p: Pair): string
  {
    p.key + "=" + Escape(p.value)
  }

  function Encode(r: Record): string
  {
    if r == [] then "" else PairLine(r[0]) + "\n" + Encode(r[1..])
  }

  /** A line without '=' is not a pair and is ignored. */
  function DecodeLine(line: string): Record
  {
    var eq := Find(line, '=');
    if eq == |line| then [] else [Pair(line[..eq], Unescape(line[eq + 1..]))]
  }

  function DecodeLines(lines: seq<string>): Record
  {
    if lines == [] then [] else DecodeLine(lines[0]) + DecodeLines(lines[1..])
  }

  function Decode(text: string): Record
  {
    DecodeLines(Lines(text))
  }

  predicate CleanKey(k: string)
  {
    forall i :: 0 <= i < |k| ==> k[i] != '=' && k[i] != '\n'
  }

  predicate CleanKeys(r: Record)
  {
    forall i :: 0 <= i < |r| ==> CleanKey(r[i].key)
  }

  lemma {:induction false} EncodePush(r: Record, p: Pair)
    ensures Encode(r + [p]) == Encode(r) + PairLine(p) + "\n"
  {
    if r == [] {
      assert r + [p] == [p] && [p][1..] == [];
    } else {
      EncodePush(r[1..], p);
      assert (r + [p])[1..] == r[1..] + [p];
      var head, mid, end := PairLine(r[0]) + "\n", Encode(r[1..]), PairLine(p);
      assert head + (mid + end + "\n") == (head + mid) + end + "\n";
    }
  }

  /** fsutil.cpp:177-193. */
  method EncodeRecord(r: Record) returns (out: string)
    ensures out == Encode(r)
  {
    out := "";
    for i := 0 to |r|
      invariant out == Encode(r[..i])
    {
      assert r[..i + 1] == r[..i] + [r[i]];
      EncodePush(r[..i], r[i]);
      var value := EscapeValue(r[i].value);
      out := out + (r[i].key + "=" + value) + "\n";
    }
    assert r[..|r|] == r;
  }

  /** How many characters the decoder's loop takes in one turn, and what it adds. */
  function Turn(line: string, i: nat): (r: (nat, char))
    requires i < |line|
    ensures 1 <= r.0 <= |line| - i
    ensures Unescape(line[i..]) == [r.1] + Unescape(line[i + r.0..])
  {
    assert line[i..][1..] == line[i + 1..];
    if line[i] != '\\' || i + 1 >= |line| then (1, line[i])
    else
      assert line[i..][2..] == line[i + 2..];
      (2, if line[i + 1] == 'n' then '\n' else if line[i + 1] == 'r' then '\r' else line[i + 1])
  }

  /** The value of one line, character by character (fsutil.cpp:201-212). */
  method UnescapeValue(line: string, from: nat) returns (value: string)
    requires from <= |line|
    ensures value == Unescape(line[from..])
  {
    value := "";
    var i := from;
    while i < |line|
      invariant from <= i <= |line|
      invariant Unescape(line[from..]) == value + Unescape(line[i..])
    {
      ghost var rest := Unescape(line[i + Turn(line, i).0..]);
      assert value + ([Turn(line, i).1] + rest) == (value + [Turn(line, i).1]) + rest;
      if line[i] != '\\' || i + 1 >= |line| {
        value := value + [line[i]];
        i := i + 1;
      } else {
        i := i + 1;
        value := value + [if line[i] == 'n' then '\n' else if line[i] == 'r' then '\r' else line[i]];
        i := i + 1;
      }
    }
  }

  lemma {:induction false} DecodeLinesPush(lines: seq<string>, line: string)
    ensures DecodeLines(lines + [line]) == DecodeLines(lines) + DecodeLine(line)
  {
    if lines != [] {
      DecodeLinesPush(lines[1..], line);
      assert (lines + [line])[1..] == lines[1..] + [line];
    }
  }

  method DecodePair(line: string) returns (r: Record)
    ensures r == DecodeLine(line)
  {
    var eq := Find(line, '=');
    if eq == |line| {
      return [];
    }
    var value := UnescapeValue(line, eq + 1);
    return [Pair(line[..eq], value)];
  }

  /** fsutil.cpp:195-216. */
  method DecodeRecord(text: string) returns (r: Record)
    ensures r == Decode(text)
  {
    var lines := SplitCompleteLines(text);
    r := [];
    for i := 0 to |lines|
      invariant r == DecodeLines(lines[..i])
    {
      assert lines[..i + 1] == lines[..i] + [lines[i]];
      DecodeLinesPush(lines[..i], lines[i]);
      var pair := DecodePair(lines[i]);
      r := r + pair;
    }
    assert lines[..|lines|] == lines;
  }

  lemma {:induction false} EncodedLines(r: Record)
    requires CleanKeys(r)
    ensures |Lines(Encode(r))| == |r| && Tail(Encode(r)) == ""
    ensures forall i :: 0 <= i < |r| ==> Lines(Encode(r))[i] == PairLine(r[i])
  {
    if r != [] {
      EncodedLines(r[1..]);
      LinesCons(PairLine(r[0]), Encode(r[1..]));
    }
  }

  lemma DecodePairLine(p: Pair)
    requires CleanKey(p.key)
    ensures DecodeLine(PairLine(p)) == [p]
  {
    var line := PairLine(p);
    FindIs(line, '=', |p.key|);
    assert line[..|p.key|] == p.key && line[|p.key| + 1..] == Escape(p.value);
    UnescapeEscape(p.value);
  }

  /** Whole lines of an encoded record decode to the pairs they came from. */
  lemma {:induction false} DecodeSomeLines(r: Record, lines: seq<string>)
    requires CleanKeys(r) && |lines| <= |r|
    requires forall i :: 0 <= i < |lines| ==> lines[i] == PairLine(r[i])
    ensures DecodeLines(lines) == r[..|lines|]
  {
    if lines != [] {
      DecodePairLine(r[0]);
      var rest, more := r[1..], lines[1..];
      assert forall i :: 0 <= i < |more| ==> more[i] == lines[i + 1] && rest[i] == r[i + 1];
      DecodeSomeLines(rest, more);
      assert r[..|lines|] == [r[0]] + r[1..][..|lines| - 1];
    }
  }

  lemma {:induction false} DecodedKeysClean(lines: seq<string>)
    requires forall i :: 0 <= i < |lines| ==> NoNewline(lines[i])
    ensures CleanKeys(DecodeLines(lines))
  {
    if lines != [] {
      DecodedKeysClean(lines[1..]);
    }
  }

  /** Decoding undoes encoding, whatever the values hold, exactly when no key has '=' or a newline. */
  lemma RoundTripIffCleanKeys(r: Record)
    ensures Decode(Encode(r)) == r <==> CleanKeys(r)
  {
    if CleanKeys(r) {
      EncodedLines(r);
      DecodeSomeLines(r, Lines(Encode(r)));
      assert r[..|r|] == r;
    }
    DecodedKeysClean(Lines(Encode(r)));
  }

  lemma LinesOfPrefix(text: string, n: nat)
    requires n <= |text|
    ensures Lines(text[..n]) <= Lines(text)
  {
    assert text == text[..n] + text[n..];
    LinesOfSum(text[..n], text[n..]);
  }

  /** A file cut short anywhere still decodes, to a prefix of the record. */
  lemma PrefixDecodesToPrefix(r: Record, n: nat)
    requires CleanKeys(r) && n <= |Encode(r)|
    ensures Decode(Encode(r)[..n]) <= r
  {
    EncodedLines(r);
    LinesOfPrefix(Encode(r), n);
    DecodeSomeLines(r, Lines(Encode(r)[..n]));
  }

  // ---------------------------------------------------------------- values

  /** The first pair of a key decides (fsutil.cpp:218-223). */
  function Get(r: Record, key: string): Option<string>
  {
    if r == [] then None else if r[0].key == key then Some(r[0].value) else Get(r[1..], key)
  }

  function Bit(b: bool): string
  {
    if b then "1" else "0"
  }
}
