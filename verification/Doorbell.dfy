/**
 The doorbell: tokens minted from a persistent counter on the server (internal/pututu,
 internal/state/state.go), verified on the device (firmware/chaski/components/pututu/pututu.cpp).
 */
module Doorbell {
  import opened Basics
  import opened Decimal

  const PREFIX: string := "CH1."
  const MAC_CHARS: nat := 16

  // ---------------------------------------------------------------- the token

  predicate NoDot(s: string)
  {
    forall i :: 0 <= i < |s| ==> s[i] != '.'
  }

  /** CH1.<counter>.<mac>: what Token renders, for any mac text of the right shape. */
  predicate IsToken(body: string, counter: nat, mac: string)
  {
    counter <= MAX_U64 && |mac| == MAC_CHARS && NoDot(mac) && body == PREFIX + ToText(counter) + "." + mac
  }

  lemma DigitsHaveNoDot(s: string)
    requires Digits(s)
    ensures NoDot(s)
  {
  }

  /** Where the middle dot of a token must be, and what is on either side. */
  lemma TokenParts(body: string, dot: nat, text: string, mac: string)
    requires NoDot(text) && NoDot(mac) && body == PREFIX + text + "." + mac
    requires 4 <= dot < |body| && body[dot] == '.' && NoDot(body[4..dot])
    ensures dot == 4 + |text| && body[4..dot] == text && body[dot + 1..] == mac && body[..4] == PREFIX
  {
    var at := 4 + |text|;
    assert body[at] == '.' && body[4..at] == text && body[at + 1..] == mac;
    assert forall k :: 4 <= k < at ==> body[k] == text[k - 4];
    assert forall k :: 4 <= k < dot ==> body[k] == body[4..dot][k - 4];
  }

  lemma TokenFromParts(body: string, dot: nat)
    requires 4 <= dot < |body| && body[dot] == '.' && body[..4] == PREFIX
    ensures body == PREFIX + body[4..dot] + "." + body[dot + 1..]
  {
  }

  method FindDot(body: string, from: nat) returns (dot: Option<nat>)
    requires from <= |body|
    ensures dot.Some? ==> from <= dot.value < |body| && body[dot.value] == '.' && NoDot(body[from..dot.value])
    ensures dot.None? ==> NoDot(body[from..])
  {
    for i := from to |body|
      invariant forall k :: from <= k < i ==> body[k] != '.'
    {
      if body[i] == '.' {
        return Some(i);
      }
    }
    return None;
  }

  lemma NotToken(body: string, dot: nat)
    requires 4 <= dot < |body| && body[dot] == '.' && NoDot(body[4..dot]) && body[..4] == PREFIX
    requires |body| - dot - 1 != MAC_CHARS || !NoDot(body[dot + 1..])
             || !Canonical(body[4..dot]) || Value(body[4..dot]) > MAX_U64
    ensures forall c: nat, m: string :: !IsToken(body, c, m)
  {
    forall c: nat, m: string
      ensures !IsToken(body, c, m)
    {
      if IsToken(body, c, m) {
        ValueOfText(c);
        DigitsHaveNoDot(ToText(c));
        TokenParts(body, dot, ToText(c), m);
      }
    }
  }

  /** pututu.cpp:135-145. Exactly the tokens split, each in the one way it was put together. */
  method Split(body: string) returns (r: Option<(nat, string)>)
    ensures forall c: nat, m: string :: IsToken(body, c, m) <==> r == Some((c, m))
  {
    if |body| <= |PREFIX| || body[..|PREFIX|] != PREFIX {
      NoPrefix(body);
      return None;
    }
    var found := FindDot(body, 4);
    if found.None? {
      NoSecondDot(body);
      return None;
    }
    var dot := found.value;
    if |body| - dot - 1 != MAC_CHARS {
      NotToken(body, dot);
      return None;
    }
    var extra := FindDot(body, dot + 1);
    if extra.Some? {
      assert body[dot + 1..][extra.value - dot - 1] == '.';
      NotToken(body, dot);
      return None;
    }
    var counter := ParseCounter(body[4..dot]);
    if counter.None? {
      NotToken(body, dot);
      return None;
    }
    OnlyToken(body, dot, counter.value);
    return Some((counter.value, body[dot + 1..]));
  }

  lemma TokenHead(c: nat, m: string)
    ensures var b := PREFIX + ToText(c) + "." + m; |b| > 4 && b[..4] == PREFIX && !NoDot(b[4..])
  {
    var b := PREFIX + ToText(c) + "." + m;
    assert b[4..][|ToText(c)|] == '.';
  }

  lemma NoPrefix(body: string)
    requires |body| <= 4 || body[..4] != PREFIX
    ensures forall c: nat, m: string :: !IsToken(body, c, m)
  {
    forall c: nat, m: string
      ensures !IsToken(body, c, m)
    {
      TokenHead(c, m);
    }
  }

  lemma NoSecondDot(body: string)
    requires |body| > 4 && NoDot(body[4..])
    ensures forall c: nat, m: string :: !IsToken(body, c, m)
  {
    forall c: nat, m: string
      ensures !IsToken(body, c, m)
    {
      TokenHead(c, m);
    }
  }

  lemma OnlyToken(body: string, dot: nat, counter: nat)
    requires 4 <= dot < |body| && body[dot] == '.' && NoDot(body[4..dot]) && body[..4] == PREFIX
    requires |body| - dot - 1 == MAC_CHARS && NoDot(body[dot + 1..])
    requires Canonical(body[4..dot]) && Value(body[4..dot]) == counter <= MAX_U64
    ensures forall c: nat, m: string :: IsToken(body, c, m) <==> c == counter && m == body[dot + 1..]
  {
    TextOfValue(body[4..dot]);
    TokenFromParts(body, dot);
    forall c: nat, m: string
      ensures IsToken(body, c, m) <==> c == counter && m == body[dot + 1..]
    {
      if IsToken(body, c, m) {
        ValueOfText(c);
        DigitsHaveNoDot(ToText(c));
        TokenParts(body, dot, ToText(c), m);
      }
    }
  }

  // ---------------------------------------------------------------- the device

  const MIN_WAKE_INTERVAL_MS: int := 300000
  const BOOT_QUIET_MS: int := 60000

  datatype Verdict = Accept(counter: nat) | RateLimited | BadFormat | BadMac | NotPersisted | StaleCounter

  /** The counter store is on flash; the last wake is in RAM, or in the RTC memory that a sleep keeps; zero for none yet. */
  datatype Device = Device(highWater: nat, lastWake: int)

  /** pututu.cpp:120-126. */
  predicate Limited(d: Device, now: int)
  {
    now < BOOT_QUIET_MS || (d.lastWake != 0 && (now < d.lastWake || now - d.lastWake < MIN_WAKE_INTERVAL_MS))
  }

  /** What SetHighWater meets: it works, fails, or fails after the write took hold. */
  datatype Write = Works | Fails(effect: bool)

  /** The body is the very token the server renders for this counter. */
  predicate Genuine(mac: nat -> string, body: string, counter: nat)
  {
    IsToken(body, counter, mac(counter))
  }

  /** One message has one reading. */
  lemma TokenIsOneCounter(body: string, c: nat, m: string, c': nat, m': string)
    requires IsToken(body, c, m) && IsToken(body, c', m')
    ensures c == c' && m == m'
  {
    ValueOfText(c);
    ValueOfText(c');
    DigitsHaveNoDot(ToText(c));
    DigitsHaveNoDot(ToText(c'));
    var dot := 4 + |ToText(c)|;
    assert body[dot] == '.' && body[4..dot] == ToText(c);
    TokenParts(body, dot, ToText(c), m);
    TokenParts(body, dot, ToText(c'), m');
  }

  /** Some token the server would render for a counter above, or not above, the mark. */
  ghost predicate Rings(mac: nat -> string, body: string, mark: nat, above: bool)
  {
    exists c: nat :: Genuine(mac, body, c) && (above <==> c > mark)
  }

  /**
   What one message does. Only a genuine token above the high-water mark is accepted, after the
   mark was written; nothing but the limit and a failing flash keeps such a token out; and every
   refusal says why.
   */
  ghost predicate Verifies(mac: nat -> string, d: Device, now: int, body: string, w: Write, v: Verdict, d': Device)
  {
    if Limited(d, now) then v == RateLimited && d' == d
    else
      && d'.lastWake == now && v != RateLimited
      && (v.Accept? <==> w.Works? && Rings(mac, body, d.highWater, true))
      && (v.Accept? ==> Genuine(mac, body, v.counter) && d.highWater < v.counter == d'.highWater)
      && (v.NotPersisted? <==> w.Fails? && Rings(mac, body, d.highWater, true))
      && (v.NotPersisted? && w.effect ==> Genuine(mac, body, d'.highWater) && d.highWater < d'.highWater)
      && (v.StaleCounter? <==> Rings(mac, body, d.highWater, false))
      && (v.BadFormat? <==> forall c: nat, m: string :: !IsToken(body, c, m))
      && (!v.Accept? && !(v.NotPersisted? && w.effect) ==> d'.highWater == d.highWater)
  }

  class Verifier {
    const mac: nat -> string
    var highWater: nat
    var lastWake: int

    constructor (mac: nat -> string, highWater: nat)
      ensures this.mac == mac && View() == Device(highWater, 0)
    {
      this.mac := mac;
      this.highWater := highWater;
      lastWake := 0;
    }

    ghost function View(): Device
      reads this
    {
      Device(highWater, lastWake)
    }

    /** pututu.cpp:65-99. */
    method Verify(now: int, body: string, write: Write) returns (v: Verdict)
      modifies this
      ensures Verifies(mac, old(View()), now, body, write, v, View())
    {
      if Limited(Device(highWater, lastWake), now) {
        return RateLimited;
      }
      lastWake := now;
      var parts := Split(body);
      if parts.None? {
        return BadFormat;
      }
      var (counter, given) := parts.value;
      assert IsToken(body, counter, given);
      if given != mac(counter) {
        return BadMac;
      }
      assert Genuine(mac, body, counter);
      if counter <= highWater {
        return StaleCounter;
      }
      if write.Fails? {
        if write.effect {
          highWater := counter;
        }
        return NotPersisted;
      }
      highWater := counter;
      return Accept(counter);
    }
  }

  // ---------------------------------------------------------------- every run

  /**
   `accepted` and `wakes` are history: every token accepted, and the wakes since the last power
   loss. `rtc` says whether the last wake is kept where a sleep leaves it (pututu.h:73-83).
   */
  datatype State = State(counter: nat, dev: Device, accepted: seq<(string, nat)>, wakes: seq<int>, rtc: bool)

  datatype Step =
    /** state.go:143-146: a new token takes the next value of a 64-bit counter. */
    | Mint(ok: bool)
    /** state.json put back from any backup. */
    | Restore(counter: nat)
    /** state.go:155-159, with the mark the device reported. */
    | Sync(seen: nat, ok: bool)
    /** Any message whatsoever, at any reading of the clock. */
    | Message(now: int, body: string, w: Write, v: Verdict, dev: Device)
    /** A deep sleep: a new Verifier, the clock running on. */
    | Sleep
    /** Power loss: RTC memory is zeroed and the clock starts again. */
    | Reboot

  ghost predicate Enabled(mac: nat -> string, s: State, st: Step)
  {
    match st
    case Restore(c) => c <= MAX_U64
    case Sync(seen, _) => seen <= s.dev.highWater
    case Message(now, body, w, v, d) => Verifies(mac, s.dev, now, body, w, v, d)
    case _ => true
  }

  function Next(counter: nat): nat
  {
    if counter >= MAX_U64 then 0 else counter + 1
  }

  function Healed(counter: nat, seen: nat): nat
  {
    if seen > counter then seen else counter
  }

  ghost function Apply(s: State, st: Step): State
  {
    match st
    case Mint(ok) => if ok then s.(counter := Next(s.counter)) else s
    case Restore(c) => s.(counter := c)
    case Sync(seen, ok) => if ok then s.(counter := Healed(s.counter, seen)) else s
    case Message(now, body, w, v, d) =>
      s.(dev := d,
         accepted := if v.Accept? then s.accepted + [(body, v.counter)] else s.accepted,
         wakes := if v == RateLimited then s.wakes else s.wakes + [now])
    case Sleep => if s.rtc then s else s.(dev := s.dev.(lastWake := 0))
    case Reboot => s.(dev := s.dev.(lastWake := 0), wakes := [])
  }

  ghost predicate Run(mac: nat -> string, s: State, steps: seq<Step>, t: State)
    decreases |steps|
  {
    if steps == [] then s == t else Enabled(mac, s, steps[0]) && Run(mac, Apply(s, steps[0]), steps[1..], t)
  }

  ghost predicate Rising(mac: nat -> string, s: State)
  {
    && (forall i :: 0 <= i < |s.accepted| ==> Genuine(mac, s.accepted[i].0, s.accepted[i].1) && s.accepted[i].1 <= s.dev.highWater)
    && (forall i, j :: 0 <= i < j < |s.accepted| ==> s.accepted[i].1 < s.accepted[j].1)
  }

  ghost predicate Spaced(s: State)
  {
    && s.dev.lastWake == (if s.wakes == [] then 0 else s.wakes[|s.wakes| - 1])
    && (forall i :: 0 <= i < |s.wakes| ==> s.wakes[i] >= BOOT_QUIET_MS)
    && (forall i :: 0 < i < |s.wakes| ==> s.wakes[i] - s.wakes[i - 1] >= MIN_WAKE_INTERVAL_MS)
  }

  lemma MessageRises(mac: nat -> string, s: State, st: Step)
    requires Rising(mac, s) && Enabled(mac, s, st) && st.Message?
    ensures Rising(mac, Apply(s, st))
  {
    var t := Apply(s, st);
    assert s.dev.highWater <= t.dev.highWater;
    if st.v.Accept? {
      var n := |s.accepted|;
      assert t.accepted[..n] == s.accepted && t.accepted[n] == (st.body, st.v.counter);
      forall i, j | 0 <= i < j < |t.accepted|
        ensures t.accepted[i].1 < t.accepted[j].1
      {
        assert t.accepted[i] == s.accepted[i];
      }
    }
  }

  lemma MessageIsSpaced(mac: nat -> string, s: State, st: Step)
    requires Spaced(s) && Enabled(mac, s, st) && st.Message?
    ensures Spaced(Apply(s, st))
  {
  }

  lemma {:induction false} RunRises(mac: nat -> string, s: State, steps: seq<Step>, t: State)
    requires Rising(mac, s) && Run(mac, s, steps, t)
    ensures Rising(mac, t)
    decreases |steps|
  {
    if steps != [] {
      if steps[0].Message? {
        MessageRises(mac, s, steps[0]);
      }
      RunRises(mac, Apply(s, steps[0]), steps[1..], t);
    }
  }

  lemma {:induction false} RunIsSpaced(mac: nat -> string, s: State, steps: seq<Step>, t: State)
    requires Spaced(s) && Run(mac, s, steps, t)
    requires s.rtc || forall i :: 0 <= i < |steps| ==> !steps[i].Sleep?
    ensures Spaced(t)
    decreases |steps|
  {
    if steps != [] {
      if steps[0].Message? {
        MessageIsSpaced(mac, s, steps[0]);
      }
      RunIsSpaced(mac, Apply(s, steps[0]), steps[1..], t);
    }
  }

  /**
   Whatever is sent, replayed, restored or rebooted, no message is accepted twice; and all wakes
   since the last power loss are five minutes apart, across sleeps too when the RTC hooks are set.
   */
  lemma NeverAcceptedTwice(mac: nat -> string, s: State, steps: seq<Step>, t: State)
    requires s.accepted == [] && s.wakes == [] && s.dev.lastWake == 0 && Run(mac, s, steps, t)
    ensures forall i, j :: 0 <= i < j < |t.accepted| ==> t.accepted[i].1 < t.accepted[j].1 && t.accepted[i].0 != t.accepted[j].0
    ensures s.rtc || (forall i :: 0 <= i < |steps| ==> !steps[i].Sleep?) ==> Spaced(t)
  {
    RunRises(mac, s, steps, t);
    if s.rtc || forall i :: 0 <= i < |steps| ==> !steps[i].Sleep? {
      RunIsSpaced(mac, s, steps, t);
    }
    forall i, j | 0 <= i < j < |t.accepted|
      ensures t.accepted[i].0 != t.accepted[j].0
    {
      if t.accepted[i].0 == t.accepted[j].0 {
        var c, c' := t.accepted[i].1, t.accepted[j].1;
        TokenIsOneCounter(t.accepted[i].0, c, mac(c), c', mac(c'));
      }
    }
  }

  // ---------------------------------------------------------------- healing

  predicate KeepsCounter(st: Step)
  {
    !st.Mint? && !st.Restore?
  }

  lemma {:induction false} CounterOnlyRises(mac: nat -> string, s: State, steps: seq<Step>, t: State)
    requires Run(mac, s, steps, t) && forall i :: 0 <= i < |steps| ==> KeepsCounter(steps[i])
    ensures t.counter >= s.counter
    decreases |steps|
  {
    if steps != [] {
      CounterOnlyRises(mac, Apply(s, steps[0]), steps[1..], t);
    }
  }

  /**
   However far state.json was rolled back: the first token minted after a completed sync exceeds
   the mark that sync reported, exactly when the counter still has a next value.
   */
  lemma FirstMintAfterSync(mac: nat -> string, s: State, seen: nat, steps: seq<Step>, t: State)
    requires Enabled(mac, s, Sync(seen, true)) && Run(mac, Apply(s, Sync(seen, true)), steps, t)
    requires forall i :: 0 <= i < |steps| ==> KeepsCounter(steps[i])
    ensures Apply(t, Mint(true)).counter > seen <==> t.counter < MAX_U64
  {
    CounterOnlyRises(mac, Apply(s, Sync(seen, true)), steps, t);
  }

  /** Then it is accepted, if the device has accepted nothing since and is willing to wake. */
  lemma HealedTokenIsAccepted(mac: nat -> string, d: Device, now: int, c: nat, v: Verdict, d': Device)
    requires c > d.highWater && c <= MAX_U64 && |mac(c)| == MAC_CHARS && NoDot(mac(c))
    requires !Limited(d, now) && Verifies(mac, d, now, PREFIX + ToText(c) + "." + mac(c), Works, v, d')
    ensures v == Accept(c)
  {
    var body := PREFIX + ToText(c) + "." + mac(c);
    assert Genuine(mac, body, c);
    assert Rings(mac, body, d.highWater, true);
    TokenIsOneCounter(body, c, mac(c), v.counter, mac(v.counter));
  }
}
