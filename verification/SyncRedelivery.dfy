/**
 A repeated delivery is invisible: once read, a letter is not unread again while the device
 remembers it. The ring in RAM is always enough to remember by; the ring on flash is, as long as RAM
 never falls behind it.
 */
module SyncRedelivery {
  import opened Basics
  import opened AckRing
  import opened Assembly
  import opened SyncSystem
  import opened SyncInbound
  import SeenRing

  // ---------------------------------------------------------------- read letters

  /** The letters marked read and known ever since are exactly the stored ones not unread. */
  ghost predicate ReadInv(d: Device, h: History)
  {
    && (forall lid :: lid in h.read ==> Known(d, lid))
    && (forall lid :: lid in d.letters ==> (lid in h.read <==> !d.letters[lid].unread))
  }

  predicate TouchesLetters(ds: DeviceStep)
  {
    ds.MarkRead? || ds.PutLetter? || ds.Evict?
  }

  lemma LettersUntouched(p: Params, d: Device, ds: DeviceStep)
    requires DeviceEnabled(p, d, ds) && !TouchesLetters(ds)
    ensures DeviceApply(p, d, ds).letters == d.letters
  {
  }

  /** The letters and the ring in RAM after a step that touches the letters. */
  lemma LettersTouched(p: Params, d: Device, ds: DeviceStep)
    requires DeviceEnabled(p, d, ds) && TouchesLetters(ds)
    ensures ds.PutLetter? ==> AtLetter(d) && CurrentLetter(d).id !in d.seen
    ensures var d' := DeviceApply(p, d, ds);
            && d'.seen == d.seen
            && (ds.MarkRead? ==> ds.lid in d.letters && d'.letters == d.letters[ds.lid := d.letters[ds.lid].(unread := false)])
            && (ds.PutLetter? ==> d'.letters == Put(d.letters, CurrentLetter(d)))
            && (ds.Evict? ==> d'.letters == d.letters - {ds.lid})
  {
  }

  lemma ReadAfter(p: Params, d: Device, h: History, ds: DeviceStep)
    requires DeviceEnabled(p, d, ds)
    ensures var d' := DeviceApply(p, d, ds);
            DeviceHistory(h, d, ds, d').read
            == set lid | lid in h.read + (if ds.MarkRead? then {ds.lid} else {}) && Known(d', lid)
  {
  }

  lemma DeviceKeepsRead(p: Params, d: Device, h: History, ds: DeviceStep)
    requires ReadInv(d, h) && DeviceEnabled(p, d, ds)
    ensures var d' := DeviceApply(p, d, ds); ReadInv(d', DeviceHistory(h, d, ds, d'))
  {
    ReadAfter(p, d, h, ds);
    if TouchesLetters(ds) {
      LettersTouched(p, d, ds);
    } else {
      LettersUntouched(p, d, ds);
    }
  }

  lemma StepKeepsRead(p: Params, s: State, st: Step)
    requires ReadInv(s.dev, s.hist) && Enabled(p, s, st)
    ensures var t := Apply(p, s, st); ReadInv(t.dev, t.hist)
    ensures var t := Apply(p, s, st); forall lid :: lid in s.hist.read && Known(t.dev, lid) ==> lid in t.hist.read
  {
    if st.Dev? {
      DeviceKeepsRead(p, s.dev, s.hist, st.ds);
      ReadAfter(p, s.dev, s.hist, st.ds);
    }
  }

  /** `lid` stays in the store or in the ring in RAM all along a run. */
  ghost predicate KnownThroughout(p: Params, s: State, steps: seq<Step>, lid: LetterId)
    decreases |steps|
  {
    && Known(s.dev, lid)
    && (steps != [] ==> Enabled(p, s, steps[0]) && KnownThroughout(p, Apply(p, s, steps[0]), steps[1..], lid))
  }

  lemma {:induction false} RunKeepsRead(p: Params, s: State, steps: seq<Step>, t: State)
    requires ReadInv(s.dev, s.hist) && IsRun(p, s, steps, t)
    ensures ReadInv(t.dev, t.hist)
    decreases |steps|
  {
    if steps != [] {
      StepKeepsRead(p, s, steps[0]);
      RunKeepsRead(p, Apply(p, s, steps[0]), steps[1..], t);
    }
  }

  lemma {:induction false} ReadStaysRead(p: Params, s: State, steps: seq<Step>, t: State, lid: LetterId)
    requires ReadInv(s.dev, s.hist) && IsRun(p, s, steps, t) && lid in s.hist.read && KnownThroughout(p, s, steps, lid)
    ensures lid in t.hist.read
    decreases |steps|
  {
    if steps != [] {
      StepKeepsRead(p, s, steps[0]);
      ReadStaysRead(p, Apply(p, s, steps[0]), steps[1..], t, lid);
    }
  }

  /**
   However often a letter is delivered again, and wherever the power fails: once read, it is never
   unread again while the store or the ring in RAM remembers it.
   */
  lemma RedeliveryInvisible(p: Params, s0: State, s: State, steps: seq<Step>, t: State, lid: LetterId)
    requires Init(s0) && Reaches(p, s0, s) && IsRun(p, s, steps, t)
    requires lid in s.dev.letters && !s.dev.letters[lid].unread
    requires KnownThroughout(p, s, steps, lid)
    ensures lid in t.dev.letters ==> !t.dev.letters[lid].unread
  {
    var before :| IsRun(p, s0, before, s);
    RunKeepsRead(p, s0, before, s);
    RunKeepsRead(p, s, steps, t);
    ReadStaysRead(p, s, steps, t, lid);
  }

  // ---------------------------------------------------------------- the ring on flash

  predicate IsLetterId(x: LetterId)
  {
    |x.text| == LETTER_ID_CHARS
  }

  /** Letter ids stand as near to the newest end in `seen` as they do in `ring`. */
  ghost predicate Ahead(ring: seq<LetterId>, seen: seq<LetterId>)
  {
    forall n: nat, x :: x in LastN(ring, n) && IsLetterId(x) ==> x in LastN(seen, n)
  }

  /** No letter id stands in the ring twice. */
  ghost predicate IdsOnce(ring: seq<LetterId>)
  {
    forall i, j :: 0 <= i < j < |ring| && IsLetterId(ring[i]) ==> ring[i] != ring[j]
  }

  lemma LastNGrown<T>(s: seq<T>, y: T, n: nat)
    ensures LastN(s + [y], n + 1) == LastN(s, n) + [y]
  {
  }

  lemma LastNTwice<T>(s: seq<T>, m: nat, n: nat)
    ensures LastN(LastN(s, m), n) == LastN(s, if n < m then n else m)
  {
  }

  lemma LastNOfPush<T>(s: seq<T>, y: T, cap: nat, n: nat)
    ensures var m := if n < cap then n else cap;
            LastN(LastN(s + [y], cap), n) == if m == 0 then [] else LastN(s, m - 1) + [y]
  {
    LastNTwice(s + [y], cap, n);
    var m := if n < cap then n else cap;
    if m > 0 {
      LastNGrown(s, y, m - 1);
    }
  }

  /** One push on both sides: the same id, or a line that is no letter id. */
  lemma PushAhead(ring: seq<LetterId>, seen: seq<LetterId>, a: LetterId, b: LetterId, cap: nat)
    requires Ahead(ring, seen) && (IsLetterId(a) ==> a == b)
    ensures Ahead(LastN(ring + [a], cap), LastN(seen + [b], cap))
  {
    forall n: nat, x | x in LastN(LastN(ring + [a], cap), n) && IsLetterId(x)
      ensures x in LastN(LastN(seen + [b], cap), n)
    {
      LastNOfPush(ring, a, cap, n);
      LastNOfPush(seen, b, cap, n);
      assert x in LastN(ring, (if n < cap then n else cap) - 1) || x == a;
    }
  }

  lemma GrownOnce(ring: seq<LetterId>, a: LetterId)
    requires IdsOnce(ring) && (IsLetterId(a) ==> a !in ring)
    ensures IdsOnce(ring + [a])
  {
  }

  lemma SuffixOnce(ring: seq<LetterId>, r: seq<LetterId>)
    requires IdsOnce(ring) && |r| <= |ring| && r == ring[|ring| - |r|..]
    ensures IdsOnce(r)
  {
    var d := |ring| - |r|;
    forall i, j | 0 <= i < j < |r| && IsLetterId(r[i])
      ensures r[i] != r[j]
    {
      assert r[i] == ring[d + i] && r[j] == ring[d + j];
    }
  }

  lemma PushOnce(ring: seq<LetterId>, a: LetterId, cap: nat)
    requires IdsOnce(ring) && (IsLetterId(a) ==> a !in ring)
    ensures IdsOnce(LastN(ring + [a], cap))
  {
    GrownOnce(ring, a);
    SuffixOnce(ring + [a], LastN(ring + [a], cap));
  }

  lemma OlderToo<T>(s: seq<T>, n: nat, x: T)
    requires x in LastN(s, n)
    ensures x in LastN(s, n + 1)
  {
    if |s| > n {
      assert LastN(s, n + 1) == [s[|s| - n - 1]] + LastN(s, n);
    }
  }

  lemma InGrown(s: seq<LetterId>, x: LetterId, y: LetterId, n: nat)
    requires n > 0
    ensures y in LastN(s + [x], n) <==> y == x || y in LastN(s, n - 1)
  {
    LastNGrown(s, x, n - 1);
  }

  lemma BothGrow(ring: seq<LetterId>, seen: seq<LetterId>, x: LetterId)
    requires Ahead(ring, seen)
    ensures Ahead(ring + [x], seen + [x])
  {
    forall n: nat, y | y in LastN(ring + [x], n) && IsLetterId(y)
      ensures y in LastN(seen + [x], n)
    {
      InGrown(ring, x, y, n);
      InGrown(seen, x, y, n);
    }
  }

  lemma OneGrows(ring: seq<LetterId>, seen: seq<LetterId>, x: LetterId)
    requires Ahead(ring, seen) && !IsLetterId(x)
    ensures Ahead(ring + [x], seen)
  {
    forall n: nat, y | y in LastN(ring + [x], n) && IsLetterId(y)
      ensures y in LastN(seen, n)
    {
      InGrown(ring, x, y, n);
      OlderToo(seen, n - 1, y);
    }
  }

  /** A reload, which drops repeated lines, loses no letter id and pushes none back. */
  lemma {:induction false} ReloadAhead(ring: seq<LetterId>)
    requires IdsOnce(ring)
    ensures Ahead(ring, SeenRing.Kept(ring))
  {
    if ring != [] {
      var front, last := ring[..|ring| - 1], ring[|ring| - 1];
      assert ring == front + [last];
      ReloadAhead(front);
      var kept := SeenRing.Kept(front);
      if SeenRing.Kept(ring) == kept {
        assert IsLetterId(last) ==> last !in front;
        OneGrows(front, kept, last);
      } else {
        BothGrow(front, kept, last);
      }
    }
  }

  /** RAM knows every letter id that the file knows. */
  lemma CoverKnows(ring: seq<LetterId>, seen: seq<LetterId>, lid: LetterId)
    requires Ahead(ring, seen) && lid in ring && IsLetterId(lid)
    ensures lid in seen
  {
    assert LastN(ring, |ring|) == ring;
    assert lid in LastN(seen, |ring|);
  }

  ghost predicate CoverHolds(ring: seq<LetterId>, seen: seq<LetterId>)
  {
    Ahead(ring, seen) && IdsOnce(ring) && SeenRing.Distinct(seen)
  }

  lemma PushDistinct(seen: seq<LetterId>, id: LetterId, cap: nat)
    requires SeenRing.Distinct(seen) && id !in seen
    ensures SeenRing.Distinct(LastN(seen + [id], cap))
  {
    SeenRing.SuffixIsDistinct(seen + [id], LastN(seen + [id], cap));
  }

  /** One id into RAM, and into the file that id, a line that is no letter id, or RAM's whole copy. */
  lemma AddKeepsCover(ring: seq<LetterId>, seen: seq<LetterId>, line: LetterId, id: LetterId, cap: nat)
    requires CoverHolds(ring, seen) && id !in seen && IsLetterId(id) && (IsLetterId(line) ==> line == id)
    ensures var seen' := LastN(seen + [id], cap); CoverHolds(LastN(ring + [line], cap), seen') && CoverHolds(seen', seen')
  {
    if id in ring {
      CoverKnows(ring, seen, id);
    }
    PushDistinct(seen, id, cap);
    PushAhead(ring, seen, line, id, cap);
    PushOnce(ring, line, cap);
  }

  /** After a reload the two copies stand together, compacted or not. */
  lemma ReloadCovers(ring: seq<LetterId>)
    requires IdsOnce(ring)
    ensures var kept := SeenRing.Kept(ring); CoverHolds(ring, kept) && CoverHolds(kept, kept)
  {
    ReloadAhead(ring);
  }

  /** RAM falls behind the file: an append was refused, or a boot could not read the file. */
  predicate Forgets(ds: DeviceStep)
  {
    ds.RingFails? || (ds.Reboot? && !ds.found.ring)
  }

  lemma DeviceKeepsCover(p: Params, d: Device, ds: DeviceStep)
    requires CoverHolds(d.ring, d.seen) && DeviceEnabled(p, d, ds) && !Forgets(ds)
    requires AtLetter(d) ==> IsLetterId(CurrentLetter(d).id)
    requires PutIsNew(d)
    ensures var d' := DeviceApply(p, d, ds); CoverHolds(d'.ring, d'.seen)
  {
    if !TouchesRing(ds) {
      RingUntouched(p, d, ds);
    } else if ds.Reboot? {
      RingBooted(p, d, ds.found);
      ReloadCovers(d.ring);
    } else {
      RingAdded(p, d, ds);
      var id := CurrentLetter(d).id;
      AddKeepsCover(d.ring, d.seen, if ds.RingMerged? then ds.junk else id, id, p.seenCap);
    }
  }

  /** A letter between its file and its ring entry is not in the ring. */
  ghost predicate PutIsNew(d: Device)
  {
    d.applying.Some? && d.applying.value.put ==> AtLetter(d) && CurrentLetter(d).id !in d.seen
  }

  /** Only PutLetter leaves a letter so, and only ring steps, which end it, push ids. */
  lemma PutIsLetter(p: Params, d: Device, ds: DeviceStep)
    requires DeviceEnabled(p, d, ds) && DeviceApply(p, d, ds).applying.Some? && DeviceApply(p, d, ds).applying.value.put
    requires d.applying.Some? && d.applying.value.put ==> AtLetter(d)
    ensures AtLetter(d) && DeviceApply(p, d, ds).applying.value == d.applying.value.(put := true)
    ensures !TouchesRing(ds) && (ds.PutLetter? ==> CurrentLetter(d).id !in d.seen) && (d.applying.value.put || ds.PutLetter?)
  {
  }

  lemma DeviceKeepsPutNew(p: Params, d: Device, ds: DeviceStep)
    requires PutIsNew(d) && DeviceEnabled(p, d, ds)
    ensures PutIsNew(DeviceApply(p, d, ds))
  {
    var d' := DeviceApply(p, d, ds);
    if d'.applying.Some? && d'.applying.value.put {
      PutIsLetter(p, d, ds);
      RingUntouched(p, d, ds);
    }
  }

  ghost predicate CoverInv(s: State)
  {
    InboundInv(s) && CoverHolds(s.dev.ring, s.dev.seen) && PutIsNew(s.dev)
  }

  lemma StepKeepsCover(p: Params, s: State, st: Step)
    requires CoverInv(s) && Enabled(p, s, st) && !(st.Dev? && Forgets(st.ds))
    ensures CoverInv(Apply(p, s, st))
  {
    StepKeepsInbound(p, s, st);
    if st.Dev? {
      DeviceKeepsPutNew(p, s.dev, st.ds);
      DeviceKeepsCover(p, s.dev, st.ds);
    }
  }

  /** How often RAM fell behind the ring file in a run. */
  function Lapses(steps: seq<Step>): (n: nat)
  {
    if steps == [] then 0
    else (if steps[0].Dev? && Forgets(steps[0].ds) then 1 else 0) + Lapses(steps[1..])
  }

  lemma {:induction false} RunKeepsCover(p: Params, s: State, steps: seq<Step>, t: State)
    requires CoverInv(s) && IsRun(p, s, steps, t) && Lapses(steps) == 0
    ensures CoverInv(t)
    decreases |steps|
  {
    if steps != [] {
      StepKeepsCover(p, s, steps[0]);
      RunKeepsCover(p, Apply(p, s, steps[0]), steps[1..], t);
    }
  }

  /** `lid` stays in the store or in the ring on flash all along a run. */
  ghost predicate OnFlashThroughout(p: Params, s: State, steps: seq<Step>, lid: LetterId)
    decreases |steps|
  {
    && (lid in s.dev.letters || lid in s.dev.ring)
    && (steps != [] ==> Enabled(p, s, steps[0]) && OnFlashThroughout(p, Apply(p, s, steps[0]), steps[1..], lid))
  }

  lemma {:induction false} FlashIsKnown(p: Params, s: State, steps: seq<Step>, lid: LetterId)
    requires CoverInv(s) && Lapses(steps) == 0 && IsLetterId(lid) && OnFlashThroughout(p, s, steps, lid)
    ensures KnownThroughout(p, s, steps, lid)
    decreases |steps|
  {
    if lid in s.dev.ring {
      CoverKnows(s.dev.ring, s.dev.seen, lid);
    }
    if steps != [] {
      StepKeepsCover(p, s, steps[0]);
      FlashIsKnown(p, Apply(p, s, steps[0]), steps[1..], lid);
    }
  }

  /**
   The same promise by the store and the ring on flash alone, which survive a power cut: it is
   kept in every run in which RAM never fell behind the ring file.
   */
  lemma FlashRingSuffices(p: Params, s0: State, before: seq<Step>, s: State, steps: seq<Step>, t: State, lid: LetterId)
    requires Init(s0) && IsRun(p, s0, before, s) && IsRun(p, s, steps, t)
    requires Lapses(before) == 0 && Lapses(steps) == 0
    requires IsLetterId(lid) && lid in s.dev.letters && !s.dev.letters[lid].unread
    requires OnFlashThroughout(p, s, steps, lid)
    ensures KnownThroughout(p, s, steps, lid)
    ensures lid in t.dev.letters ==> !t.dev.letters[lid].unread
  {
    RunKeepsCover(p, s0, before, s);
    FlashIsKnown(p, s, steps, lid);
    RedeliveryInvisible(p, s0, s, steps, t, lid);
  }
}
