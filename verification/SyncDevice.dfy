/**
 The device's half of the protocol as code: the outbox, and the engine that builds requests and
 applies responses (firmware/chaski/components/syncengine/syncengine.cpp, store.cpp). Each
 method is shown to be a run of the step system, whichever of its writes are refused.
 */
module SyncDevice {
  import opened Basics
  import opened AckRing
  import opened Assembly
  import opened SyncSystem
  import SeenRing
  import opened SyncOutbound

  // ---------------------------------------------------------------- runs of the engine

  /** The steps that are the engine's own while it applies `r`; the child's, and power cuts, are not. */
  predicate EngineStep(r: Response, st: DeviceStep)
  {
    match st
    case Begin(resp) => resp == r
    case ResolveAck => true
    case ResolveUnsure => true
    case ResolveFails => true
    case SkipSeen => true
    case PutLetter => true
    case RingAppend => true
    case RingCompact => true
    case RingMerged(_) => true
    case RingFails => true
    case Evict(_) => true
    case SetCursor => true
    case CursorUnsure => true
    case Abandon => true
    case _ => false
  }

  ghost predicate DeviceRun(p: Params, r: Response, d: Device, steps: seq<DeviceStep>, d': Device)
    decreases |steps|
  {
    if steps == [] then d == d'
    else
      && DeviceEnabled(p, d, steps[0]) && EngineStep(r, steps[0])
      && DeviceRun(p, r, DeviceApply(p, d, steps[0]), steps[1..], d')
  }

  ghost predicate DeviceClosed(p: Params, r: Response, c: iset<Device>)
  {
    forall d, st :: d in c && DeviceEnabled(p, d, st) && EngineStep(r, st) ==> DeviceApply(p, d, st) in c
  }

  /** Some run leads from `d` to `d'`: no set closed under the steps holds the one without the other. */
  ghost predicate DeviceReaches(p: Params, r: Response, d: Device, d': Device)
  {
    forall c :: DeviceClosed(p, r, c) && d in c ==> d' in c
  }

  lemma {:induction false} DeviceRunPush(p: Params, r: Response, d: Device, steps: seq<DeviceStep>, d': Device, st: DeviceStep)
    requires DeviceRun(p, r, d, steps, d') && DeviceEnabled(p, d', st) && EngineStep(r, st)
    ensures DeviceRun(p, r, d, steps + [st], DeviceApply(p, d', st))
    decreases |steps|
  {
    if steps == [] {
      assert steps + [st] == [st] && [st][1..] == [];
    } else {
      assert (steps + [st])[1..] == steps[1..] + [st];
      DeviceRunPush(p, r, DeviceApply(p, d, steps[0]), steps[1..], d', st);
    }
  }

  lemma DeviceStays(p: Params, r: Response, d: Device)
    ensures DeviceReaches(p, r, d, d)
  {
  }

  lemma DevicePush(p: Params, r: Response, d: Device, d': Device, st: DeviceStep)
    requires DeviceReaches(p, r, d, d') && DeviceEnabled(p, d', st) && EngineStep(r, st)
    ensures DeviceReaches(p, r, d, DeviceApply(p, d', st))
  {
  }

  ghost predicate HasDeviceRun(p: Params, r: Response, d: Device, d': Device)
  {
    exists steps :: DeviceRun(p, r, d, steps, d')
  }

  lemma DeviceReachesByRun(p: Params, r: Response, d: Device, d': Device) returns (steps: seq<DeviceStep>)
    requires DeviceReaches(p, r, d, d')
    ensures DeviceRun(p, r, d, steps, d')
  {
    var c := iset e | HasDeviceRun(p, r, d, e);
    assert DeviceRun(p, r, d, [], d);
    forall e, st | HasDeviceRun(p, r, d, e) && DeviceEnabled(p, e, st) && EngineStep(r, st)
      ensures HasDeviceRun(p, r, d, DeviceApply(p, e, st))
    {
      var run :| DeviceRun(p, r, d, run, e);
      DeviceRunPush(p, r, d, run, e, st);
    }
    assert DeviceClosed(p, r, c);
    steps :| DeviceRun(p, r, d, steps, d');
  }

  /** The engine writes no note and discards none. */
  lemma EngineKeepsNotes(p: Params, r: Response, d: Device, h: History, st: DeviceStep)
    requires DeviceEnabled(p, d, st) && EngineStep(r, st)
    ensures var h' := DeviceHistory(h, d, st, DeviceApply(p, d, st));
            h'.written == h.written && h'.discarded == h.discarded
  {
    WrittenAfter(h, d, st, DeviceApply(p, d, st));
    DiscardedAfter(h, d, st, DeviceApply(p, d, st));
  }

  /** What a device run does in isolation, the whole system can do. */
  lemma {:induction false} LiftDeviceRun(p: Params, r: Response, s: State, steps: seq<DeviceStep>, d': Device) returns (t: State)
    requires DeviceRun(p, r, s.dev, steps, d') && r in s.net.responses
    ensures Reaches(p, s, t) && t.dev == d' && t.srv == s.srv && t.net == s.net && t.box == s.box
    ensures t.hist.written == s.hist.written && t.hist.discarded == s.hist.discarded
    decreases |steps|
  {
    if steps == [] {
      ReachesItself(p, s);
      t := s;
    } else {
      var u := Apply(p, s, Dev(steps[0]));
      EngineKeepsNotes(p, r, s.dev, s.hist, steps[0]);
      ReachesItself(p, s);
      ReachesByStep(p, s, s, Dev(steps[0]));
      t := LiftDeviceRun(p, r, u, steps[1..], d');
      ReachesTransitive(p, s, u, t);
    }
  }

  /**
   So whatever the device's code does with a response that was sent to it is a run of the system,
   in which the child writes and discards nothing.
   */
  lemma DeviceCodeIsSystemRun(p: Params, r: Response, s: State, d': Device) returns (t: State)
    requires DeviceReaches(p, r, s.dev, d') && r in s.net.responses
    ensures Reaches(p, s, t) && t.dev == d' && t.srv == s.srv && t.net == s.net && t.box == s.box
    ensures t.hist.written == s.hist.written && t.hist.discarded == s.hist.discarded
  {
    var steps := DeviceReachesByRun(p, r, s.dev, d');
    t := LiftDeviceRun(p, r, s, steps, d');
  }

  lemma EngineAppliesOnly(p: Params, r: Response, d: Device, st: DeviceStep)
    requires DeviceEnabled(p, d, st) && EngineStep(r, st) && (d.applying.Some? ==> d.applying.value.resp == r)
    ensures var d' := DeviceApply(p, d, st); d'.applying.Some? ==> d'.applying.value.resp == r
  {
  }

  /** Applying a response takes only those letters off the outbox that it acks as sent. */
  lemma EngineDropsOnlyAcked(p: Params, r: Response, d: Device, d': Device, id: nat)
    requires DeviceReaches(p, r, d, d') && d.applying.None? && id in d.outbox
    ensures id in d'.outbox || Ack(id, Sent) in r.acks
  {
    var c := iset e: Device |
      (e.applying.Some? ==> e.applying.value.resp == r) && (id in e.outbox || Ack(id, Sent) in r.acks);
    forall e, st | e in c && DeviceEnabled(p, e, st) && EngineStep(r, st)
      ensures DeviceApply(p, e, st) in c
    {
      EngineAppliesOnly(p, r, e, st);
      if id in e.outbox {
        DeviceDropsOnlyAcked(p, e, st, id);
      }
    }
    assert DeviceClosed(p, r, c);
  }

  // ---------------------------------------------------------------- the outbox

  predicate Rising(ids: seq<nat>)
  {
    forall i, j :: 0 <= i < j < |ids| ==> ids[i] < ids[j]
  }

  /** The place of one id among ordered ones. */
  method Placed(ids: seq<nat>, id: nat) returns (r: seq<nat>)
    requires Rising(ids) && id !in ids
    ensures Rising(r) && forall x :: x in r <==> x in ids || x == id
  {
    var k := 0;
    while k < |ids| && ids[k] < id
      invariant k <= |ids| && forall i :: 0 <= i < k ==> ids[i] < id
    {
      k := k + 1;
    }
    r := ids[..k] + [id] + ids[k..];
    assert ids == ids[..k] + ids[k..];
    assert k < |ids| ==> id != ids[k];
  }

  /** store.cpp:380-386: local ids are padded, so their order as text is their order as numbers. */
  method Ordered(keys: set<nat>) returns (ids: seq<nat>)
    ensures Rising(ids) && forall id :: id in ids <==> id in keys
  {
    ids := [];
    var rest := keys;
    while rest != {}
      invariant Rising(ids) && rest <= keys
      invariant forall id :: id in ids <==> id in keys && id !in rest
      decreases rest
    {
      var id :| id in rest;
      ids := Placed(ids, id);
      rest := rest - {id};
    }
  }

  /** FileOutbox: one file per letter, a counter file, and the same letters in RAM. */
  class Outbox {
    const cap: nat
    var counter: nat                 // flash
    var highWater: nat               // RAM
    var files: map<nat, Entry>       // flash
    var entries: map<nat, Entry>     // RAM

    constructor (cap: nat, counter: nat, files: map<nat, Entry>)
      ensures this.cap == cap && this.counter == highWater == counter && this.files == files && entries == files
    {
      this.cap := cap;
      this.counter := counter;
      this.highWater := counter;
      this.files := files;
      this.entries := files;
    }

    /** store.cpp:260-288: the counter first, then the entry. */
    method Add(note: Note, counterFate: Fate, entryFate: Fate) returns (id: Option<nat>)
      modifies this
      ensures id.Some? <==> |SendableIds(old(entries))| < cap && counterFate.Done? && entryFate.Done?
      ensures id.Some? ==> id.value == counter == highWater == old(highWater) + 1
      ensures id.Some? ==> files == old(files)[id.value := Entry(note, None)] && entries == old(entries)[id.value := Entry(note, None)]
      ensures id.None? ==> entries == old(entries)
      ensures id.None? && |SendableIds(old(entries))| < cap && counterFate.Done? ==>
                && counter == highWater == old(highWater) + 1
                && files == if entryFate == Failed(true) then old(files)[highWater := Entry(note, None)] else old(files)
      ensures |SendableIds(old(entries))| >= cap || !counterFate.Done? ==>
                && files == old(files) && highWater == old(highWater)
                && (counter == old(counter) || (counterFate == Failed(true) && counter == highWater + 1))
    {
      if |SendableIds(entries)| >= cap {
        return None;
      }
      if counterFate != Failed(false) {
        counter := highWater + 1;
      }
      if !counterFate.Done? {
        return None;
      }
      highWater := highWater + 1;
      if entryFate != Failed(false) {
        files := files[highWater := Entry(note, None)];
      }
      if !entryFate.Done? {
        return None;
      }
      entries := entries[highWater := Entry(note, None)];
      return Some(highWater);
    }

    /** store.cpp:302-311. */
    method Resolve(a: Ack, fate: Fate) returns (ok: bool)
      modifies this`files, this`entries
      ensures ok <==> a.id !in old(entries) || fate.Done?
      ensures entries == if ok then Resolved(old(entries), a) else Marked(old(entries), a)
      ensures files == if fate == Failed(false) then old(files) else ResolvedFiles(old(files), old(entries), a)
      ensures ok && old(files) == old(entries) ==> files == entries
    {
      if a.id !in entries {
        return true;
      }
      if a.status == Sent {
        ok := Erase(a.id, fate);
        return;
      }
      entries := entries[a.id := entries[a.id].(reject := Some(a.status))];
      if fate != Failed(false) {
        files := files[a.id := entries[a.id]];
      }
      return fate.Done?;
    }

    /** store.cpp:395-403: the file first. */
    method Erase(id: nat, fate: Fate) returns (ok: bool)
      modifies this`files, this`entries
      ensures ok == fate.Done?
      ensures files == if fate == Failed(false) then old(files) else old(files) - {id}
      ensures entries == if ok then old(entries) - {id} else old(entries)
    {
      if fate != Failed(false) {
        files := files - {id};
      }
      if fate.Done? {
        entries := entries - {id};
      }
      return fate.Done?;
    }

    /** store.cpp:313-316. An entry that waits to be sent goes like a rejected one, though store.h:105 speaks of these alone. */
    method Discard(id: nat, fate: Fate) returns (ok: bool)
      modifies this`files, this`entries
      ensures ok <==> id in old(entries) && fate.Done?
      ensures id in SendableIds(old(entries)) ==> (id !in SendableIds(entries) <==> fate.Done?)
      ensures files == if id !in old(entries) || fate == Failed(false) then old(files) else old(files) - {id}
      ensures entries == if ok then old(entries) - {id} else old(entries)
    {
      if id !in entries {
        return false;
      }
      ok := Erase(id, fate);
    }

    /** store.cpp:290-296: everything not rejected, oldest first. */
    method Sendable() returns (items: seq<Item>)
      ensures forall k :: 0 <= k < |items| ==> items[k].id in SendableIds(entries) && items[k].note == entries[items[k].id].note
      ensures forall id :: id in SendableIds(entries) ==> exists k :: 0 <= k < |items| && items[k].id == id
      ensures forall j, k :: 0 <= j < k < |items| ==> items[j].id < items[k].id
    {
      var ids := Ordered(entries.Keys);
      items := [];
      for n := 0 to |ids|
        invariant items == Unrejected(entries, ids[..n])
      {
        assert ids[..n + 1][..n] == ids[..n];
        assert ids[n] in ids;
        if entries[ids[n]].reject.None? {
          items := items + [Item(ids[n], entries[ids[n]].note)];
        }
      }
      assert ids[..|ids|] == ids;
      UnrejectedIsOrdered(entries, ids);
    }
  }

  /** The items of those ids that are not rejected. */
  function Unrejected(entries: map<nat, Entry>, ids: seq<nat>): seq<Item>
  {
    if ids == [] then []
    else
      var front, id := Unrejected(entries, ids[..|ids| - 1]), ids[|ids| - 1];
      if id in SendableIds(entries) then front + [Item(id, entries[id].note)] else front
  }

  /** Every item is an entry to be sent, as written, and one of `ids`. */
  predicate OnlySendable(entries: map<nat, Entry>, ids: seq<nat>, items: seq<Item>)
  {
    forall k :: 0 <= k < |items| ==>
      items[k].id in ids && items[k].id in SendableIds(entries) && items[k].note == entries[items[k].id].note
  }

  predicate Sends(items: seq<Item>, id: nat)
  {
    exists k :: 0 <= k < |items| && items[k].id == id
  }

  predicate AllSendable(entries: map<nat, Entry>, ids: seq<nat>, items: seq<Item>)
  {
    forall id :: id in ids && id in SendableIds(entries) ==> Sends(items, id)
  }

  predicate InOrder(items: seq<Item>)
  {
    forall j, k :: 0 <= j < k < |items| ==> items[j].id < items[k].id
  }

  lemma PushedItem(front: seq<Item>, it: Item, id: nat)
    requires Sends(front, id) || it.id == id
    ensures Sends(front + [it], id)
  {
    var items := front + [it];
    if Sends(front, id) {
      var k :| 0 <= k < |front| && front[k].id == id;
      assert items[k].id == id;
    } else {
      assert items[|front|].id == id;
    }
  }

  lemma SendablePush(entries: map<nat, Entry>, rest: seq<nat>, last: nat, front: seq<Item>)
    requires OnlySendable(entries, rest, front) && AllSendable(entries, rest, front) && InOrder(front)
    requires (forall id :: id in rest ==> id < last) && last in SendableIds(entries)
    ensures var items := front + [Item(last, entries[last].note)];
            OnlySendable(entries, rest + [last], items) && AllSendable(entries, rest + [last], items) && InOrder(items)
  {
    var it := Item(last, entries[last].note);
    forall id | id in rest + [last] && id in SendableIds(entries)
      ensures Sends(front + [it], id)
    {
      PushedItem(front, it, id);
    }
  }

  lemma {:induction false} UnrejectedIsOrdered(entries: map<nat, Entry>, ids: seq<nat>)
    requires Rising(ids)
    ensures var items := Unrejected(entries, ids);
            OnlySendable(entries, ids, items) && AllSendable(entries, ids, items) && InOrder(items)
  {
    if ids != [] {
      var rest, last := ids[..|ids| - 1], ids[|ids| - 1];
      assert ids == rest + [last];
      UnrejectedIsOrdered(entries, rest);
      if last in SendableIds(entries) {
        SendablePush(entries, rest, last, Unrejected(entries, rest));
      }
    }
  }

  // ---------------------------------------------------------------- the engine

  datatype Applied = Applied(acks: nat, stored: nat, deduped: nat, incomplete: bool, more: bool)

  /** Every ack of a response, in order. */
  function ResolvedAll(entries: map<nat, Entry>, acks: seq<Ack>): map<nat, Entry>
  {
    if acks == [] then entries else Resolved(ResolvedAll(entries, acks[..|acks| - 1]), acks[|acks| - 1])
  }

  class Engine {
    const p: Params
    const outbox: Outbox
    const seen: SeenRing.FileSeenRing
    var letters: map<LetterId, Stored>
    var cursor: Cursor               // flash
    var held: Cursor                 // RAM

    ghost predicate Valid()
      reads this, outbox, seen
    {
      outbox.cap == p.outboxCap && seen.capacity == p.seenCap && seen.Sound()
    }

    ghost function View(applying: Option<Applying>): Device
      reads this, outbox, seen
    {
      Device(outbox.counter, outbox.highWater, outbox.files, letters, seen.Recent(), cursor, held, outbox.entries, seen.ring, None, applying)
    }

    constructor (p: Params, outbox: Outbox, seen: SeenRing.FileSeenRing, letters: map<LetterId, Stored>, cursor: Cursor)
      requires outbox.cap == p.outboxCap && seen.capacity == p.seenCap && seen.Sound()
      ensures Valid() && this.p == p && this.outbox == outbox && this.seen == seen
      ensures this.letters == letters && this.cursor == held == cursor
    {
      this.p := p;
      this.outbox := outbox;
      this.seen := seen;
      this.letters := letters;
      this.cursor := cursor;
      this.held := cursor;
    }

    /** syncengine.cpp:84-112. */
    method BuildRequest() returns (req: Request)
      requires Valid()
      ensures IsRequest(View(None), req)
    {
      var items := outbox.Sendable();
      req := Request(held, items);
    }

    /** Step 2 of ApplyResponse: every ack, durable, or stop. */
    method ApplyAcks(r: Response, fates: nat -> Fate) returns (done: nat, ok: bool)
      requires Valid()
      modifies outbox
      ensures Valid() && done <= |r.acks|
      ensures DeviceReaches(p, r, old(View(None)), View(if ok then Some(Applying(r, |r.acks|, 0, false)) else None))
      ensures ok ==> done == |r.acks|
      ensures ok ==> outbox.entries == ResolvedAll(old(outbox.entries), r.acks)
      ensures outbox.counter == old(outbox.counter)
    {
      DeviceStays(p, r, View(None));
      DevicePush(p, r, View(None), View(None), Begin(r));
      done := 0;
      while done < |r.acks|
        invariant Valid() && done <= |r.acks|
        invariant outbox.counter == old(outbox.counter) && outbox.highWater == old(outbox.highWater)
        invariant outbox.entries == ResolvedAll(old(outbox.entries), r.acks[..done])
        invariant DeviceReaches(p, r, old(View(None)), View(Some(Applying(r, done, 0, false))))
      {
        ghost var before := View(Some(Applying(r, done, 0, false)));
        assert AtAck(before) && CurrentAck(before) == r.acks[done];
        ok := outbox.Resolve(r.acks[done], fates(done));
        if !ok {
          DevicePush(p, r, old(View(None)), before, if fates(done) == Failed(false) then ResolveFails else ResolveUnsure);
          return;
        }
        DevicePush(p, r, old(View(None)), before, ResolveAck);
        assert r.acks[..done + 1][..done] == r.acks[..done];
        done := done + 1;
      }
      assert r.acks[..done] == r.acks;
      ok := true;
    }

    /** One id into the ring, RAM first: it is in RAM in any case, and on flash if the write held. */
    method Remember(id: LetterId, writes: bool, left: nat) returns (ok: bool)
      requires Valid() && id !in seen.ring && SeenRing.NameIsSafe(id.text)
      modifies seen
      ensures Valid() && seen.ring == LastN(old(seen.ring) + [id], p.seenCap) && id in seen.ring
      ensures || seen.Recent() == seen.ring
              || seen.Recent() == LastN(old(seen.Recent()) + [Name(old(seen.torn) + id.text)], p.seenCap)
              || (!ok && seen.Recent() == old(seen.Recent()))
    {
      SeenRing.PushAndPop(seen.ring, id, seen.capacity);
      ghost var lines, torn, ring := seen.lines, seen.torn, seen.ring;
      ok := seen.Add(id, writes, left);
      if SeenRing.Landed(lines, torn, id, seen.ring, seen.lines, seen.torn) {
        SeenRing.LandedRecent(lines, torn, id, ring, seen.capacity, seen.ring, seen.lines, seen.torn);
      }
    }

    /** The ring half of one letter: its file is on flash, its id is not yet in the ring. */
    method RecordSeen(ghost d0: Device, r: Response, k: nat, writes: bool, left: nat) returns (ok: bool)
      requires Valid() && k < |r.letters|
      requires r.letters[k].id !in seen.ring && SeenRing.NameIsSafe(r.letters[k].id.text)
      requires DeviceReaches(p, r, d0, View(Some(Applying(r, |r.acks|, k, true))))
      modifies seen
      ensures Valid() && r.letters[k].id in seen.ring
      ensures DeviceReaches(p, r, d0, View(if ok then Some(Applying(r, |r.acks|, k + 1, false)) else None))
    {
      ghost var d := View(Some(Applying(r, |r.acks|, k, true)));
      ghost var torn := seen.torn;
      ok := Remember(r.letters[k].id, writes, left);
      RingStep(p, r, d0, d, seen.Recent(), seen.ring, torn, ok);
    }

    /** One letter of step 4: check, write, record. */
    method StoreLetter(ghost d0: Device, r: Response, k: nat, putFate: Fate, ringWrites: bool, ringLeft: nat) returns (ok: bool, added: bool)
      requires Valid() && k < |r.letters|
      requires DeviceReaches(p, r, d0, View(Some(Applying(r, |r.acks|, k, false))))
      modifies this`letters, seen
      ensures Valid()
      ensures DeviceReaches(p, r, d0, View(if ok then Some(Applying(r, |r.acks|, k + 1, false)) else None))
      ensures ok ==> r.letters[k].id in seen.ring
      ensures added <==> r.letters[k].id !in old(seen.ring)
      ensures ok && added ==> letters == Put(old(letters), r.letters[k])
      ensures !added ==> ok && letters == old(letters)
    {
      var l := r.letters[k];
      ghost var d1 := View(Some(Applying(r, |r.acks|, k, false)));
      added := l.id !in seen.ring;
      if !added {
        DevicePush(p, r, d0, d1, SkipSeen);
        return true, added;
      }
      if !SeenRing.NameIsSafe(l.id.text) || putFate == Failed(false) {
        DevicePush(p, r, d0, d1, Abandon);
        return false, added;
      }
      letters := Put(letters, l);
      DevicePush(p, r, d0, d1, PutLetter);
      if putFate == Failed(true) {
        DevicePush(p, r, d0, View(Some(Applying(r, |r.acks|, k, true))), Abandon);
        return false, added;
      }
      ok := RecordSeen(d0, r, k, ringWrites, ringLeft);
    }

    /** Step 4: the letters in turn, stopping at the first refused write. */
    method ApplyLetters(ghost d0: Device, r: Response, puts: nat -> Fate, ringWrites: nat -> bool, ringLeft: nat -> nat) returns (stored: nat, deduped: nat, ok: bool)
      requires Valid()
      requires DeviceReaches(p, r, d0, View(Some(Applying(r, |r.acks|, 0, false))))
      modifies this`letters, seen
      ensures Valid()
      ensures DeviceReaches(p, r, d0, View(if ok then Some(Applying(r, |r.acks|, |r.letters|, false)) else None))
      ensures ok ==> stored + deduped == |r.letters|
    {
      stored, deduped := 0, 0;
      var k := 0;
      while k < |r.letters|
        invariant Valid() && k <= |r.letters| && stored + deduped == k
        invariant DeviceReaches(p, r, d0, View(Some(Applying(r, |r.acks|, k, false))))
      {
        var added;
        ok, added := StoreLetter(d0, r, k, puts(k), ringWrites(k), ringLeft(k));
        if !ok {
          return;
        }
        if added {
          stored := stored + 1;
        } else {
          deduped := deduped + 1;
        }
        k := k + 1;
      }
      ok := true;
    }

    /**
     syncengine.cpp:117-201: acks, letters, eviction, and the cursor last. Whatever write is
     refused, what has happened is a run of the engine's steps; only a complete application moves
     the cursor a request will carry.
     */
    method ApplyResponse(r: Response, ackFates: nat -> Fate, puts: nat -> Fate, ringWrites: nat -> bool, ringLeft: nat -> nat,
                         cursorFate: Fate) returns (out: Applied)
      requires Valid()
      modifies this`letters, this`cursor, this`held, outbox, seen
      ensures Valid()
      ensures DeviceReaches(p, r, old(View(None)), View(None))
      ensures out.incomplete ==> held == old(held) && !out.more && cursor in [old(cursor), r.cursor]
      ensures out.incomplete && cursorFate != Failed(true) ==> cursor == old(cursor)
      ensures !out.incomplete ==> cursor == held == r.cursor && out.more == r.more
      ensures !out.incomplete ==> outbox.entries == ResolvedAll(old(outbox.entries), r.acks)
      ensures !out.incomplete ==> out.acks == |r.acks| && out.stored + out.deduped == |r.letters|
      ensures outbox.counter == old(outbox.counter)
    {
      var acks, ok := ApplyAcks(r, ackFates);
      if !ok {
        return Applied(acks, 0, 0, true, false);
      }
      var stored, deduped;
      stored, deduped, ok := ApplyLetters(old(View(None)), r, puts, ringWrites, ringLeft);
      if !ok {
        return Applied(acks, stored, deduped, true, false);
      }
      if stored > 0 {
        EvictSome(old(View(None)), r);
      }
      ok := TakeCursor(old(View(None)), r, cursorFate);
      return Applied(acks, stored, deduped, !ok, ok && r.more);
    }

    /** LetterStore::EvictBeyond chooses which letters go. */
    method EvictSome(ghost d0: Device, r: Response)
      requires Valid() && DeviceReaches(p, r, d0, View(Some(Applying(r, |r.acks|, |r.letters|, false))))
      modifies this`letters
      ensures Valid() && DeviceReaches(p, r, d0, View(Some(Applying(r, |r.acks|, |r.letters|, false))))
    {
      var doomed :| doomed <= letters.Keys;
      EvictAll(p, r, d0, View(Some(Applying(r, |r.acks|, |r.letters|, false))), doomed);
      letters := letters - doomed;
    }

    /** Step 6, and StateStore::SetCursor: RAM follows only a write reported as done (store.cpp:503-509). */
    method TakeCursor(ghost d0: Device, r: Response, fate: Fate) returns (ok: bool)
      requires Valid() && DeviceReaches(p, r, d0, View(Some(Applying(r, |r.acks|, |r.letters|, false))))
      modifies this`cursor, this`held
      ensures Valid() && DeviceReaches(p, r, d0, View(None))
      ensures ok == fate.Done?
      ensures cursor == if fate == Failed(false) then old(cursor) else r.cursor
      ensures held == if ok then r.cursor else old(held)
    {
      ghost var d := View(Some(Applying(r, |r.acks|, |r.letters|, false)));
      if fate == Failed(false) {
        DevicePush(p, r, d0, d, Abandon);
        return false;
      }
      cursor := r.cursor;
      if fate == Failed(true) {
        DevicePush(p, r, d0, d, CursorUnsure);
        return false;
      }
      held := r.cursor;
      DevicePush(p, r, d0, d, SetCursor);
      return true;
    }
  }

  /** Which step of the system one ring append was; a landed line may still be reported as refused. */
  lemma RingStep(p: Params, r: Response, d0: Device, d: Device, ring: seq<LetterId>, seen: seq<LetterId>, torn: string, ok: bool)
    requires AtLetter(d) && d.applying.value.put && d.applying.value.resp == r
    requires DeviceReaches(p, r, d0, d)
    requires seen == LastN(d.seen + [CurrentLetter(d).id], p.seenCap)
    requires ring == seen || ring == LastN(d.ring + [Name(torn + CurrentLetter(d).id.text)], p.seenCap) || (!ok && ring == d.ring)
    ensures DeviceReaches(p, r, d0, d.(seen := seen, ring := ring, applying := if ok then NextLetter(d) else None))
  {
    if !ok && ring == d.ring {
      DevicePush(p, r, d0, d, RingFails);
    } else {
      RingLanded(p, r, d0, d, ring, seen, torn);
      if !ok {
        DevicePush(p, r, d0, d.(seen := seen, ring := ring, applying := NextLetter(d)), Abandon);
      }
    }
  }

  lemma RingLanded(p: Params, r: Response, d0: Device, d: Device, ring: seq<LetterId>, seen: seq<LetterId>, torn: string)
    requires AtLetter(d) && d.applying.value.put && d.applying.value.resp == r
    requires DeviceReaches(p, r, d0, d)
    requires seen == LastN(d.seen + [CurrentLetter(d).id], p.seenCap)
    requires ring == seen || ring == LastN(d.ring + [Name(torn + CurrentLetter(d).id.text)], p.seenCap)
    ensures DeviceReaches(p, r, d0, d.(seen := seen, ring := ring, applying := NextLetter(d)))
  {
    var id := CurrentLetter(d).id;
    if ring == seen {
      DevicePush(p, r, d0, d, RingCompact);
    } else if torn == "" {
      assert torn + id.text == id.text;
      DevicePush(p, r, d0, d, RingAppend);
    } else {
      DevicePush(p, r, d0, d, RingMerged(Name(torn + id.text)));
    }
  }

  /** Evicting a set of letters, one file at a time. */
  lemma {:induction false} EvictAll(p: Params, r: Response, d0: Device, d: Device, doomed: set<LetterId>)
    requires DeviceReaches(p, r, d0, d) && doomed <= d.letters.Keys
    ensures DeviceReaches(p, r, d0, d.(letters := d.letters - doomed))
    decreases doomed
  {
    if doomed == {} {
      assert d.letters - doomed == d.letters;
    } else {
      var lid :| lid in doomed;
      DevicePush(p, r, d0, d, Evict(lid));
      var d1 := DeviceApply(p, d, Evict(lid));
      EvictAll(p, r, d0, d1, doomed - {lid});
      assert d1.letters - (doomed - {lid}) == d.letters - doomed;
    }
  }
}
