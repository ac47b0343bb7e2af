/**
 No child letter is lost: an invariant of every run of the sync system in which the id counter is
 read at every boot and no state.json ever held a "sent" it should not.
 */
module SyncOutbound {
  import opened Basics
  import opened AckRing
  import opened Assembly
  import opened SyncSystem

  type Notes = map<nat, Note>

  // ---------------------------------------------------------------- no letter is lost

  /** Every note ever written to the outbox is still there, was discarded, or was sent as written. */
  ghost predicate NoNoteLost(s: State)
  {
    forall id :: id in s.hist.written ==>
      id in s.dev.outbox || id in s.hist.discarded || Tried(id, s.hist.written[id], true) in s.srv.log
  }

  /** A "sent" is backed by an accepted send of the very note written under that id. */
  ghost predicate Backed(notes: Notes, log: seq<Event>, id: nat)
  {
    id in notes && Tried(id, notes[id], true) in log
  }

  ghost predicate HonestRing(notes: Notes, log: seq<Event>, ring: seq<Ack>)
  {
    forall id: nat :: id > 0 && Lookup(ring, id) == Some(Sent) ==> Backed(notes, log, id)
  }

  ghost predicate HonestAcks(notes: Notes, log: seq<Event>, acks: seq<Ack>)
  {
    forall k :: 0 <= k < |acks| && acks[k].status == Sent ==> Backed(notes, log, acks[k].id)
  }

  ghost predicate HonestItems(notes: Notes, items: seq<Item>)
  {
    forall k :: 0 <= k < |items| ==> items[k].id > 0 && items[k].id in notes && notes[items[k].id] == items[k].note
  }

  /** Flash and RAM hold the notes that were written, under ids already spent. */
  ghost predicate OutboxInv(d: Device, notes: Notes)
  {
    && (forall id :: id in d.outbox ==> id in notes && d.outbox[id].note == notes[id])
    && (forall id :: id in d.entries ==> id in notes && d.entries[id].note == notes[id])
    && d.highWater <= d.counter
    && (forall id :: id in notes ==> 0 < id <= d.highWater)
    && (d.adding.Some? ==> d.adding.value.id == d.highWater && d.highWater > 0 && d.highWater !in notes)
  }

  ghost predicate HonestRings(notes: Notes, log: seq<Event>, rs: Rings)
  {
    HonestRing(notes, log, rs.disk) && HonestRing(notes, log, rs.ram)
  }

  /** Both rings are what the log says, and they never held a false "sent". */
  ghost predicate RingInv(rs: Rings, log: seq<Event>, notes: Notes)
  {
    && rs == RingsOf(log)
    && forall k :: 0 <= k <= |log| ==> HonestRings(notes, log, RingsOf(log[..k]))
  }

  ghost predicate WorkInv(w: Work, log: seq<Event>, notes: Notes)
  {
    && HonestItems(notes, w.req.items) && HonestAcks(notes, log, w.acks)
    && (w.stage == Recording(Sent) ==> w.next < |w.req.items| && Backed(notes, log, Current(w).id))
  }

  ghost predicate ServerInv(srv: Server, notes: Notes)
  {
    && RingInv(srv.rings, srv.log, notes)
    && (srv.work.Some? ==> WorkInv(srv.work.value, srv.log, notes))
  }

  ghost predicate NetInv(net: Net, d: Device, notes: Notes, log: seq<Event>)
  {
    && (forall req :: req in net.requests ==> HonestItems(notes, req.items))
    && (forall resp :: resp in net.responses ==> HonestAcks(notes, log, resp.acks))
    && (d.applying.Some? ==> d.applying.value.resp in net.responses)
  }

  ghost predicate OutboundInv(s: State)
  {
    && NoNoteLost(s)
    && OutboxInv(s.dev, s.hist.written)
    && ServerInv(s.srv, s.hist.written)
    && NetInv(s.net, s.dev, s.hist.written, s.srv.log)
  }

  /** Later notes and later events take nothing back. */
  ghost predicate Extends(notes: Notes, log: seq<Event>, notes': Notes, log': seq<Event>)
  {
    && (forall id :: id in notes ==> id in notes' && notes'[id] == notes[id])
    && log <= log'
  }

  // ---------------------------------------------------------------- the device's steps

  /** Steps that give out an id or write an entry. */
  predicate Adds(ds: DeviceStep)
  {
    ds.AddCounter? || ds.AddCounterUnsure? || ds.AddEntry? || ds.AddUnsure?
  }

  /** Steps that take an entry out or rewrite one. */
  predicate Takes(ds: DeviceStep)
  {
    ds.Discard? || ds.DiscardUnsure? || ds.ResolveAck? || ds.ResolveUnsure? || ds.ResolveFails?
  }

  lemma OutboxUntouched(p: Params, d: Device, ds: DeviceStep)
    requires DeviceEnabled(p, d, ds) && !Adds(ds) && !Takes(ds) && !ds.Reboot?
    ensures var d' := DeviceApply(p, d, ds); d'.outbox == d.outbox && d'.entries == d.entries
  {
  }

  lemma IdsUntouched(p: Params, d: Device, ds: DeviceStep)
    requires DeviceEnabled(p, d, ds) && !Adds(ds) && !Takes(ds) && !ds.Reboot?
    ensures var d' := DeviceApply(p, d, ds);
            d'.counter == d.counter && d'.highWater == d.highWater && d'.adding == if ds.AddFails? then None else d.adding
  {
  }

  lemma CountersUntouched(p: Params, d: Device, ds: DeviceStep)
    requires DeviceEnabled(p, d, ds) && Takes(ds)
    ensures var d' := DeviceApply(p, d, ds);
            d'.counter == d.counter && d'.highWater == d.highWater && d'.adding == d.adding
  {
  }

  /** What each of those steps leaves in the index. */
  lemma EntriesTaken(p: Params, d: Device, ds: DeviceStep)
    requires DeviceEnabled(p, d, ds) && Takes(ds)
    ensures ds.ResolveAck? || ds.ResolveUnsure? || ds.ResolveFails? ==> AtAck(d)
    ensures var d' := DeviceApply(p, d, ds);
            && (ds.Discard? ==> d'.entries == d.entries - {ds.id})
            && (ds.DiscardUnsure? ==> d'.entries == d.entries)
            && (AtAck(d) && ds.ResolveAck? ==> d'.entries == Resolved(d.entries, CurrentAck(d)))
            && (AtAck(d) && (ds.ResolveUnsure? || ds.ResolveFails?) ==> d'.entries == Marked(d.entries, CurrentAck(d)))
  {
  }

  /** And in the files. */
  lemma FilesTaken(p: Params, d: Device, ds: DeviceStep)
    requires DeviceEnabled(p, d, ds) && Takes(ds)
    ensures ds.ResolveAck? || ds.ResolveUnsure? || ds.ResolveFails? ==> AtAck(d)
    ensures var d' := DeviceApply(p, d, ds);
            && (ds.Discard? || ds.DiscardUnsure? ==> d'.outbox == d.outbox - {ds.id})
            && (ds.ResolveFails? ==> d'.outbox == d.outbox)
            && (AtAck(d) && (ds.ResolveAck? || ds.ResolveUnsure?) ==> d'.outbox == ResolvedFiles(d.outbox, d.entries, CurrentAck(d)))
  {
  }

  /** The notes written after a step. */
  function WrittenBy(notes: Notes, d: Device, ds: DeviceStep): Notes
    requires ds.AddEntry? || ds.AddUnsure? ==> d.adding.Some?
  {
    if ds.AddEntry? || ds.AddUnsure? then notes[d.adding.value.id := d.adding.value.note] else notes
  }

  lemma WrittenAfter(h: History, d: Device, ds: DeviceStep, d': Device)
    requires ds.AddEntry? || ds.AddUnsure? ==> d.adding.Some?
    requires ds.PutLetter? ==> AtLetter(d)
    requires ds.SetCursor? || ds.CursorUnsure? ==> AtCursor(d)
    ensures DeviceHistory(h, d, ds, d').written == WrittenBy(h.written, d, ds)
  {
  }

  lemma DiscardedAfter(h: History, d: Device, ds: DeviceStep, d': Device)
    requires ds.AddEntry? || ds.AddUnsure? ==> d.adding.Some?
    requires ds.PutLetter? ==> AtLetter(d)
    requires ds.SetCursor? || ds.CursorUnsure? ==> AtCursor(d)
    ensures DeviceHistory(h, d, ds, d').discarded == h.discarded + (if ds.Discard? || ds.DiscardUnsure? then {ds.id} else {})
  {
  }

  lemma AddsKeepOutbox(p: Params, d: Device, notes: Notes, ds: DeviceStep)
    requires OutboxInv(d, notes) && DeviceEnabled(p, d, ds) && Adds(ds)
    ensures OutboxInv(DeviceApply(p, d, ds), WrittenBy(notes, d, ds))
  {
    match ds
    case AddCounter(note) =>
    case AddCounterUnsure =>
    case AddEntry =>
    case AddUnsure =>
  }

  lemma TakesKeepOutbox(p: Params, d: Device, notes: Notes, ds: DeviceStep)
    requires OutboxInv(d, notes) && DeviceEnabled(p, d, ds) && Takes(ds)
    ensures OutboxInv(DeviceApply(p, d, ds), notes)
  {
    CountersUntouched(p, d, ds);
    EntriesTaken(p, d, ds);
    FilesTaken(p, d, ds);
  }

  lemma DeviceKeepsOutbox(p: Params, d: Device, h: History, ds: DeviceStep)
    requires OutboxInv(d, h.written) && DeviceEnabled(p, d, ds) && !p.blindCounter
    ensures var d' := DeviceApply(p, d, ds); OutboxInv(d', DeviceHistory(h, d, ds, d').written)
  {
    WrittenAfter(h, d, ds, DeviceApply(p, d, ds));
    if Adds(ds) {
      AddsKeepOutbox(p, d, h.written, ds);
    } else if Takes(ds) {
      TakesKeepOutbox(p, d, h.written, ds);
    } else if !ds.Reboot? {
      OutboxUntouched(p, d, ds);
      IdsUntouched(p, d, ds);
    }
  }

  /** A note leaves the outbox only by the child's hand or by a "sent". */
  predicate MayDrop(d: Device, ds: DeviceStep, id: nat)
  {
    || ((ds.Discard? || ds.DiscardUnsure?) && ds.id == id)
    || ((ds.ResolveAck? || ds.ResolveUnsure?) && AtAck(d) && CurrentAck(d) == Ack(id, Sent))
  }

  lemma DeviceDropsOnlyAcked(p: Params, d: Device, ds: DeviceStep, id: nat)
    requires DeviceEnabled(p, d, ds) && id in d.outbox
    ensures id in DeviceApply(p, d, ds).outbox || MayDrop(d, ds, id)
  {
    if Takes(ds) {
      FilesTaken(p, d, ds);
    } else if !Adds(ds) && !ds.Reboot? {
      OutboxUntouched(p, d, ds);
    }
  }

  lemma DeviceLosesNoNote(p: Params, s: State, ds: DeviceStep)
    requires OutboundInv(s) && Enabled(p, s, Dev(ds))
    ensures NoNoteLost(Apply(p, s, Dev(ds)))
  {
    var t := Apply(p, s, Dev(ds));
    WrittenAfter(s.hist, s.dev, ds, t.dev);
    DiscardedAfter(s.hist, s.dev, ds, t.dev);
    forall id | id in t.hist.written
      ensures id in t.dev.outbox || id in t.hist.discarded || Tried(id, t.hist.written[id], true) in t.srv.log
    {
      if id in s.dev.outbox {
        DeviceDropsOnlyAcked(p, s.dev, ds, id);
        if id !in t.dev.outbox && AtAck(s.dev) {
          assert HonestAcks(s.hist.written, s.srv.log, s.dev.applying.value.resp.acks);
        }
      }
    }
  }

  lemma DeviceKeepsOutbound(p: Params, s: State, ds: DeviceStep)
    requires OutboundInv(s) && Enabled(p, s, Dev(ds)) && !p.blindCounter
    ensures OutboundInv(Apply(p, s, Dev(ds)))
  {
    var t := Apply(p, s, Dev(ds));
    DeviceKeepsOutbox(p, s.dev, s.hist, ds);
    DeviceLosesNoNote(p, s, ds);
    assert t.srv == s.srv && t.net == s.net;
    assert t.dev.applying.Some? ==> t.dev.applying.value.resp in s.net.responses;
    assert Extends(s.hist.written, s.srv.log, t.hist.written, t.srv.log);
    forall k | 0 <= k <= |s.srv.log|
      ensures HonestRings(t.hist.written, t.srv.log, RingsOf(t.srv.log[..k]))
    {
      assert HonestRings(s.hist.written, s.srv.log, RingsOf(s.srv.log[..k]));
    }
  }

  /** Asking puts only written notes on the wire. */
  lemma AskKeepsOutbound(p: Params, s: State, req: Request)
    requires OutboundInv(s) && Enabled(p, s, Ask(req))
    ensures OutboundInv(Apply(p, s, Ask(req)))
  {
    assert HonestItems(s.hist.written, req.items);
  }

  /** A longer log backs every ring it ever held, plus the one it holds now. */
  lemma RingsStayHonest(notes: Notes, log: seq<Event>, log': seq<Event>)
    requires forall k :: 0 <= k <= |log| ==> HonestRings(notes, log, RingsOf(log[..k]))
    requires log <= log'
    requires forall k :: |log| < k <= |log'| ==> HonestRings(notes, log', RingsOf(log'[..k]))
    ensures forall k :: 0 <= k <= |log'| ==> HonestRings(notes, log', RingsOf(log'[..k]))
  {
    forall k | 0 <= k <= |log'|
      ensures HonestRings(notes, log', RingsOf(log'[..k]))
    {
      if k <= |log| {
        assert log'[..k] == log[..k];
        assert HonestRings(notes, log, RingsOf(log[..k]));
      }
    }
  }

  /** Recording an honest answer keeps the ring honest. */
  lemma RecordKeepsHonest(notes: Notes, log: seq<Event>, ring: seq<Ack>, a: Ack)
    requires HonestRing(notes, log, ring) && (a.status == Sent ==> Backed(notes, log, a.id))
    ensures HonestRing(notes, log, Record(ring, a))
  {
    forall id: nat | id > 0 && Lookup(Record(ring, a), id) == Some(Sent)
      ensures Backed(notes, log, id)
    {
      RecordLookup(ring, a, id);
    }
  }

  /** An event that records no false "sent", and restores nothing but a ring once held. */
  ghost predicate HonestEvent(notes: Notes, log: seq<Event>, e: Event)
  {
    && (e.Recorded? || e.HalfRecorded? ==> e.status == Sent ==> Backed(notes, log, e.id))
    && (e.Restored? ==> exists k :: 0 <= k <= |log| && e.ring == RingsOf(log[..k]).disk)
  }

  lemma PushedHonest(notes: Notes, log: seq<Event>, rs: Rings, e: Event)
    requires HonestRings(notes, log, rs) && HonestEvent(notes, log, e)
    requires forall k :: 0 <= k <= |log| ==> HonestRings(notes, log, RingsOf(log[..k]))
    ensures HonestRings(notes, log, Pushed(rs, e))
  {
    if e.Recorded? || e.HalfRecorded? {
      RecordKeepsHonest(notes, log, rs.ram, Ack(e.id, e.status));
    }
  }

  /** Appending an honest event keeps every ring honest. */
  lemma PushKeepsHonest(notes: Notes, rs: Rings, log: seq<Event>, e: Event)
    requires RingInv(rs, log, notes) && HonestEvent(notes, log, e)
    ensures RingInv(Pushed(rs, e), log + [e], notes)
  {
    var log' := log + [e];
    assert log[..|log|] == log && log'[..|log'|] == log' && log'[..|log|] == log;
    assert HonestRings(notes, log, RingsOf(log));
    PushedHonest(notes, log, rs, e);
    assert HonestRings(notes, log', RingsOf(log'));
    RingsStayHonest(notes, log, log');
  }

  /** A send that was tried, whatever came of it. */
  predicate Sends(ss: ServerStep)
  {
    ss.Refuse? || ss.SendOk? || ss.SendUnsure? || ss.SendFails?
  }

  lemma SendKeepsRing(srv: Server, box: Mailbox, notes: Notes, ss: ServerStep)
    requires ServerInv(srv, notes) && ServerEnabled(srv, box, ss) && Sends(ss)
    ensures var srv' := ServerApply(srv, box, ss); RingInv(srv'.rings, srv'.log, notes)
  {
    var it := Current(srv.work.value);
    PushKeepsHonest(notes, srv.rings, srv.log, Tried(it.id, it.note, ss.SendOk? || ss.SendUnsure?));
  }

  lemma RecordKeepsRing(srv: Server, box: Mailbox, notes: Notes, ss: ServerStep)
    requires ServerInv(srv, notes) && ServerEnabled(srv, box, ss) && (ss.RecordOk? || ss.RecordUnsure?)
    ensures var srv' := ServerApply(srv, box, ss); RingInv(srv'.rings, srv'.log, notes)
  {
    var w := srv.work.value;
    var id, status := Current(w).id, w.stage.status;
    if ss.RecordUnsure? {
      PushKeepsHonest(notes, srv.rings, srv.log, HalfRecorded(id, status));
    } else {
      var e, f := Recorded(id, status), Acked(id, status);
      PushKeepsHonest(notes, srv.rings, srv.log, e);
      PushKeepsHonest(notes, Pushed(srv.rings, e), srv.log + [e], f);
      assert srv.log + [e, f] == srv.log + [e] + [f];
    }
  }

  lemma ServerKeepsRing(srv: Server, box: Mailbox, notes: Notes, ss: ServerStep)
    requires ServerInv(srv, notes) && ServerEnabled(srv, box, ss)
    ensures var srv' := ServerApply(srv, box, ss); RingInv(srv'.rings, srv'.log, notes)
  {
    if Sends(ss) {
      SendKeepsRing(srv, box, notes, ss);
    } else if ss.RecordOk? || ss.RecordUnsure? {
      RecordKeepsRing(srv, box, notes, ss);
    } else if ss.Replay? {
      var id := Current(srv.work.value).id;
      PushKeepsHonest(notes, srv.rings, srv.log, Acked(id, Lookup(srv.rings.ram, id).value));
    } else if ss.Rewrite? {
      PushKeepsHonest(notes, srv.rings, srv.log, Rewritten);
    } else if ss.Restart? {
      PushKeepsHonest(notes, srv.rings, srv.log, Restarted);
    } else if ss.RestoreBackup? {
      PushKeepsHonest(notes, srv.rings, srv.log, Restored(RingsOf(srv.log[..ss.k]).disk));
    }
  }

  lemma ServerKeepsWork(srv: Server, box: Mailbox, notes: Notes, ss: ServerStep)
    requires ServerInv(srv, notes) && ServerEnabled(srv, box, ss)
    requires ss.Receive? ==> HonestItems(notes, ss.req.items)
    ensures var srv' := ServerApply(srv, box, ss); srv'.work.Some? ==> WorkInv(srv'.work.value, srv'.log, notes)
  {
    if ss.Replay? {
      assert srv.log[..|srv.log|] == srv.log;
      assert HonestRings(notes, srv.log, srv.rings);
    } else if ss.SendOk? {
      var it := Current(srv.work.value);
      var log' := srv.log + [Tried(it.id, it.note, true)];
      assert log'[|srv.log|] == Tried(it.id, it.note, true);
    }
  }

  lemma LogGrows(srv: Server, box: Mailbox, ss: ServerStep)
    requires ServerEnabled(srv, box, ss)
    ensures srv.log <= ServerApply(srv, box, ss).log
  {
  }

  /** A server step touches the server, and may send one response with the acks given so far. */
  lemma ServerMoves(p: Params, s: State, ss: ServerStep)
    requires Enabled(p, s, Srv(ss))
    ensures var t := Apply(p, s, Srv(ss));
            && t.srv == ServerApply(s.srv, s.box, ss) && t.dev == s.dev && t.hist == s.hist
            && t.net.requests == s.net.requests && s.net.responses <= t.net.responses
            && forall resp :: resp in t.net.responses ==>
                 resp in s.net.responses || (s.srv.work.Some? && resp.acks == s.srv.work.value.acks)
  {
  }

  lemma NotesStay(s: State, t: State)
    requires NoNoteLost(s) && t.dev == s.dev && t.hist == s.hist && s.srv.log <= t.srv.log
    ensures NoNoteLost(t)
  {
  }

  lemma NetStays(s: State, t: State)
    requires NetInv(s.net, s.dev, s.hist.written, s.srv.log) && s.srv.log <= t.srv.log
    requires t.dev == s.dev && t.hist == s.hist && t.net.requests == s.net.requests && s.net.responses <= t.net.responses
    requires forall resp :: resp in t.net.responses && resp !in s.net.responses ==> HonestAcks(s.hist.written, s.srv.log, resp.acks)
    ensures NetInv(t.net, t.dev, t.hist.written, t.srv.log)
  {
    forall resp | resp in t.net.responses
      ensures HonestAcks(t.hist.written, t.srv.log, resp.acks)
    {
      assert HonestAcks(s.hist.written, s.srv.log, resp.acks);
    }
  }

  lemma ServerKeepsOutbound(p: Params, s: State, ss: ServerStep)
    requires OutboundInv(s) && Enabled(p, s, Srv(ss))
    ensures OutboundInv(Apply(p, s, Srv(ss)))
  {
    var t := Apply(p, s, Srv(ss));
    assert ss.Receive? ==> HonestItems(s.hist.written, ss.req.items);
    ServerKeepsRing(s.srv, s.box, s.hist.written, ss);
    ServerKeepsWork(s.srv, s.box, s.hist.written, ss);
    LogGrows(s.srv, s.box, ss);
    ServerMoves(p, s, ss);
    NotesStay(s, t);
    NetStays(s, t);
  }

  lemma StepKeepsOutbound(p: Params, s: State, st: Step)
    requires OutboundInv(s) && Enabled(p, s, st) && !p.blindCounter
    ensures OutboundInv(Apply(p, s, st))
  {
    match st
    case Dev(ds) => DeviceKeepsOutbound(p, s, ds);
    case Ask(req) => AskKeepsOutbound(p, s, req);
    case Srv(ss) => ServerKeepsOutbound(p, s, ss);
    case _ =>
  }

  lemma {:induction false} RunKeepsOutbound(p: Params, s: State, steps: seq<Step>, t: State)
    requires OutboundInv(s) && IsRun(p, s, steps, t) && !p.blindCounter
    ensures OutboundInv(t)
    decreases |steps|
  {
    if steps != [] {
      StepKeepsOutbound(p, s, steps[0]);
      RunKeepsOutbound(p, Apply(p, s, steps[0]), steps[1..], t);
    }
  }

  /** The ring holds no "sent" for an id the formatted device has yet to give out. */
  ghost predicate CleanRing(ring: seq<Ack>)
  {
    forall id: nat :: id > 0 ==> Lookup(ring, id) != Some(Sent)
  }

  /** Nor does any backup of it. */
  ghost predicate CleanBackups(log: seq<Event>)
    requires Backups(log)
  {
    forall k :: 0 <= k < |log| ==> CleanRing(log[k].ring)
  }

  lemma InitOutbound(s: State)
    requires Init(s) && CleanBackups(s.srv.log)
    ensures OutboundInv(s)
  {
    var log := s.srv.log;
    forall k | 0 <= k <= |log|
      ensures HonestRings(map[], log, RingsOf(log[..k]))
    {
      if k > 0 {
        assert log[..k][..k - 1] == log[..k - 1] && log[..k][k - 1] == log[k - 1];
        assert CleanRing(log[k - 1].ring);
      }
    }
  }
}
