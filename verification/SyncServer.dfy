/**
 The server's half of the protocol as code (internal/syncsvc/outbound.go and syncsvc.go): each
 outbound letter is sent, then recorded, then acked. The method is shown to be a run of the step
 system, whatever the mail server answers and whichever record is refused.
 */
module SyncServer {
  import opened Basics
  import opened AckRing
  import opened Assembly
  import opened SyncSystem

  const SYS_CONTACT: string := "c_sys"
  const MAX_LOCAL_ID_BYTES: nat := 32

  /** The contact table as sending sees it: known ids, and which of them are active. */
  type Contacts = map<string, bool>

  /** One decoded letter of a request, with what validation looks at besides its text. */
  datatype Outgoing = Outgoing(item: Item, unknownFields: bool, idBytes: nat, blank: bool, graphemes: nat)

  /** What Submitter.Send came back with, and whether the mail server has the message. */
  datatype Smtp =
    | Took
    | TookThenError           // accepted, but the QUIT after it failed (smtp.go:139)
    | TookReplyLost           // accepted, but the connection broke before the reply (smtp.go:184, 200)
    | Undeliverable           // permanent refusal of this message
    | Failed                  // anything else: retry later
    | Unreachable             // no mail server

  predicate Accepts(smtp: Smtp)
  {
    smtp.Took? || smtp.TookThenError? || smtp.TookReplyLost?
  }

  datatype Verdict = Terminal(status: Status) | Retry | Abort

  /** outbound.go:201-217. */
  predicate Sendable(o: Outgoing, maxChars: int)
  {
    !o.unknownFields && o.idBytes <= MAX_LOCAL_ID_BYTES && !o.blank && o.graphemes <= maxChars
  }

  /** The letter is stopped before any send, with the terminal status it then gets. */
  function StoppedBy(contacts: Contacts, o: Outgoing, maxChars: int): (r: Option<Status>)
    ensures r.Some? ==> r.value != Sent
    ensures r.None? <==> o.item.note.contact in contacts && o.item.note.contact != SYS_CONTACT
                         && contacts[o.item.note.contact] && Sendable(o, maxChars)
  {
    if o.item.note.contact !in contacts && o.item.note.contact != SYS_CONTACT then Some(RejectedUnknownContact)
    else if o.item.note.contact == SYS_CONTACT then Some(RejectedUnknownContact)
    else if !contacts[o.item.note.contact] then Some(RejectedInactive)
    else if !Sendable(o, maxChars) then Some(Invalid)
    else None
  }

  // ---------------------------------------------------------------- runs of server steps

  /** The steps that are processOutbound's own. */
  predicate OutboundStep(st: ServerStep)
  {
    st.Replay? || st.Refuse? || st.SendOk? || st.SendUnsure? || st.SendFails? || st.RecordOk? || st.RecordUnsure? || st.RecordFails?
  }

  ghost predicate ServerRun(box: Mailbox, s: Server, steps: seq<ServerStep>, t: Server)
    decreases |steps|
  {
    if steps == [] then s == t
    else ServerEnabled(s, box, steps[0]) && OutboundStep(steps[0]) && ServerRun(box, ServerApply(s, box, steps[0]), steps[1..], t)
  }

  ghost predicate ServerReaches(box: Mailbox, s: Server, t: Server)
  {
    exists steps :: ServerRun(box, s, steps, t)
  }

  lemma {:induction false} ServerRunPush(box: Mailbox, s: Server, steps: seq<ServerStep>, t: Server, st: ServerStep)
    requires ServerRun(box, s, steps, t) && ServerEnabled(t, box, st) && OutboundStep(st)
    ensures ServerRun(box, s, steps + [st], ServerApply(t, box, st))
    decreases |steps|
  {
    if steps == [] {
      assert steps + [st] == [st] && [st][1..] == [];
    } else {
      assert (steps + [st])[1..] == steps[1..] + [st];
      ServerRunPush(box, ServerApply(s, box, steps[0]), steps[1..], t, st);
    }
  }

  lemma ServerStays(box: Mailbox, s: Server)
    ensures ServerReaches(box, s, s)
  {
    assert ServerRun(box, s, [], s);
  }

  lemma ServerPush(box: Mailbox, s: Server, t: Server, st: ServerStep)
    requires ServerReaches(box, s, t) && ServerEnabled(t, box, st) && OutboundStep(st)
    ensures ServerReaches(box, s, ServerApply(t, box, st))
  {
    var steps :| ServerRun(box, s, steps, t);
    ServerRunPush(box, s, steps, t, st);
  }

  lemma {:induction false} LiftServerRun(p: Params, s: State, steps: seq<ServerStep>, srv: Server)
    requires ServerRun(s.box, s.srv, steps, srv)
    ensures Reaches(p, s, s.(srv := srv))
    decreases |steps|
  {
    ReachesItself(p, s);
    if steps != [] {
      ReachesByStep(p, s, s, Srv(steps[0]));
      var u := Apply(p, s, Srv(steps[0]));
      LiftServerRun(p, u, steps[1..], srv);
      ReachesTransitive(p, s, u, s.(srv := srv));
    }
  }

  /** What the code does with the letters of a request is a run of the whole system that touches nothing else. */
  lemma ServerCodeIsSystemRun(p: Params, s: State, srv: Server)
    requires ServerReaches(s.box, s.srv, srv)
    ensures Reaches(p, s, s.(srv := srv))
  {
    var steps :| ServerRun(s.box, s.srv, steps, srv);
    LiftServerRun(p, s, steps, srv);
  }

  function ItemsOf(os: seq<Outgoing>): (r: seq<Item>)
    ensures |r| == |os| && forall i :: 0 <= i < |os| ==> r[i] == os[i].item
  {
    seq(|os|, i requires 0 <= i < |os| => os[i].item)
  }

  /** state.json as this handler uses it, and the outward history of the mail it caused. */
  class Handler {
    var disk: seq<Ack>          // the ring in state.json
    var acks: seq<Ack>          // the ring as published in RAM
    ghost var log: seq<Event>

    constructor (acks: seq<Ack>)
      ensures this.disk == this.acks == acks && log == [Restored(acks)]
    {
      this.disk := acks;
      this.acks := acks;
      this.log := [Restored(acks)];
    }

    ghost function View(req: Request, next: nat, granted: seq<Ack>, stage: Stage): Server
      reads this
    {
      Server(Rings(disk, acks), Some(Work(req, next, granted, stage)), log)
    }

    /** outbound.go:136-141 and store.go:83-106: written from the published state, and published once durable. */
    method RecordAck(a: Ack, fate: Fate) returns (ok: bool)
      modifies this`disk, this`acks
      ensures ok == fate.Done?
      ensures disk == if fate == Basics.Failed(false) then old(disk) else Record(old(acks), a)
      ensures acks == if ok then Record(old(acks), a) else old(acks)
    {
      var working := Record(acks, a);
      if fate != Basics.Failed(false) {
        disk := working;
      }
      if fate.Done? {
        acks := working;
      }
      return fate.Done?;
    }

    /** outbound.go:146-197. A status is terminal; anything else leaves the letter unacked. */
    method SendOne(contacts: Contacts, o: Outgoing, maxChars: int, smtp: Smtp) returns (v: Verdict)
      modifies this`log
      ensures var stopped := StoppedBy(contacts, o, maxChars);
              && (stopped.Some? ==> v == Terminal(stopped.value) && log == old(log))
              && (stopped.None? ==>
                    && log == old(log) + [Tried(o.item.id, o.item.note, Accepts(smtp))]
                    && v == match smtp
                            case Took => Terminal(Sent)
                            case TookThenError => Retry
                            case TookReplyLost => Abort
                            case Undeliverable => Terminal(RejectedUndeliverable)
                            case Failed => Retry
                            case Unreachable => Abort)
    {
      var stopped := StoppedBy(contacts, o, maxChars);
      if stopped.Some? {
        return Terminal(stopped.value);
      }
      log := log + [Tried(o.item.id, o.item.note, Accepts(smtp))];
      match smtp
      case Took => return Terminal(Sent);
      case TookThenError => return Retry;
      case TookReplyLost => return Abort;
      case Undeliverable => return Terminal(RejectedUndeliverable);
      case Failed => return Retry;
      case Unreachable => return Abort;
    }

    /** One letter that the ring does not know: send, record, ack, in that order. */
    method ProcessFresh(ghost s0: Server, ghost box: Mailbox, ghost req: Request, os: seq<Outgoing>, i: nat, granted: seq<Ack>,
                        contacts: Contacts, maxChars: int, smtp: Smtp, recordFate: Fate)
      returns (given: seq<Ack>, aborted: bool)
      requires i < |os| && req.items == ItemsOf(os)
      requires Lookup(acks, os[i].item.id).None? && ServerReaches(box, s0, View(req, i, granted, Items))
      modifies this
      ensures aborted ==> given == granted
      ensures ServerReaches(box, s0, View(req, i + 1, given, Items))
      ensures given == granted || exists st :: given == granted + [Ack(os[i].item.id, st)]
    {
      ghost var s1 := View(req, i, granted, Items);
      given, aborted := granted, false;
      var v := SendOne(contacts, os[i], maxChars, smtp);
      assert Current(s1.work.value) == os[i].item;
      if v.Abort? {
        ServerPush(box, s0, s1, if Accepts(smtp) then SendUnsure else SendFails);
        return granted, true;
      }
      if v.Retry? {
        ServerPush(box, s0, s1, if Accepts(smtp) then SendUnsure else SendFails);
        return;
      }
      ServerPush(box, s0, s1, if v.status == Sent then SendOk else Refuse(v.status));
      var ok := RecordAndAck(s0, box, req, os, i, granted, v.status, recordFate);
      given := if ok then granted + [Ack(os[i].item.id, v.status)] else granted;
    }

    /** outbound.go:117-131: record, and only then ack. */
    method RecordAndAck(ghost s0: Server, ghost box: Mailbox, ghost req: Request, os: seq<Outgoing>, i: nat, ghost granted: seq<Ack>,
                        status: Status, fate: Fate)
      returns (ok: bool)
      requires i < |os| && req.items == ItemsOf(os)
      requires ServerReaches(box, s0, View(req, i, granted, Recording(status)))
      modifies this
      ensures ok == fate.Done?
      ensures ServerReaches(box, s0, View(req, i + 1, if ok then granted + [Ack(os[i].item.id, status)] else granted, Items))
    {
      ghost var before := View(req, i, granted, Recording(status));
      assert Current(before.work.value) == os[i].item;
      var a := Ack(os[i].item.id, status);
      ok := RecordAck(a, fate);
      if ok {
        log := log + [Recorded(a.id, a.status), Acked(a.id, a.status)];
        ServerPush(box, s0, before, RecordOk);
      } else if fate == Basics.Failed(true) {
        log := log + [HalfRecorded(a.id, a.status)];
        ServerPush(box, s0, before, RecordUnsure);
      } else {
        ServerPush(box, s0, before, RecordFails);
      }
    }

    /**
     outbound.go:75-133. The ring is asked first; a known id gets its recorded answer and nothing
     else happens. None is the 503 of an unreachable mail server: no acks this time.
     */
    method ProcessOutbound(ghost box: Mailbox, cursor: Cursor, os: seq<Outgoing>,
                           contacts: Contacts, maxChars: int, smtp: nat -> Smtp, recordFates: nat -> Fate)
      returns (granted: Option<seq<Ack>>)
      modifies this
      ensures var req := Request(cursor, ItemsOf(os));
              var start := old(View(Request(cursor, ItemsOf(os)), 0, [], Items));
              && (granted.Some? ==> ServerReaches(box, start, View(req, |os|, granted.value, Items)))
              && (granted.None? ==> exists i, given :: ServerReaches(box, start, View(req, i, given, Items)))
    {
      ghost var req := Request(cursor, ItemsOf(os));
      ghost var start := View(req, 0, [], Items);
      ServerStays(box, start);
      var given: seq<Ack> := [];
      var i := 0;
      while i < |os|
        invariant i <= |os| && ServerReaches(box, start, View(req, i, given, Items))
      {
        var id := os[i].item.id;
        var known := Lookup(acks, id);
        if known.Some? {
          ghost var s := View(req, i, given, Items);
          assert Current(s.work.value) == os[i].item;
          log := log + [Acked(id, known.value)];
          ServerPush(box, start, s, Replay);
          given := given + [Ack(id, known.value)];
        } else {
          var aborted;
          given, aborted := ProcessFresh(start, box, req, os, i, given, contacts, maxChars, smtp(i), recordFates(i));
          if aborted {
            assert ServerReaches(box, start, View(req, i + 1, given, Items));
            return None;
          }
        }
        i := i + 1;
      }
      return Some(given);
    }
  }
}
