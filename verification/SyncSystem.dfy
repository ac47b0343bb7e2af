/**
 The sync protocol as one step system: the device's flash and RAM, the server's ack ring and
 its request in progress, INBOX, and a network that keeps every message ever sent, so that a
 request or a response may be lost, delayed, repeated or reordered at will.

 One step holds at most one durable write. A crash is a step of its own, so it may fall
 between any two writes on either side.
 */
module SyncSystem {
  import opened Basics
  import opened AckRing
  import opened Assembly
  import SeenRing

  /** A child's letter. Local ids are the numbers behind the device's zero-padded strings. */
  datatype Note = Note(contact: string, subject: string, body: string)
  datatype Item = Item(id: nat, note: Note)

  /** Blank is the empty or undecodable cursor; a device never looks inside one. */
  datatype Cursor = Blank | At(validity: nat, uid: nat)

  datatype Request = Request(cursor: Cursor, items: seq<Item>)

  /**
   Why a message may lie below a cursor without its letter: (UIDVALIDITY, UID) of messages whose
   sender resolved to nobody, and of messages outside the window of a resync.
   */
  datatype Excuses = Excuses(strangers: set<(nat, nat)>, aged: set<(nat, nat)>)

  function Together(a: Excuses, b: Excuses): Excuses
  {
    Excuses(a.strangers + b.strangers, a.aged + b.aged)
  }

  /** `excused` is not on the wire: it is what building this very response left out. */
  datatype Response = Response(acks: seq<Ack>, letters: seq<Letter>, cursor: Cursor, more: bool, excused: Excuses)

  // ---------------------------------------------------------------- the device

  datatype Entry = Entry(note: Note, reject: Option<Status>)
  datatype Stored = Stored(letter: Letter, unread: bool)

  /** A response half applied: acks and letters done, and whether the next letter is on flash. */
  datatype Applying = Applying(resp: Response, acks: nat, letters: nat, put: bool)

  datatype Device = Device(
    counter: nat,                        // local_id high-water file
    highWater: nat,                      // RAM: the highest local id given out
    outbox: map<nat, Entry>,             // outbox/ files
    letters: map<LetterId, Stored>,      // letters/ files
    ring: seq<LetterId>,                 // the newest lines of the seen file
    cursor: Cursor,                      // state file
    held: Cursor,                        // RAM: the cursor a request will carry
    entries: map<nat, Entry>,            // RAM: the outbox index
    seen: seq<LetterId>,                 // RAM: the seen ring
    adding: Option<Item>,                // RAM: Outbox::Add between its two writes
    applying: Option<Applying>)          // RAM: ApplyResponse between two writes

  /**
   Store constants: the outbox cap and the seen-ring capacity; and whether a boot may fail to read
   the counter file, which FileOutbox takes for a counter of zero (store.cpp:362-365).
   */
  datatype Params = Params(outboxCap: nat, seenCap: nat, blindCounter: bool)

  /**
   What a boot finds: which files can be read, the entries whose files cannot, and whether the ring
   file has grown so long that it is compacted (store.cpp:458).
   */
  datatype Found = Found(counter: bool, ring: bool, state: bool, missed: set<nat>, compacts: bool)

  const ALL_FOUND: Found := Found(true, true, true, {}, false)

  datatype DeviceStep =
    | AddCounter(note: Note)             // Add: counter written
    | AddCounterUnsure                   // Add: counter written, but reported as refused
    | AddEntry                           // Add: entry written
    | AddUnsure                          // Add: entry written, but reported as refused
    | AddFails                           // Add: entry write refused
    | Discard(id: nat)
    | DiscardUnsure(id: nat)             // file removed, but reported as refused
    | MarkRead(lid: LetterId)
    | Begin(resp: Response)
    | ResolveAck                         // step 2 of ApplyResponse, write done
    | ResolveUnsure                      // step 2, write done but reported as refused: abandon
    | ResolveFails                       // step 2, write refused: abandon
    | SkipSeen                           // step 4: already in the ring
    | PutLetter                          // step 4: letter written
    | RingAppend                         // step 4: ring line appended
    | RingCompact                        // step 4: ring file rewritten
    | RingMerged(junk: LetterId)         // step 4: line merged with a torn tail
    | RingFails                          // step 4: append refused: abandon
    | Evict(lid: LetterId)
    | SetCursor                          // step 6
    | CursorUnsure                       // step 6, written but reported as refused: abandon
    | RewriteState                       // another field of the state file changes
    | Abandon                            // any other refused write, or power-independent stop
    | Reboot(found: Found)               // power cut: RAM is rebuilt from flash

  /** "l-" and ten hex characters. */
  const LETTER_ID_CHARS: nat := 12

  function SendableIds(entries: map<nat, Entry>): (s: set<nat>)
  {
    set id | id in entries && entries[id].reject.None?
  }

  predicate DeviceEnabled(p: Params, d: Device, st: DeviceStep)
  {
    match st
    case AddCounter(_) => d.adding.None? && |SendableIds(d.entries)| < p.outboxCap
    case AddCounterUnsure => d.adding.None? && |SendableIds(d.entries)| < p.outboxCap
    case AddEntry => d.adding.Some?
    case AddUnsure => d.adding.Some?
    case AddFails => d.adding.Some?
    case Discard(id) => id in d.entries
    case DiscardUnsure(id) => id in d.entries
    case MarkRead(lid) => lid in d.letters
    case Begin(_) => d.applying.None?
    case ResolveAck => AtAck(d)
    case ResolveUnsure => AtAck(d) && CurrentAck(d).id in d.entries
    case ResolveFails => AtAck(d)
    case SkipSeen => AtLetter(d) && !d.applying.value.put && CurrentLetter(d).id in d.seen
    case PutLetter => AtLetter(d) && !d.applying.value.put && CurrentLetter(d).id !in d.seen
    case RingAppend => AtLetter(d) && d.applying.value.put
    case RingCompact => AtLetter(d) && d.applying.value.put
    case RingMerged(junk) => AtLetter(d) && d.applying.value.put && |junk.text| > |CurrentLetter(d).id.text|
    case RingFails => AtLetter(d) && d.applying.value.put
    case Evict(lid) => lid in d.letters
    case SetCursor => AtCursor(d)
    case CursorUnsure => AtCursor(d)
    case RewriteState => true
    case Abandon => true
    case Reboot(found) => found.counter || p.blindCounter
  }

  predicate AtAck(d: Device)
  {
    d.applying.Some? && d.applying.value.acks < |d.applying.value.resp.acks|
  }

  function CurrentAck(d: Device): Ack
    requires AtAck(d)
  {
    d.applying.value.resp.acks[d.applying.value.acks]
  }

  predicate AtLetter(d: Device)
  {
    && d.applying.Some?
    && d.applying.value.acks == |d.applying.value.resp.acks|
    && d.applying.value.letters < |d.applying.value.resp.letters|
  }

  predicate AtCursor(d: Device)
  {
    && d.applying.Some?
    && d.applying.value.acks == |d.applying.value.resp.acks|
    && d.applying.value.letters == |d.applying.value.resp.letters|
    && !d.applying.value.put
  }

  function CurrentLetter(d: Device): Letter
    requires AtLetter(d)
  {
    d.applying.value.resp.letters[d.applying.value.letters]
  }

  /** Outbox::Resolve on one copy of the outbox. */
  function Resolved(box: map<nat, Entry>, a: Ack): map<nat, Entry>
  {
    if a.id !in box then box
    else if a.status == Sent then box - {a.id}
    else box[a.id := box[a.id].(reject := Some(a.status))]
  }

  /** What Outbox::Resolve does to the files: a reject rewrites the file of whatever entry the index holds. */
  function ResolvedFiles(files: map<nat, Entry>, entries: map<nat, Entry>, a: Ack): map<nat, Entry>
  {
    if a.id !in entries then files
    else if a.status == Sent then files - {a.id}
    else files[a.id := entries[a.id].(reject := Some(a.status))]
  }

  /** And what is left of the index when the write is refused: a reject was marked before it (store.cpp:308-310). */
  function Marked(entries: map<nat, Entry>, a: Ack): map<nat, Entry>
  {
    if a.status == Sent then entries else Resolved(entries, a)
  }

  /** A letter is written over itself without touching its unread flag. */
  function Put(letters: map<LetterId, Stored>, l: Letter): map<LetterId, Stored>
  {
    letters[l.id := Stored(l, if l.id in letters then letters[l.id].unread else true)]
  }

  function NextLetter(d: Device): Option<Applying>
    requires d.applying.Some?
  {
    Some(d.applying.value.(letters := d.applying.value.letters + 1, put := false))
  }

  function DeviceApply(p: Params, d: Device, st: DeviceStep): Device
    requires DeviceEnabled(p, d, st)
  {
    match st
    case AddCounter(note) =>
      d.(counter := d.highWater + 1, highWater := d.highWater + 1, adding := Some(Item(d.highWater + 1, note)))
    case AddCounterUnsure => d.(counter := d.highWater + 1)
    case AddEntry =>
      var it := d.adding.value;
      d.(outbox := d.outbox[it.id := Entry(it.note, None)],
         entries := d.entries[it.id := Entry(it.note, None)],
         adding := None)
    case AddUnsure =>
      var it := d.adding.value;
      d.(outbox := d.outbox[it.id := Entry(it.note, None)], adding := None)
    case AddFails => d.(adding := None)
    case Discard(id) => d.(outbox := d.outbox - {id}, entries := d.entries - {id})
    case DiscardUnsure(id) => d.(outbox := d.outbox - {id})
    case MarkRead(lid) => d.(letters := d.letters[lid := d.letters[lid].(unread := false)])
    case Begin(resp) => d.(applying := Some(Applying(resp, 0, 0, false)))
    case ResolveAck =>
      d.(outbox := ResolvedFiles(d.outbox, d.entries, CurrentAck(d)),
         entries := Resolved(d.entries, CurrentAck(d)),
         applying := Some(d.applying.value.(acks := d.applying.value.acks + 1)))
    case ResolveUnsure =>
      d.(outbox := ResolvedFiles(d.outbox, d.entries, CurrentAck(d)),
         entries := Marked(d.entries, CurrentAck(d)), applying := None)
    case ResolveFails => d.(entries := Marked(d.entries, CurrentAck(d)), applying := None)
    case SkipSeen => d.(applying := NextLetter(d))
    case PutLetter =>
      d.(letters := Put(d.letters, CurrentLetter(d)), applying := Some(d.applying.value.(put := true)))
    case RingAppend =>
      d.(seen := LastN(d.seen + [CurrentLetter(d).id], p.seenCap),
         ring := LastN(d.ring + [CurrentLetter(d).id], p.seenCap),
         applying := NextLetter(d))
    case RingCompact =>
      var seen := LastN(d.seen + [CurrentLetter(d).id], p.seenCap);
      d.(seen := seen, ring := seen, applying := NextLetter(d))
    case RingMerged(junk) =>
      d.(seen := LastN(d.seen + [CurrentLetter(d).id], p.seenCap),
         ring := LastN(d.ring + [junk], p.seenCap),
         applying := NextLetter(d))
    case RingFails =>
      d.(seen := LastN(d.seen + [CurrentLetter(d).id], p.seenCap), applying := None)
    case Evict(lid) => d.(letters := d.letters - {lid})
    case SetCursor =>
      d.(cursor := d.applying.value.resp.cursor, held := d.applying.value.resp.cursor, applying := None)
    case CursorUnsure => d.(cursor := d.applying.value.resp.cursor, applying := None)
    case RewriteState => d.(cursor := d.held)
    case Abandon => d.(applying := None)
    case Reboot(found) =>
      d.(highWater := if found.counter then d.counter else 0,
         held := if found.state then d.cursor else Blank,
         entries := d.outbox - found.missed,
         seen := if found.ring then SeenRing.Kept(d.ring) else [],
         ring := if found.ring && found.compacts then SeenRing.Kept(d.ring) else d.ring,
         adding := None, applying := None)
  }

  /** The request BuildRequest makes: the cursor verbatim and every sendable entry. */
  predicate IsRequest(d: Device, req: Request)
  {
    && req.cursor == d.held
    && (forall k :: 0 <= k < |req.items| ==>
          && req.items[k].id in SendableIds(d.entries)
          && req.items[k].note == d.entries[req.items[k].id].note)
    && (forall id :: id in SendableIds(d.entries) ==> exists k :: 0 <= k < |req.items| && req.items[k].id == id)
    && (forall j, k :: 0 <= j < k < |req.items| ==> req.items[j].id < req.items[k].id)
  }

  // ---------------------------------------------------------------- the server

  /** Where one request stands. `Recording` is the gap between the SMTP send and its record. */
  datatype Stage =
    | Items
    | Recording(status: Status)
    | Fetching(validity: nat)
    | Assembling(validity: nat, floor: nat, raws: seq<Raw>, capped: bool, aged: set<nat>)

  datatype Work = Work(req: Request, next: nat, acks: seq<Ack>, stage: Stage)

  /** The server's outward history, oldest first. */
  datatype Event =
    | Tried(id: nat, note: Note, took: bool)  // Submitter.Send was called; whether the mail server took it
    | Recorded(id: nat, status: Status)  // state.json written with it, and published
    | HalfRecorded(id: nat, status: Status)  // written with it, but reported as failed
    | Acked(id: nat, status: Status)     // the ack joined a response
    | Rewritten                          // state.json written for another of its fields
    | Restarted                          // the server came up again on its state.json
    | Restored(ring: seq<Ack>)           // state.json was put back from a backup

  /** The ack ring twice: in state.json, and as published in RAM (store.go, FileStore). */
  datatype Rings = Rings(disk: seq<Ack>, ram: seq<Ack>)

  function Pushed(rs: Rings, e: Event): Rings
  {
    match e
    case Recorded(id, status) => var ring := Record(rs.ram, Ack(id, status)); Rings(ring, ring)
    case HalfRecorded(id, status) => Rings(Record(rs.ram, Ack(id, status)), rs.ram)
    case Rewritten => Rings(rs.ram, rs.ram)
    case Restarted => Rings(rs.disk, rs.disk)
    case Restored(ring) => Rings(ring, ring)
    case _ => rs
  }

  /** The rings a history leaves. */
  function RingsOf(log: seq<Event>): Rings
  {
    if log == [] then Rings([], []) else Pushed(RingsOf(log[..|log| - 1]), log[|log| - 1])
  }

  datatype Server = Server(rings: Rings, work: Option<Work>, log: seq<Event>)

  datatype ServerStep =
    | Receive(req: Request)
    | Replay                             // ring hit: same ack again
    | Refuse(status: Status)             // terminal status; only "undeliverable" comes from a send
    | SendOk                             // accepted and reported so
    | SendUnsure                         // accepted, but the reply was an error: no ack
    | SendFails                          // tried and refused for now: no ack
    | RecordOk                           // state.json written
    | RecordUnsure                       // written, but reported as failed: no ack
    | RecordFails                        // state.json not written: no ack
    | Rewrite                            // another field of state.json was written
    | ReadValidity
    | Fetch(raws: seq<Raw>)
    | Respond(outs: seq<Derived>, budget: int, result: Outcome)
    | GiveUp                             // error response
    | Restart                            // the process died and came up again
    | RestoreBackup(k: nat)              // the same on the state.json of an earlier moment

  function Current(w: Work): Item
    requires w.next < |w.req.items|
  {
    w.req.items[w.next]
  }

  predicate AtItem(s: Server)
  {
    s.work.Some? && s.work.value.next < |s.work.value.req.items|
  }

  predicate AtFreshItem(s: Server)
  {
    AtItem(s) && s.work.value.stage == Items && Lookup(s.rings.ram, Current(s.work.value).id).None?
  }

  /** cursorBoundary: the floor of a concrete cursor, nothing for a window resync. */
  function Boundary(c: Cursor, validity: nat): (r: Option<nat>)
    ensures r.Some? <==> c == At(validity, if c.At? then c.uid else 0)
    ensures r.Some? ==> c == At(validity, r.value)
  {
    if c.At? && c.validity == validity then Some(c.uid) else None
  }

  // ---------------------------------------------------------------- the whole system

  /** INBOX: its UIDVALIDITY, its messages, and a bound below every UID yet to come. */
  datatype Mailbox = Mailbox(validity: nat, inbox: Inbox, next: nat)

  /**
   What happened, beyond what any disk remembers: the notes ever written to the outbox, the
   notes the child discarded, the letters ever written to flash, the excuses of the responses
   whose cursor the device took over, and the letters read and not since forgotten by both the
   store and the ring.
   */
  datatype History = History(
    written: map<nat, Note>, discarded: set<nat>, stored: set<LetterId>, excused: Excuses, read: set<LetterId>)

  datatype Net = Net(requests: set<Request>, responses: set<Response>)

  datatype State = State(dev: Device, srv: Server, box: Mailbox, net: Net, hist: History)

  datatype Step =
    | Dev(ds: DeviceStep)
    | Ask(req: Request)
    | Srv(ss: ServerStep)
    | Arrive(uid: nat, id: LetterId)
    | Depart(uid: nat)                    // moved to Held, or deleted by a person
    | NewValidity(validity: nat, inbox: Inbox, next: nat)

  function ServerApply(srv: Server, box: Mailbox, ss: ServerStep): Server
    requires ServerEnabled(srv, box, ss)
  {
    match ss
    case Receive(req) => srv.(work := Some(Work(req, 0, [], Items)))
    case Replay =>
      var w := srv.work.value;
      var a := Ack(Current(w).id, Lookup(srv.rings.ram, Current(w).id).value);
      srv.(work := Some(w.(next := w.next + 1, acks := w.acks + [a])), log := srv.log + [Acked(a.id, a.status)])
    case Refuse(status) =>
      var it := Current(srv.work.value);
      srv.(work := Some(srv.work.value.(stage := Recording(status))),
           log := if status == RejectedUndeliverable then srv.log + [Tried(it.id, it.note, false)] else srv.log)
    case SendOk =>
      var it := Current(srv.work.value);
      srv.(work := Some(srv.work.value.(stage := Recording(Sent))), log := srv.log + [Tried(it.id, it.note, true)])
    case SendUnsure =>
      var it := Current(srv.work.value);
      srv.(work := Some(srv.work.value.(next := srv.work.value.next + 1)), log := srv.log + [Tried(it.id, it.note, true)])
    case SendFails =>
      var it := Current(srv.work.value);
      srv.(work := Some(srv.work.value.(next := srv.work.value.next + 1)), log := srv.log + [Tried(it.id, it.note, false)])
    case RecordOk =>
      var w := srv.work.value;
      var a := Ack(Current(w).id, w.stage.status);
      srv.(rings := Pushed(srv.rings, Recorded(a.id, a.status)),
           work := Some(w.(next := w.next + 1, acks := w.acks + [a], stage := Items)),
           log := srv.log + [Recorded(a.id, a.status), Acked(a.id, a.status)])
    case RecordUnsure =>
      var w := srv.work.value;
      var e := HalfRecorded(Current(w).id, w.stage.status);
      srv.(rings := Pushed(srv.rings, e), work := Some(w.(next := w.next + 1, stage := Items)), log := srv.log + [e])
    case RecordFails =>
      srv.(work := Some(srv.work.value.(next := srv.work.value.next + 1, stage := Items)))
    case Rewrite => srv.(rings := Pushed(srv.rings, Rewritten), log := srv.log + [Rewritten])
    case ReadValidity => srv.(work := Some(srv.work.value.(stage := Fetching(box.validity))))
    case Fetch(raws) =>
      var w := srv.work.value;
      var v := w.stage.validity;
      var b := Boundary(w.req.cursor, v);
      srv.(work := Some(w.(stage := Assembling(v, if b.Some? then b.value else 0, raws,
                                               b.Some? && |raws| == FETCH_BATCH,
                                               if b.Some? then {} else AgedBy(box, raws)))))
    case Respond(_, _, _) => srv.(work := None)
    case GiveUp => srv.(work := None)
    case Restart => Server(Pushed(srv.rings, Restarted), None, srv.log + [Restarted])
    case RestoreBackup(k) =>
      var e := Restored(RingsOf(srv.log[..k]).disk);
      Server(Pushed(srv.rings, e), None, srv.log + [e])
  }

  ghost predicate ServerEnabledResponse(srv: Server, outs: seq<Derived>, budget: int, result: Outcome)
  {
    && srv.work.Some? && srv.work.value.stage.Assembling?
    && Derives(srv.work.value.stage.raws, outs)
    && var st := srv.work.value.stage;
       Correct(st.raws, outs, budget, st.floor, st.capped, result) && result.Built?
  }

  ghost predicate ServerEnabled(srv: Server, box: Mailbox, ss: ServerStep)
  {
    match ss
    case Receive(_) => srv.work.None?
    case Replay => AtItem(srv) && srv.work.value.stage == Items && Lookup(srv.rings.ram, Current(srv.work.value).id).Some?
    case Refuse(status) => AtFreshItem(srv) && status != Sent
    case SendOk => AtFreshItem(srv)
    case SendUnsure => AtFreshItem(srv)
    case SendFails => AtFreshItem(srv)
    case RecordOk => AtItem(srv) && srv.work.value.stage.Recording?
    case RecordUnsure => AtItem(srv) && srv.work.value.stage.Recording?
    case RecordFails => AtItem(srv) && srv.work.value.stage.Recording?
    case Rewrite => true
    case ReadValidity => srv.work.Some? && srv.work.value.stage == Items && srv.work.value.next == |srv.work.value.req.items|
    case Fetch(raws) =>
      && srv.work.Some? && srv.work.value.stage.Fetching?
      && var b := Boundary(srv.work.value.req.cursor, srv.work.value.stage.validity);
         if b.Some? then IsFetchAbove(box.inbox, b.value, FETCH_BATCH, raws)
         else exists window :: IsRecent(box.inbox, window, raws)
    case Respond(outs, budget, result) => ServerEnabledResponse(srv, outs, budget, result)
    case GiveUp => true
    case Restart => true
    case RestoreBackup(k) => k <= |srv.log|
  }

  ghost predicate Enabled(p: Params, s: State, st: Step)
  {
    match st
    case Dev(ds) => DeviceEnabled(p, s.dev, ds) && (ds.Begin? ==> ds.resp in s.net.responses)
    case Ask(req) => IsRequest(s.dev, req)
    case Srv(ss) => ServerEnabled(s.srv, s.box, ss) && (ss.Receive? ==> ss.req in s.net.requests)
    case Arrive(uid, id) => s.box.next <= uid && |id.text| == LETTER_ID_CHARS
    case Depart(uid) => uid in s.box.inbox
    case NewValidity(v, inbox, next) =>
      // section 2.3.1.1 of RFC 3501: a new UIDVALIDITY is greater than every old one
      && s.box.validity < v
      && (forall u :: u in inbox ==> 0 < u < next && |inbox[u].text| == LETTER_ID_CHARS)
      && next > 0
  }

  /** The stranger messages a response steps over: at or below its cursor and unresolved. */
  function SkippedBy(st: Stage, outs: seq<Derived>, last: nat): set<(nat, nat)>
    requires st.Assembling? && |outs| == |st.raws|
  {
    set i | 0 <= i < |outs| && outs[i].Unresolved? && st.raws[i].uid <= last :: (st.validity, st.raws[i].uid)
  }

  /** Messages a resync leaves behind: in INBOX, but not in the recent window. */
  function AgedBy(box: Mailbox, raws: seq<Raw>): set<nat>
  {
    set u | u in box.inbox && !Listed(raws, u)
  }

  /** What a response with cursor `last` leaves out. */
  function LeftOutBy(st: Stage, outs: seq<Derived>, last: nat): Excuses
    requires st.Assembling? && |outs| == |st.raws|
  {
    Excuses(SkippedBy(st, outs, last), set u | u in st.aged && u <= last :: (st.validity, u))
  }

  /** A read letter stays known while the store or the ring in RAM holds its id. */
  predicate Known(d: Device, lid: LetterId)
  {
    lid in d.letters || lid in d.seen
  }

  function DeviceHistory(h: History, d: Device, ds: DeviceStep, d': Device): History
    requires ds.AddEntry? || ds.AddUnsure? ==> d.adding.Some?
    requires ds.PutLetter? ==> AtLetter(d)
    requires ds.SetCursor? || ds.CursorUnsure? ==> AtCursor(d)
  {
    var h1 :=
      match ds
      case AddEntry => h.(written := h.written[d.adding.value.id := d.adding.value.note])
      case AddUnsure => h.(written := h.written[d.adding.value.id := d.adding.value.note])
      case Discard(id) => h.(discarded := h.discarded + {id})
      case DiscardUnsure(id) => h.(discarded := h.discarded + {id})
      case PutLetter => h.(stored := h.stored + {CurrentLetter(d).id})
      case MarkRead(lid) => h.(read := h.read + {lid})
      case SetCursor => h.(excused := Together(h.excused, d.applying.value.resp.excused))
      case CursorUnsure => h.(excused := Together(h.excused, d.applying.value.resp.excused))
      case _ => h;
    h1.(read := set lid | lid in h1.read && Known(d', lid))
  }

  ghost function Apply(p: Params, s: State, st: Step): State
    requires Enabled(p, s, st)
  {
    match st
    case Dev(ds) =>
      var d' := DeviceApply(p, s.dev, ds);
      s.(dev := d', hist := DeviceHistory(s.hist, s.dev, ds, d'))
    case Ask(req) => s.(net := s.net.(requests := s.net.requests + {req}))
    case Srv(ss) =>
      var srv' := ServerApply(s.srv, s.box, ss);
      (match ss
       case Respond(outs, budget, result) =>
         var w := s.srv.work.value;
         var resp := Response(w.acks, result.letters, At(w.stage.validity, result.last), result.more,
                              LeftOutBy(w.stage, outs, result.last));
         s.(srv := srv', net := s.net.(responses := s.net.responses + {resp}))
       case _ => s.(srv := srv'))
    case Arrive(uid, id) => s.(box := s.box.(inbox := s.box.inbox[uid := id], next := uid + 1))
    case Depart(uid) => s.(box := s.box.(inbox := s.box.inbox - {uid}))
    case NewValidity(v, inbox, next) => s.(box := Mailbox(v, inbox, next))
  }

  // ---------------------------------------------------------------- runs

  ghost predicate IsRun(p: Params, s: State, steps: seq<Step>, t: State)
    decreases |steps|
  {
    if steps == [] then s == t
    else Enabled(p, s, steps[0]) && IsRun(p, Apply(p, s, steps[0]), steps[1..], t)
  }

  ghost predicate Reaches(p: Params, s: State, t: State)
  {
    exists steps :: IsRun(p, s, steps, t)
  }

  lemma {:induction false} RunAppend(p: Params, s: State, a: seq<Step>, t: State, b: seq<Step>, u: State)
    requires IsRun(p, s, a, t) && IsRun(p, t, b, u)
    ensures IsRun(p, s, a + b, u)
    decreases |a|
  {
    if a == [] {
      assert a + b == b;
    } else {
      assert (a + b)[1..] == a[1..] + b;
      RunAppend(p, Apply(p, s, a[0]), a[1..], t, b, u);
    }
  }

  lemma ReachesTransitive(p: Params, s: State, t: State, u: State)
    requires Reaches(p, s, t) && Reaches(p, t, u)
    ensures Reaches(p, s, u)
  {
    var a :| IsRun(p, s, a, t);
    var b :| IsRun(p, t, b, u);
    RunAppend(p, s, a, t, b, u);
  }

  lemma ReachesItself(p: Params, s: State)
    ensures Reaches(p, s, s)
  {
    assert IsRun(p, s, [], s);
  }

  lemma ReachesByStep(p: Params, s: State, t: State, st: Step)
    requires Reaches(p, s, t) && Enabled(p, t, st)
    ensures Reaches(p, s, Apply(p, t, st))
  {
    var u := Apply(p, t, st);
    assert [st][1..] == [];
    assert IsRun(p, u, [st][1..], u);
    assert IsRun(p, t, [st], u);
    ReachesTransitive(p, s, t, u);
  }

  function Formatted(): Device
  {
    Device(0, 0, map[], map[], [], Blank, Blank, map[], [], None, None)
  }

  function NoHistory(): History
  {
    History(map[], {}, {}, Excuses({}, {}), {})
  }

  /** Backups of state.json, the last of them the one in use. */
  predicate Backups(log: seq<Event>)
  {
    log != [] && forall k :: 0 <= k < |log| ==> log[k].Restored?
  }

  /**
   A formatted device meets a server that has just started: nothing on flash, nothing in flight.
   The ack ring and INBOX are whatever they were; the log opens with every state.json that could
   still be put back, the one in use last.
   */
  ghost predicate Init(s: State)
  {
    && s.dev == Formatted()
    && s.srv.work.None? && Backups(s.srv.log) && s.srv.rings == RingsOf(s.srv.log)
    && (forall u :: u in s.box.inbox ==> 0 < u < s.box.next && |s.box.inbox[u].text| == LETTER_ID_CHARS)
    && s.box.next > 0
    && s.net == Net({}, {})
    && s.hist == NoHistory()
  }
}
