/**
 When a child's letter can be lost: the runs that lose one, and with them the exact condition under
 which none is.
 */
module SyncLosses {
  import opened Basics
  import opened AckRing
  import opened Assembly
  import opened SyncSystem
  import opened SyncOutbound

  /** An idle device with nothing to send. */
  ghost predicate Ready(s: State)
  {
    && s.dev.adding.None? && s.dev.applying.None? && s.dev.held == Blank
    && s.dev.entries == s.dev.outbox == map[] && s.hist.read == {}
  }

  /** All but the counters are as they were. */
  ghost predicate Burned(s: State, t: State)
  {
    t == s.(dev := s.dev.(counter := t.dev.counter, highWater := t.dev.highWater))
  }

  /** Composing with the entry write refused spends an id. */
  lemma BurnOne(p: Params, s: State, note: Note) returns (t: State)
    requires Ready(s) && p.outboxCap > 0
    ensures Reaches(p, s, t) && Burned(s, t) && t.dev.highWater == s.dev.highWater + 1
  {
    assert SendableIds(s.dev.entries) == {};
    ReachesItself(p, s);
    var s1 := Apply(p, s, Dev(AddCounter(note)));
    ReachesByStep(p, s, s, Dev(AddCounter(note)));
    t := Apply(p, s1, Dev(AddFails));
    ReachesByStep(p, s, s1, Dev(AddFails));
    assert t.hist.read == {};
  }

  lemma {:induction false} BurnMany(p: Params, s: State, note: Note, burn: nat) returns (t: State)
    requires Ready(s) && p.outboxCap > 0
    ensures Reaches(p, s, t) && Burned(s, t) && t.dev.highWater == s.dev.highWater + burn
    decreases burn
  {
    t := s;
    if burn == 0 {
      ReachesItself(p, s);
    } else {
      var u := BurnOne(p, s, note);
      t := BurnMany(p, u, note, burn - 1);
      ReachesTransitive(p, s, u, t);
    }
  }

  /** The device writes one note. */
  lemma Compose(p: Params, s: State, note: Note) returns (t: State)
    requires Ready(s) && p.outboxCap > 0
    ensures Reaches(p, s, t) && t.srv == s.srv && t.box == s.box
    ensures t.hist.written == s.hist.written[s.dev.highWater + 1 := note] && t.hist.discarded == s.hist.discarded && t.hist.read == {}
    ensures t.dev.entries == t.dev.outbox == map[s.dev.highWater + 1 := Entry(note, None)]
    ensures t.dev.applying.None? && t.dev.cursor == s.dev.cursor && t.dev.held == Blank
  {
    assert SendableIds(s.dev.entries) == {};
    ReachesItself(p, s);
    var s1 := Apply(p, s, Dev(AddCounter(note)));
    ReachesByStep(p, s, s, Dev(AddCounter(note)));
    t := Apply(p, s1, Dev(AddEntry));
    ReachesByStep(p, s, s1, Dev(AddEntry));
  }

  /** And asks with it alone. */
  lemma ComposeAndAsk(p: Params, s: State, note: Note) returns (t: State, req: Request)
    requires Ready(s) && p.outboxCap > 0
    ensures Reaches(p, s, t)
    ensures req == Request(Blank, [Item(s.dev.highWater + 1, note)])
    ensures req in t.net.requests && t.srv == s.srv && t.box == s.box
    ensures t.hist.written == s.hist.written[s.dev.highWater + 1 := note] && t.hist.discarded == s.hist.discarded && t.hist.read == {}
    ensures t.dev.entries == t.dev.outbox == map[s.dev.highWater + 1 := Entry(note, None)]
    ensures t.dev.applying.None? && t.dev.cursor == s.dev.cursor
  {
    var n := s.dev.highWater + 1;
    var u := Compose(p, s, note);
    req := Request(Blank, [Item(n, note)]);
    assert SendableIds(u.dev.entries) == {n};
    assert req.items[0].id == n;
    assert IsRequest(u.dev, req);
    t := Apply(p, u, Ask(req));
    ReachesByStep(p, s, u, Ask(req));
  }

  /** An answer that only acks, for the losing run. */
  ghost predicate AcksOne(s: State, resp: Response, n: nat)
  {
    resp in s.net.responses && resp.acks == [Ack(n, Sent)]
  }

  /** The server answers the note from the ring: received, replayed, nothing sent. */
  lemma ReplayFromRing(p: Params, s: State, n: nat, note: Note, req: Request) returns (t: State)
    requires req == Request(Blank, [Item(n, note)]) && req in s.net.requests
    requires s.srv.work.None? && Lookup(s.srv.rings.ram, n) == Some(Sent)
    ensures Reaches(p, s, t)
    ensures t == s.(srv := Server(s.srv.rings, Some(Work(req, 1, [Ack(n, Sent)], Items)), s.srv.log + [Acked(n, Sent)]))
  {
    ReachesItself(p, s);
    var s1 := Apply(p, s, Srv(Receive(req)));
    ReachesByStep(p, s, s, Srv(Receive(req)));
    assert Current(s1.srv.work.value).id == n;
    t := Apply(p, s1, Srv(Replay));
    ReachesByStep(p, s, s1, Srv(Replay));
    assert [] + [Ack(n, Sent)] == [Ack(n, Sent)];
    assert t.srv.work.value == Work(req, 1, [Ack(n, Sent)], Items);
  }

  /** The server sends the note and is about to record it. */
  lemma ReceiveAndSend(p: Params, s: State, n: nat, note: Note, req: Request) returns (t: State)
    requires req == Request(Blank, [Item(n, note)]) && req in s.net.requests
    requires s.srv.work.None? && Lookup(s.srv.rings.ram, n).None?
    ensures Reaches(p, s, t)
    ensures t == s.(srv := Server(s.srv.rings, Some(Work(req, 0, [], Recording(Sent))), s.srv.log + [Tried(n, note, true)]))
  {
    ReachesItself(p, s);
    var s1 := Apply(p, s, Srv(Receive(req)));
    ReachesByStep(p, s, s, Srv(Receive(req)));
    assert Current(s1.srv.work.value) == Item(n, note);
    t := Apply(p, s1, Srv(SendOk));
    ReachesByStep(p, s, s1, Srv(SendOk));
  }

  /** And the note is recorded and acked. */
  lemma SendAndRecord(p: Params, s: State, n: nat, note: Note, req: Request) returns (t: State)
    requires req == Request(Blank, [Item(n, note)]) && req in s.net.requests
    requires s.srv.work.None? && Lookup(s.srv.rings.ram, n).None?
    ensures Reaches(p, s, t)
    ensures t == s.(srv := Server(Pushed(s.srv.rings, Recorded(n, Sent)), Some(Work(req, 1, [Ack(n, Sent)], Items)),
                                  s.srv.log + [Tried(n, note, true), Recorded(n, Sent), Acked(n, Sent)]))
  {
    var s1 := ReceiveAndSend(p, s, n, note, req);
    assert Current(s1.srv.work.value).id == n;
    t := Apply(p, s1, Srv(RecordOk));
    ReachesByStep(p, s, s1, Srv(RecordOk));
    assert [] + [Ack(n, Sent)] == [Ack(n, Sent)];
    assert s.srv.log + [Tried(n, note, true)] + [Recorded(n, Sent), Acked(n, Sent)]
        == s.srv.log + [Tried(n, note, true), Recorded(n, Sent), Acked(n, Sent)];
  }

  /** Whatever the window is, the response goes out with its one ack: a message may resolve to nobody. */
  lemma RespondStrangers(p: Params, s: State, n: nat, req: Request, window: int) returns (t: State, resp: Response)
    requires s.srv.work == Some(Work(req, 1, [Ack(n, Sent)], Items)) && |req.items| == 1 && req.cursor == Blank
    ensures Reaches(p, s, t) && AcksOne(t, resp, n)
    ensures t.dev == s.dev && t.srv == s.srv.(work := None) && t.hist == s.hist
  {
    ReachesItself(p, s);
    var s1 := Apply(p, s, Srv(ReadValidity));
    ReachesByStep(p, s, s, Srv(ReadValidity));
    var raws := RecentOf(s1.box.inbox, window);
    var s2 := Apply(p, s1, Srv(Fetch(raws)));
    ReachesByStep(p, s, s1, Srv(Fetch(raws)));
    t, resp := SkipAll(p, s2, n);
    ReachesTransitive(p, s, s2, t);
  }

  lemma SkipAll(p: Params, s: State, n: nat) returns (t: State, resp: Response)
    requires s.srv.work.Some? && s.srv.work.value.acks == [Ack(n, Sent)] && s.srv.work.value.stage.Assembling?
    requires !s.srv.work.value.stage.capped && s.srv.work.value.stage.floor == 0
    ensures Reaches(p, s, t) && AcksOne(t, resp, n)
    ensures t.dev == s.dev && t.srv == s.srv.(work := None) && t.hist == s.hist
  {
    var st := s.srv.work.value.stage;
    var outs := seq(|st.raws|, _ => Unresolved);
    var last := if st.raws == [] then 0 else st.raws[|st.raws| - 1].uid;
    AllStrangers(st.raws, outs, last);
    var step := Srv(Respond(outs, 0, Built([], last, false)));
    ReachesItself(p, s);
    t := Apply(p, s, step);
    ReachesByStep(p, s, s, step);
    resp := Response([Ack(n, Sent)], [], At(st.validity, last), false, LeftOutBy(st, outs, last));
  }

  /** The device applies the one ack and drops the note. */
  lemma DropAcked(p: Params, s: State, n: nat, note: Note, resp: Response) returns (t: State)
    requires AcksOne(s, resp, n)
    requires s.dev.entries == s.dev.outbox == map[n := Entry(note, None)] && s.dev.applying.None? && s.hist.read == {}
    ensures Reaches(p, s, t)
    ensures t.dev.outbox == t.dev.entries == map[] && t.dev.cursor == s.dev.cursor && t.dev.counter == s.dev.counter
    ensures t.hist == s.hist && t.srv == s.srv
  {
    ReachesItself(p, s);
    var s1 := Apply(p, s, Dev(Begin(resp)));
    ReachesByStep(p, s, s, Dev(Begin(resp)));
    t := Apply(p, s1, Dev(ResolveAck));
    ReachesByStep(p, s, s1, Dev(ResolveAck));
  }

  /** Asked again with a note under an answered id, the server sends nothing and the device drops it. */
  lemma AnsweredIdLosesANote(p: Params, s: State, n: nat, note: Note) returns (t: State)
    requires Ready(s) && s.srv.work.None? && p.outboxCap > 0
    requires n == s.dev.highWater + 1 && Lookup(s.srv.rings.ram, n) == Some(Sent)
    requires n !in s.hist.discarded && Tried(n, note, true) !in s.srv.log
    ensures Reaches(p, s, t) && !NoNoteLost(t)
  {
    var s1, req := ComposeAndAsk(p, s, note);
    var s2 := ReplayFromRing(p, s1, n, note, req);
    ReachesTransitive(p, s, s1, s2);
    var s3, resp := RespondStrangers(p, s2, n, req, 200);
    ReachesTransitive(p, s, s2, s3);
    t := DropAcked(p, s3, n, note, resp);
    ReachesTransitive(p, s, s3, t);
    assert n in t.hist.written && Tried(n, note, true) !in t.srv.log;
  }

  const FIRST: Note := Note("c_rosa", "", "hello")
  const SECOND: Note := Note("c_rosa", "", "hello again")

  /** A leftover "sent" for a future id loses the letter that will be given that id. */
  lemma LeftoverSentLosesANote(p: Params, s: State, n: nat) returns (t: State)
    requires Init(s) && p.outboxCap > 0 && n > 0 && Lookup(s.srv.rings.ram, n) == Some(Sent)
    ensures Reaches(p, s, t) && !NoNoteLost(t)
  {
    var u := BurnMany(p, s, FIRST, n - 1);
    t := AnsweredIdLosesANote(p, u, n, FIRST);
    ReachesTransitive(p, s, u, t);
  }

  /** So does one in a backup, however old, once it is put back. */
  lemma BackupLosesANote(p: Params, s: State, k: nat, n: nat) returns (t: State)
    requires Init(s) && p.outboxCap > 0 && k < |s.srv.log| && n > 0 && Lookup(s.srv.log[k].ring, n) == Some(Sent)
    ensures Reaches(p, s, t) && !NoNoteLost(t)
  {
    var log := s.srv.log;
    assert log[..k + 1][..k] == log[..k] && log[..k + 1][k] == log[k];
    ReachesItself(p, s);
    var u := Apply(p, s, Srv(RestoreBackup(k + 1)));
    ReachesByStep(p, s, s, Srv(RestoreBackup(k + 1)));
    assert u.srv.log[..|log|] == log;
    t := LeftoverSentLosesANote(p, u, n);
    ReachesTransitive(p, s, u, t);
  }

  // ---------------------------------------------------------------- a counter that cannot be read

  /** An id no ack of the ring is about. */
  lemma {:induction false} UnusedId(ring: seq<Ack>) returns (n: nat)
    ensures n > 0 && forall k :: 0 <= k < |ring| ==> ring[k].id < n
  {
    n := 1;
    if ring != [] {
      n := UnusedId(ring[..|ring| - 1]);
      if n <= ring[|ring| - 1].id {
        n := ring[|ring| - 1].id + 1;
      }
    }
  }

  /** A letter goes all the way, then the device boots without its counter: the id will be given out again. */
  lemma SendAndForget(p: Params, s: State, n: nat, note: Note) returns (t: State)
    requires Ready(s) && s.dev.cursor == Blank && s.srv.work.None? && p.outboxCap > 0 && p.blindCounter
    requires n == s.dev.highWater + 1 && Lookup(s.srv.rings.ram, n).None? && s.hist.discarded == {}
    ensures Reaches(p, s, t) && Ready(t) && t.dev.highWater == 0 && t.srv.work.None? && t.hist.discarded == {}
    ensures Lookup(t.srv.rings.ram, n) == Some(Sent)
    ensures t.srv.log == s.srv.log + [Tried(n, note, true), Recorded(n, Sent), Acked(n, Sent)]
  {
    var s1, req := ComposeAndAsk(p, s, note);
    var s2 := SendAndRecord(p, s1, n, note, req);
    ReachesTransitive(p, s, s1, s2);
    RecordLookup(s.srv.rings.ram, Ack(n, Sent), n);
    var s3, resp := RespondStrangers(p, s2, n, req, 200);
    ReachesTransitive(p, s, s2, s3);
    var s4 := DropAcked(p, s3, n, note, resp);
    ReachesTransitive(p, s, s3, s4);
    t := BootBlind(p, s4);
    ReachesTransitive(p, s, s4, t);
  }

  lemma BootBlind(p: Params, s: State) returns (t: State)
    requires p.blindCounter && s.dev.outbox == map[] && s.dev.cursor == Blank && s.hist.read == {}
    ensures Reaches(p, s, t) && Ready(t) && t.dev.highWater == 0
    ensures t.srv == s.srv && t.hist == s.hist
  {
    var found := ALL_FOUND.(counter := false);
    ReachesItself(p, s);
    t := Apply(p, s, Dev(Reboot(found)));
    ReachesByStep(p, s, s, Dev(Reboot(found)));
  }

  /** Under a perfectly clean ring, then, a boot that cannot read the counter file loses a letter. */
  lemma BlindCounterLosesANote(p: Params, s: State) returns (t: State)
    requires Init(s) && p.outboxCap > 0 && p.blindCounter
    ensures Reaches(p, s, t) && !NoNoteLost(t)
  {
    var n := UnusedId(s.srv.rings.ram);
    var s1 := BurnMany(p, s, FIRST, n - 1);
    var s2 := SendAndForget(p, s1, n, FIRST);
    ReachesTransitive(p, s, s1, s2);
    var s3 := BurnMany(p, s2, FIRST, n - 1);
    ReachesTransitive(p, s, s2, s3);
    assert Tried(n, SECOND, true) !in s3.srv.log;
    t := AnsweredIdLosesANote(p, s3, n, SECOND);
    ReachesTransitive(p, s, s3, t);
  }

  /**
   The main result: over every run from a formatted device, whatever crashes, losses, repeats,
   failed writes and backup restores it holds, no note is lost; and this is so exactly when neither
   the ack ring the device meets nor any backup of it holds a "sent" under an id the device has yet
   to give out, and the counter file is read at every boot.
   */
  lemma NoNoteLostIffRingClean(p: Params, s: State)
    requires Init(s) && p.outboxCap > 0
    ensures (forall t :: Reaches(p, s, t) ==> NoNoteLost(t)) <==> CleanBackups(s.srv.log) && !p.blindCounter
  {
    if p.blindCounter {
      var t := BlindCounterLosesANote(p, s);
    } else if CleanBackups(s.srv.log) {
      InitOutbound(s);
      forall t | Reaches(p, s, t)
        ensures NoNoteLost(t)
      {
        var steps :| IsRun(p, s, steps, t);
        RunKeepsOutbound(p, s, steps, t);
      }
    } else {
      var k :| 0 <= k < |s.srv.log| && !CleanRing(s.srv.log[k].ring);
      var id: nat :| id > 0 && Lookup(s.srv.log[k].ring, id) == Some(Sent);
      var t := BackupLosesANote(p, s, k, id);
    }
  }

  /** Every state.json a history has left on disk, the last of them loaded anew. */
  ghost function EveryBackup(log: seq<Event>): seq<Event>
  {
    seq(|log| + 1, k requires 0 <= k <= |log| => Restored(RingsOf(log[..k]).disk))
  }

  /** Formatting the letters partition also forgets the id counter (session.cpp:119-132). */
  ghost function Reformatted(s: State): State
  {
    var log := EveryBackup(s.srv.log);
    State(Formatted(), Server(RingsOf(log), None, log), s.box, Net({}, {}), NoHistory())
  }

  /** So once a letter has been delivered and its ack is in state.json or a backup, a reformat can lose another. */
  lemma ReformatCanLoseANote(p: Params, s: State, k: nat, n: nat) returns (t: State)
    requires p.outboxCap > 0 && n > 0 && k <= |s.srv.log| && Lookup(RingsOf(s.srv.log[..k]).disk, n) == Some(Sent)
    requires s.box.next > 0 && forall u :: u in s.box.inbox ==> 0 < u < s.box.next && |s.box.inbox[u].text| == LETTER_ID_CHARS
    ensures Reaches(p, Reformatted(s), t) && !NoNoteLost(t)
  {
    t := BackupLosesANote(p, Reformatted(s), k, n);
  }
}
