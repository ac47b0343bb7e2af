/**
 When the ring on flash does not keep a letter read: one lapse of the ring in RAM is enough, at any
 capacity, and no lapse is needed to be safe.
 */
module SyncForgetting {
  import opened Basics
  import opened AckRing
  import opened Assembly
  import opened SyncSystem
  import opened SyncInbound
  import opened SyncRedelivery
  import SeenRing

  // ---------------------------------------------------------------- runs without a lapse

  predicate Calm(st: Step)
  {
    !(st.Dev? && Forgets(st.ds))
  }

  lemma {:induction false} LapsesOn(a: seq<Step>, b: seq<Step>)
    ensures Lapses(a + b) == Lapses(a) + Lapses(b)
  {
    if a == [] {
      assert a + b == b;
    } else {
      assert (a + b)[1..] == a[1..] + b;
      LapsesOn(a[1..], b);
    }
  }

  lemma LapsesOne(st: Step)
    ensures Lapses([st]) == if Calm(st) then 0 else 1
  {
    assert [st][1..] == [];
  }

  ghost predicate CalmlyReaches(p: Params, s: State, t: State)
  {
    exists steps :: IsRun(p, s, steps, t) && Lapses(steps) == 0
  }

  lemma CalmlyItself(p: Params, s: State)
    ensures CalmlyReaches(p, s, s)
  {
    assert IsRun(p, s, [], s);
  }

  lemma CalmlyOn(p: Params, s: State, t: State, u: State)
    requires CalmlyReaches(p, s, t) && CalmlyReaches(p, t, u)
    ensures CalmlyReaches(p, s, u)
  {
    var a :| IsRun(p, s, a, t) && Lapses(a) == 0;
    var b :| IsRun(p, t, b, u) && Lapses(b) == 0;
    RunAppend(p, s, a, t, b, u);
    LapsesOn(a, b);
  }

  lemma CalmlyByStep(p: Params, s: State, t: State, st: Step)
    requires CalmlyReaches(p, s, t) && Enabled(p, t, st) && Calm(st)
    ensures CalmlyReaches(p, s, Apply(p, t, st))
  {
    var u := Apply(p, t, st);
    LapsesOne(st);
    assert [st][1..] == [];
    assert IsRun(p, u, [st][1..], u);
    assert IsRun(p, t, [st], u);
    CalmlyOn(p, s, t, u);
  }

  // ---------------------------------------------------------------- runs that keep a letter on flash

  /** A run of which every state holds `lid` on flash, with that many lapses. */
  ghost predicate FlashRun(p: Params, s: State, steps: seq<Step>, t: State, lid: LetterId, lapses: nat)
  {
    IsRun(p, s, steps, t) && OnFlashThroughout(p, s, steps, lid) && Lapses(steps) == lapses
  }

  lemma {:induction false} OnFlashPush(p: Params, s: State, steps: seq<Step>, t: State, lid: LetterId, st: Step)
    requires IsRun(p, s, steps, t) && OnFlashThroughout(p, s, steps, lid) && Enabled(p, t, st)
    requires var u := Apply(p, t, st); lid in u.dev.letters || lid in u.dev.ring
    ensures IsRun(p, s, steps + [st], Apply(p, t, st)) && OnFlashThroughout(p, s, steps + [st], lid)
    decreases |steps|
  {
    if steps == [] {
      assert steps + [st] == [st] && [st][1..] == [];
    } else {
      assert (steps + [st])[1..] == steps[1..] + [st];
      OnFlashPush(p, Apply(p, s, steps[0]), steps[1..], t, lid, st);
    }
  }

  lemma FlashPush(p: Params, s: State, steps: seq<Step>, t: State, lid: LetterId, lapses: nat, st: Step)
    requires FlashRun(p, s, steps, t, lid, lapses) && Enabled(p, t, st)
    requires var u := Apply(p, t, st); lid in u.dev.letters || lid in u.dev.ring
    ensures FlashRun(p, s, steps + [st], Apply(p, t, st), lid, lapses + if Calm(st) then 0 else 1)
  {
    OnFlashPush(p, s, steps, t, lid, st);
    LapsesOn(steps, [st]);
    LapsesOne(st);
  }

  /** A response that brings one letter and nothing else to do. */
  ghost predicate Brings(s: State, resp: Response, id: LetterId)
  {
    resp in s.net.responses && resp.acks == [] && |resp.letters| == 1 && resp.letters[0].id == id
  }

  /** One letter is delivered and written; its ring entry is still to come. */
  lemma Deliver(p: Params, s: State, steps: seq<Step>, t: State, lid: LetterId, lapses: nat, resp: Response, id: LetterId)
    returns (more: seq<Step>, u: State)
    requires FlashRun(p, s, steps, t, lid, lapses) && lid in t.dev.ring && t.dev.applying.None?
    requires Brings(t, resp, id) && id !in t.dev.seen
    ensures FlashRun(p, s, more, u, lid, lapses) && u.net == t.net
    ensures u.dev == t.dev.(letters := Put(t.dev.letters, resp.letters[0]), applying := Some(Applying(resp, 0, 0, true)))
  {
    FlashPush(p, s, steps, t, lid, lapses, Dev(Begin(resp)));
    var t1 := Apply(p, t, Dev(Begin(resp)));
    assert AtLetter(t1.dev) && CurrentLetter(t1.dev) == resp.letters[0];
    FlashPush(p, s, steps + [Dev(Begin(resp))], t1, lid, lapses, Dev(PutLetter));
    more, u := steps + [Dev(Begin(resp))] + [Dev(PutLetter)], Apply(p, t1, Dev(PutLetter));
  }

  /** A letter is delivered and the append of its id is refused: RAM alone remembers it. */
  lemma DeliverUnrecorded(p: Params, s: State, steps: seq<Step>, t: State, lid: LetterId, lapses: nat, resp: Response, id: LetterId)
    returns (more: seq<Step>, u: State)
    requires FlashRun(p, s, steps, t, lid, lapses) && lid in t.dev.ring && t.dev.applying.None?
    requires Brings(t, resp, id) && id !in t.dev.seen && id != lid && lid !in t.dev.letters
    ensures FlashRun(p, s, more, u, lid, lapses + 1)
    ensures u.dev.ring == t.dev.ring && u.dev.applying.None? && u.net == t.net && lid !in u.dev.letters
    ensures u.dev.seen == LastN(t.dev.seen + [id], p.seenCap)
  {
    var run, mid := Deliver(p, s, steps, t, lid, lapses, resp, id);
    assert AtLetter(mid.dev) && CurrentLetter(mid.dev).id == id;
    FlashPush(p, s, run, mid, lid, lapses, Dev(RingFails));
    more, u := run + [Dev(RingFails)], Apply(p, mid, Dev(RingFails));
  }

  lemma OldestIsPushed(seen: seq<LetterId>, id: LetterId)
    requires seen != [] && SeenRing.Distinct(seen) && id != seen[0]
    ensures seen[0] !in LastN(seen + [id], |seen|)
  {
    var kept := LastN(seen + [id], |seen|);
    assert forall k :: 0 <= k < |kept| ==> kept[k] == (seen + [id])[k + 1];
  }

  /**
   One refused append is enough: at any capacity, from any state in which a read and evicted letter
   is the oldest of a full ring, the refused append of another pushes it out of RAM while the file
   keeps it, and the next delivery makes it unread.
   */
  lemma RefusedAppendForgets(p: Params, s: State, lid: LetterId, again: Response, other: Response, id: LetterId)
    returns (steps: seq<Step>, t: State)
    requires |s.dev.seen| == p.seenCap > 0 && s.dev.seen[0] == lid && SeenRing.Distinct(s.dev.seen)
    requires lid in s.dev.ring && lid !in s.dev.letters && s.dev.applying.None?
    requires Brings(s, again, lid) && Brings(s, other, id) && id !in s.dev.seen
    ensures FlashRun(p, s, steps, t, lid, 1)
    ensures lid in t.dev.letters && t.dev.letters[lid].unread
  {
    assert s.dev.seen[0] in s.dev.seen;
    var u;
    steps, u := DeliverUnrecorded(p, s, [], s, lid, 0, other, id);
    OldestIsPushed(s.dev.seen, id);
    steps, t := Deliver(p, s, steps, u, lid, 1, again, lid);
  }

  // ---------------------------------------------------------------- such a state is reached

  /** The server is asked with no cursor and answers with the newest letter of INBOX, the window being one. */
  lemma ServeOne(p: Params, s: State, u: nat, l: Letter) returns (t: State, resp: Response)
    requires s.srv.work.None? && s.dev.held == Blank && s.dev.entries == map[]
    requires u in s.box.inbox && s.box.inbox[u] == l.id && forall v :: v in s.box.inbox ==> v <= u
    ensures CalmlyReaches(p, s, t) && Brings(t, resp, l.id)
    ensures t == s.(net := t.net) && s.net.responses <= t.net.responses
  {
    var req := Request(Blank, []);
    CalmlyItself(p, s);
    var s1 := Apply(p, s, Ask(req));
    CalmlyByStep(p, s, s, Ask(req));
    var s2 := Apply(p, s1, Srv(Receive(req)));
    CalmlyByStep(p, s, s1, Srv(Receive(req)));
    var s3 := Apply(p, s2, Srv(ReadValidity));
    CalmlyByStep(p, s, s2, Srv(ReadValidity));
    resp, t := AnswerOne(p, s3, req, u, l);
    CalmlyOn(p, s, s3, t);
  }

  lemma AnswerOne(p: Params, s: State, req: Request, u: nat, l: Letter) returns (resp: Response, t: State)
    requires s.srv.work == Some(Work(req, 0, [], Fetching(s.box.validity))) && req.cursor == Blank
    requires u in s.box.inbox && s.box.inbox[u] == l.id && forall v :: v in s.box.inbox ==> v <= u
    ensures CalmlyReaches(p, s, t) && Brings(t, resp, l.id)
    ensures t == s.(net := t.net, srv := s.srv.(work := None)) && s.net.responses <= t.net.responses
  {
    CalmlyItself(p, s);
    var raws := [Raw(u, l.id)];
    NewestOne(s.box.inbox, u);
    var s1 := Apply(p, s, Srv(Fetch(raws)));
    CalmlyByStep(p, s, s, Srv(Fetch(raws)));
    resp, t := SendOneLetter(p, s1, u, l);
    CalmlyOn(p, s, s1, t);
  }

  lemma NewestOne(box: Inbox, u: nat)
    requires u in box && forall v :: v in box ==> v <= u
    ensures IsRecent(box, 1, [Raw(u, box[u])])
  {
    var raws := [Raw(u, box[u])];
    assert raws[0].uid == u;
  }

  lemma SendOneLetter(p: Params, s: State, u: nat, l: Letter) returns (resp: Response, t: State)
    requires s.srv.work.Some? && s.srv.work.value.acks == [] && s.srv.work.value.stage.Assembling?
    requires var st := s.srv.work.value.stage; st.raws == [Raw(u, l.id)] && !st.capped && st.floor == 0
    ensures CalmlyReaches(p, s, t) && Brings(t, resp, l.id)
    ensures t == s.(net := t.net, srv := s.srv.(work := None)) && s.net.responses <= t.net.responses
  {
    var st := s.srv.work.value.stage;
    var outs, r := [Rendered(l)], Built([l], u, false);
    OneLetter(st.raws, outs, l, r);
    CalmlyItself(p, s);
    t := Apply(p, s, Srv(Respond(outs, 0, r)));
    CalmlyByStep(p, s, s, Srv(Respond(outs, 0, r)));
    resp := Response([], [l], At(st.validity, u), false, LeftOutBy(st, outs, u));
  }

  lemma OneLetter(raws: seq<Raw>, outs: seq<Derived>, l: Letter, r: Outcome)
    requires |raws| == 1 && outs == [Rendered(l)] && r == Built([l], raws[0].uid, false)
    ensures Correct(raws, outs, 0, 0, false, r)
  {
    assert RenderedUpTo(outs, 0) == [];
    assert RenderedUpTo(outs, 1) == [l];
    assert CorrectAt(raws, outs, 0, 0, false, r, 1);
  }

  ghost function Start(): State
  {
    State(Formatted(), Server(Rings([], []), None, [Restored([])]), Mailbox(1, map[], 1), Net({}, {}), NoHistory())
  }

  /** So many letters have come in, and a response brings each. */
  ghost predicate AllBrought(s: State, resps: seq<Response>, ids: seq<LetterId>)
  {
    |resps| == |ids| && forall i :: 0 <= i < |ids| ==> Brings(s, resps[i], ids[i])
  }

  ghost predicate Waiting(s: State, n: nat)
  {
    && s.dev == Formatted() && s.srv.work.None? && s.box.next == n + 1
    && forall u :: u in s.box.inbox ==> u <= n
  }

  lemma {:induction false} FillNet(p: Params, ids: seq<LetterId>) returns (s: State, resps: seq<Response>)
    requires forall i :: 0 <= i < |ids| ==> IsLetterId(ids[i])
    ensures CalmlyReaches(p, Start(), s) && Waiting(s, |ids|) && AllBrought(s, resps, ids)
    decreases |ids|
  {
    if ids == [] {
      s, resps := Start(), [];
      CalmlyItself(p, s);
    } else {
      var n := |ids| - 1;
      var before, some := FillNet(p, ids[..n]);
      var resp;
      s, resp := OneMore(p, before, n, ids[n]);
      CalmlyOn(p, Start(), before, s);
      resps := some + [resp];
    }
  }

  lemma OneMore(p: Params, s: State, n: nat, id: LetterId) returns (t: State, resp: Response)
    requires Waiting(s, n) && IsLetterId(id)
    ensures CalmlyReaches(p, s, t) && Waiting(t, n + 1) && Brings(t, resp, id) && s.net.responses <= t.net.responses
  {
    CalmlyItself(p, s);
    var s1 := Apply(p, s, Arrive(n + 1, id));
    CalmlyByStep(p, s, s, Arrive(n + 1, id));
    t, resp := ServeOne(p, s1, n + 1, Letter(id, "", 0));
    CalmlyOn(p, s, s1, t);
  }

  /** A letter is delivered and recorded; the cursor is not moved. */
  lemma DeliverRecorded(p: Params, s: State, resp: Response, id: LetterId) returns (t: State)
    requires Brings(s, resp, id) && s.dev.applying.None? && id !in s.dev.seen
    ensures CalmlyReaches(p, s, t) && t.net == s.net && t.dev.applying.None?
    ensures t.dev.ring == LastN(s.dev.ring + [id], p.seenCap) && t.dev.seen == LastN(s.dev.seen + [id], p.seenCap)
    ensures t.dev.letters.Keys == s.dev.letters.Keys + {id}
  {
    CalmlyItself(p, s);
    var s1 := Apply(p, s, Dev(Begin(resp)));
    CalmlyByStep(p, s, s, Dev(Begin(resp)));
    assert AtLetter(s1.dev) && CurrentLetter(s1.dev) == resp.letters[0];
    var s2 := Apply(p, s1, Dev(PutLetter));
    CalmlyByStep(p, s, s1, Dev(PutLetter));
    t := FinishRecording(p, s2, id);
    CalmlyOn(p, s, s2, t);
  }

  lemma FinishRecording(p: Params, s: State, id: LetterId) returns (t: State)
    requires AtLetter(s.dev) && CurrentLetter(s.dev).id == id && s.dev.applying.value.put
    ensures CalmlyReaches(p, s, t) && t.net == s.net && t.dev.applying.None? && t.dev.letters == s.dev.letters
    ensures t.dev.ring == LastN(s.dev.ring + [id], p.seenCap) && t.dev.seen == LastN(s.dev.seen + [id], p.seenCap)
  {
    CalmlyItself(p, s);
    var s1 := Apply(p, s, Dev(RingAppend));
    CalmlyByStep(p, s, s, Dev(RingAppend));
    t := Apply(p, s1, Dev(Abandon));
    CalmlyByStep(p, s, s1, Dev(Abandon));
  }

  lemma NewAtEnd<T>(ids: seq<T>, n: nat)
    requires n < |ids| && SeenRing.Distinct(ids)
    ensures ids[n] !in ids[..n] && ids[..n] + [ids[n]] == ids[..n + 1]
  {
  }

  /** The ring fills up, in RAM and on flash alike. */
  lemma {:induction false} FillRing(p: Params, s: State, resps: seq<Response>, ids: seq<LetterId>, n: nat) returns (t: State)
    requires s.dev == Formatted() && AllBrought(s, resps, ids) && SeenRing.Distinct(ids) && n <= |ids| && n <= p.seenCap
    ensures CalmlyReaches(p, s, t) && t.net == s.net && t.dev.applying.None?
    ensures t.dev.ring == t.dev.seen == ids[..n] && (n > 0 ==> ids[0] in t.dev.letters)
    decreases n
  {
    if n == 0 {
      t := s;
      CalmlyItself(p, s);
    } else {
      var u := FillRing(p, s, resps, ids, n - 1);
      NewAtEnd(ids, n - 1);
      assert Brings(u, resps[n - 1], ids[n - 1]);
      t := DeliverRecorded(p, u, resps[n - 1], ids[n - 1]);
      CalmlyOn(p, s, u, t);
    }
  }

  /** The child reads the letter. */
  lemma ReadIt(p: Params, s: State, lid: LetterId) returns (t: State)
    requires lid in s.dev.letters
    ensures CalmlyReaches(p, s, t) && t.net == s.net
    ensures t.dev == s.dev.(letters := s.dev.letters[lid := s.dev.letters[lid].(unread := false)])
  {
    CalmlyItself(p, s);
    t := Apply(p, s, Dev(MarkRead(lid)));
    CalmlyByStep(p, s, s, Dev(MarkRead(lid)));
  }

  /** It is evicted, and then forgotten by one refused append. */
  lemma EvictAndForget(p: Params, s: State, lid: LetterId, again: Response, other: Response, id: LetterId)
    returns (steps: seq<Step>, t: State)
    requires |s.dev.seen| == p.seenCap > 0 && s.dev.seen[0] == lid && SeenRing.Distinct(s.dev.seen)
    requires lid in s.dev.ring && lid in s.dev.letters && s.dev.applying.None?
    requires Brings(s, again, lid) && Brings(s, other, id) && id !in s.dev.seen
    ensures FlashRun(p, s, steps, t, lid, 1)
    ensures lid in t.dev.letters && t.dev.letters[lid].unread
  {
    var evicted := Apply(p, s, Dev(Evict(lid)));
    var rest;
    rest, t := RefusedAppendForgets(p, evicted, lid, again, other, id);
    steps := [Dev(Evict(lid))] + rest;
    assert steps[1..] == rest;
  }

  // ---------------------------------------------------------------- the exact condition

  /** A letter read at some moment of a run from a formatted device, and on flash ever since. */
  ghost predicate Episode(p: Params, lapses: nat, s0: State, before: seq<Step>, s: State, steps: seq<Step>, t: State, lid: LetterId)
  {
    && Init(s0) && IsRun(p, s0, before, s) && IsRun(p, s, steps, t)
    && Lapses(before) + Lapses(steps) <= lapses
    && IsLetterId(lid) && lid in s.dev.letters && !s.dev.letters[lid].unread
    && OnFlashThroughout(p, s, steps, lid)
  }

  predicate NotUnread(s: State, lid: LetterId)
  {
    lid in s.dev.letters ==> !s.dev.letters[lid].unread
  }

  /** A whole run with one lapse at the end of which the letter is unread again. */
  lemma ForgettingRun(p: Params, ids: seq<LetterId>)
    returns (s0: State, before: seq<Step>, s: State, steps: seq<Step>, t: State)
    requires p.seenCap > 0 && |ids| == p.seenCap + 1 && SeenRing.Distinct(ids)
    requires forall i :: 0 <= i < |ids| ==> IsLetterId(ids[i])
    ensures Episode(p, 1, s0, before, s, steps, t, ids[0]) && !NotUnread(t, ids[0])
  {
    var cap, lid := p.seenCap, ids[0];
    s0 := Start();
    var full, resps := FillNet(p, ids);
    var stocked := FillRing(p, full, resps, ids, cap);
    CalmlyOn(p, s0, full, stocked);
    s := ReadIt(p, stocked, lid);
    CalmlyOn(p, s0, stocked, s);
    before :| IsRun(p, s0, before, s) && Lapses(before) == 0;
    NewAtEnd(ids, cap);
    assert s.dev.seen == ids[..cap] && s.dev.seen[0] == lid;
    assert Brings(s, resps[0], lid) && Brings(s, resps[cap], ids[cap]);
    steps, t := EvictAndForget(p, s, lid, resps[0], resps[cap], ids[cap]);
  }

  /**
   Exactly when the store and the ring on flash keep a letter read: for every capacity, over all
   runs in which RAM falls behind the ring file at most `lapses` times, if and only if that is
   never. (The ids only have to exist: one more than the ring has places.)
   */
  lemma FlashRingSufficesIff(p: Params, lapses: nat, ids: seq<LetterId>)
    requires p.seenCap > 0 && |ids| == p.seenCap + 1 && SeenRing.Distinct(ids)
    requires forall i :: 0 <= i < |ids| ==> IsLetterId(ids[i])
    ensures (forall s0, before, s, steps, t, lid :: Episode(p, lapses, s0, before, s, steps, t, lid) ==> NotUnread(t, lid))
            <==> lapses == 0
  {
    if lapses == 0 {
      forall s0, before, s, steps, t, lid | Episode(p, 0, s0, before, s, steps, t, lid)
        ensures NotUnread(t, lid)
      {
        FlashRingSuffices(p, s0, before, s, steps, t, lid);
      }
    } else {
      var s0, before, s, steps, t := ForgettingRun(p, ids);
      assert Episode(p, lapses, s0, before, s, steps, t, ids[0]);
    }
  }
}
