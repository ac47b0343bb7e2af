/**
 A replayed letter gets its first answer again, and every ack on the wire is one the log knows:
 invariants of every run of the sync system.
 */
module SyncReplay {
  import opened Basics
  import opened AckRing
  import opened SyncSystem
  import opened SyncOutbound
  import opened SyncLosses

  // ---------------------------------------------------------------- the log and the ring

  /** A record that reached state.json, whatever was reported of it. */
  predicate IsRecord(e: Event)
  {
    e.Recorded? || e.HalfRecorded?
  }

  /** Records between two points of a history. */
  function Records(log: seq<Event>): (n: nat)
  {
    if log == [] then 0
    else Records(log[..|log| - 1]) + (if IsRecord(log[|log| - 1]) then 1 else 0)
  }

  /** What a ring allows next: no send or record for an id it answers, and only its own answer. */
  predicate Permits(ring: seq<Ack>, e: Event)
  {
    match e
    case Tried(id, _, _) => Lookup(ring, id).None?
    case Recorded(id, _) => Lookup(ring, id).None?
    case HalfRecorded(id, _) => Lookup(ring, id).None?
    case Acked(id, status) => Lookup(ring, id) == Some(status)
    case _ => true
  }

  ghost predicate Allowed(log: seq<Event>, k: nat)
    requires k < |log|
  {
    Permits(RingsOf(log[..k]).ram, log[k])
  }

  ghost predicate GoodLog(log: seq<Event>)
  {
    forall k :: 0 <= k < |log| ==> Allowed(log, k)
  }

  ghost predicate ReplayInv(srv: Server)
  {
    && LogInv(srv.rings, srv.log)
    && (srv.work.Some? && srv.work.value.stage.Recording? ==>
          AtItem(srv) && Lookup(srv.rings.ram, Current(srv.work.value).id).None?)
  }

  lemma GoodLogPush(log: seq<Event>, e: Event)
    requires GoodLog(log) && Allowed(log + [e], |log|)
    ensures GoodLog(log + [e])
  {
    forall k | 0 <= k < |log + [e]|
      ensures Allowed(log + [e], k)
    {
      if k < |log| {
        assert Allowed(log, k) && (log + [e])[..k] == log[..k];
      }
    }
  }

  ghost predicate LogInv(rs: Rings, log: seq<Event>)
  {
    rs == RingsOf(log) && GoodLog(log)
  }

  lemma LogInvPush(rs: Rings, log: seq<Event>, e: Event)
    requires LogInv(rs, log) && Permits(rs.ram, e)
    ensures LogInv(Pushed(rs, e), log + [e])
  {
    assert (log + [e])[..|log|] == log;
    GoodLogPush(log, e);
  }

  /** Trying a send, or refusing without one. */
  lemma SendKeepsReplay(srv: Server, box: Mailbox, ss: ServerStep)
    requires ReplayInv(srv) && ServerEnabled(srv, box, ss) && Sends(ss)
    ensures ReplayInv(ServerApply(srv, box, ss))
  {
    var it := Current(srv.work.value);
    LogInvPush(srv.rings, srv.log, Tried(it.id, it.note, ss.SendOk? || ss.SendUnsure?));
  }

  lemma RecordKeepsReplay(srv: Server, box: Mailbox)
    requires ReplayInv(srv) && ServerEnabled(srv, box, RecordOk)
    ensures ReplayInv(ServerApply(srv, box, RecordOk))
  {
    var w := srv.work.value;
    var e, f := Recorded(Current(w).id, w.stage.status), Acked(Current(w).id, w.stage.status);
    LogInvPush(srv.rings, srv.log, e);
    RecordLookup(srv.rings.ram, Ack(e.id, e.status), e.id);
    LogInvPush(Pushed(srv.rings, e), srv.log + [e], f);
    assert srv.log + [e, f] == srv.log + [e] + [f];
  }

  lemma HalfRecordKeepsReplay(srv: Server, box: Mailbox)
    requires ReplayInv(srv) && ServerEnabled(srv, box, RecordUnsure)
    ensures ReplayInv(ServerApply(srv, box, RecordUnsure))
  {
    var w := srv.work.value;
    LogInvPush(srv.rings, srv.log, HalfRecorded(Current(w).id, w.stage.status));
  }

  lemma ReplayKeepsReplay(srv: Server, box: Mailbox)
    requires ReplayInv(srv) && ServerEnabled(srv, box, Replay)
    ensures ReplayInv(ServerApply(srv, box, Replay))
  {
    var id := Current(srv.work.value).id;
    LogInvPush(srv.rings, srv.log, Acked(id, Lookup(srv.rings.ram, id).value));
  }

  lemma StartKeepsReplay(srv: Server, box: Mailbox, ss: ServerStep)
    requires ReplayInv(srv) && ServerEnabled(srv, box, ss) && (ss.Restart? || ss.RestoreBackup?)
    ensures ReplayInv(ServerApply(srv, box, ss))
  {
    LogInvPush(srv.rings, srv.log, if ss.Restart? then Restarted else Restored(RingsOf(srv.log[..ss.k]).disk));
  }

  lemma RewriteKeepsReplay(srv: Server, box: Mailbox)
    requires ReplayInv(srv)
    ensures ReplayInv(ServerApply(srv, box, Rewrite))
  {
    LogInvPush(srv.rings, srv.log, Rewritten);
  }

  lemma ServerKeepsReplay(srv: Server, box: Mailbox, ss: ServerStep)
    requires ReplayInv(srv) && ServerEnabled(srv, box, ss)
    ensures ReplayInv(ServerApply(srv, box, ss))
  {
    if Sends(ss) {
      SendKeepsReplay(srv, box, ss);
    } else {
      match ss {
        case Replay => ReplayKeepsReplay(srv, box);
        case RecordOk => RecordKeepsReplay(srv, box);
        case RecordUnsure => HalfRecordKeepsReplay(srv, box);
        case Rewrite => RewriteKeepsReplay(srv, box);
        case Restart => StartKeepsReplay(srv, box, ss);
        case RestoreBackup(_) => StartKeepsReplay(srv, box, ss);
        case _ =>
      }
    }
  }

  lemma StepKeepsReplay(p: Params, s: State, st: Step)
    requires ReplayInv(s.srv) && Enabled(p, s, st)
    ensures ReplayInv(Apply(p, s, st).srv)
  {
    if st.Srv? {
      ServerKeepsReplay(s.srv, s.box, st.ss);
    }
  }

  lemma {:induction false} RunKeepsReplay(p: Params, s: State, steps: seq<Step>, t: State)
    requires ReplayInv(s.srv) && IsRun(p, s, steps, t)
    ensures ReplayInv(t.srv)
    decreases |steps|
  {
    if steps != [] {
      StepKeepsReplay(p, s, steps[0]);
      RunKeepsReplay(p, Apply(p, s, steps[0]), steps[1..], t);
    }
  }

  /**
   How a recorded answer sits in the ring while it is young: it is the newest entry of its id,
   with exactly the later records behind it.
   */
  ghost predicate Sits(ring: seq<Ack>, a: Ack, later: nat)
  {
    && later < |ring|
    && ring[|ring| - 1 - later] == a
    && forall k :: |ring| - 1 - later < k < |ring| ==> ring[k].id != a.id
  }

  lemma SitsIsFound(ring: seq<Ack>, a: Ack, later: nat)
    requires Sits(ring, a, later)
    ensures Lookup(ring, a.id) == Some(a.status)
  {
    var older, newer := ring[..|ring| - later], ring[|ring| - later..];
    assert ring == older + newer && older[|older| - 1] == a;
    assert forall k :: 0 <= k < |newer| ==> newer[k] == ring[k + |older|];
    LookupSplit(older, newer, a.id);
  }

  /** A later record moves the seat back by one; capacity has not pushed it out. */
  lemma RecordMovesSeat(ring: seq<Ack>, a: Ack, later: nat, b: Ack)
    requires Sits(ring, a, later) && b.id != a.id && later + 1 < ACK_RING_SIZE
    ensures Sits(Record(ring, b), a, later + 1)
  {
    var grown := ring + [b];
    var kept := Record(ring, b);
    assert kept == grown[|grown| - |kept|..];
    assert forall k :: 0 <= k < |kept| ==> kept[k] == grown[k + |grown| - |kept|];
  }

  lemma NewestSits(ring: seq<Ack>, a: Ack)
    ensures Sits(Record(ring, a), a, 0)
  {
    var grown, kept := ring + [a], Record(ring, a);
    assert kept == grown[|grown| - |kept|..];
  }

  /** It sits no deeper than the later records put it. */
  ghost predicate Within(ring: seq<Ack>, a: Ack, later: nat)
  {
    exists d: nat :: d <= later && Sits(ring, a, d)
  }

  lemma WithinIsFound(ring: seq<Ack>, a: Ack, later: nat)
    requires Within(ring, a, later)
    ensures Lookup(ring, a.id) == Some(a.status)
  {
    var d: nat :| d <= later && Sits(ring, a, d);
    SitsIsFound(ring, a, d);
  }

  lemma RecordKeepsWithin(ring: seq<Ack>, a: Ack, later: nat, b: Ack)
    requires Within(ring, a, later) && b.id != a.id && later + 1 < ACK_RING_SIZE
    ensures Within(Record(ring, b), a, later + 1)
  {
    var d: nat :| d <= later && Sits(ring, a, d);
    RecordMovesSeat(ring, a, d, b);
  }

  /** In state.json and in RAM alike. */
  ghost predicate BothWithin(rs: Rings, a: Ack, later: nat)
  {
    Within(rs.disk, a, later) && Within(rs.ram, a, later)
  }

  lemma Deeper(ring: seq<Ack>, a: Ack, later: nat)
    requires Within(ring, a, later)
    ensures Within(ring, a, later + 1)
  {
    var d: nat :| d <= later && Sits(ring, a, d);
    assert d <= later + 1;
  }

  lemma EventKeepsWithin(rs: Rings, a: Ack, later: nat, e: Event)
    requires BothWithin(rs, a, later) && !e.Restored? && Permits(rs.ram, e)
    requires IsRecord(e) ==> later + 1 < ACK_RING_SIZE
    ensures BothWithin(Pushed(rs, e), a, later + if IsRecord(e) then 1 else 0)
  {
    if IsRecord(e) {
      WithinIsFound(rs.ram, a, later);
      RecordKeepsWithin(rs.ram, a, later, Ack(e.id, e.status));
      Deeper(rs.ram, a, later);
    }
  }

  lemma RecordsPush(log: seq<Event>, i: nat, j: nat)
    requires i < j <= |log|
    ensures Records(log[i..j]) == Records(log[i..j - 1]) + (if IsRecord(log[j - 1]) then 1 else 0)
  {
    assert log[i..j][..j - i - 1] == log[i..j - 1];
  }

  /** Until capacity is reached by later records, the answer keeps its seat, on disk and in RAM. */
  lemma {:induction false} StillSits(log: seq<Event>, i: nat, j: nat)
    requires i < j <= |log| && GoodLog(log) && log[i].Recorded?
    requires forall k :: i <= k < j ==> !log[k].Restored?
    requires Records(log[i + 1..j]) < ACK_RING_SIZE
    ensures BothWithin(RingsOf(log[..j]), Ack(log[i].id, log[i].status), Records(log[i + 1..j]))
    decreases j
  {
    var a := Ack(log[i].id, log[i].status);
    var rs := RingsOf(log[..j - 1]);
    assert log[..j][..j - 1] == log[..j - 1] && log[..j][j - 1] == log[j - 1];
    if j == i + 1 {
      assert log[i + 1..j] == [];
      NewestSits(rs.ram, a);
    } else {
      RecordsPush(log, i + 1, j);
      StillSits(log, i, j - 1);
      assert Allowed(log, j - 1);
      EventKeepsWithin(rs, a, Records(log[i + 1..j - 1]), log[j - 1]);
    }
  }

  lemma InitReplay(s: State)
    requires Init(s)
    ensures ReplayInv(s.srv)
  {
  }

  /**
   Replay is stable. Take any two moments of any run, the first a durable record that was reported
   done, with no backup restore between them and fewer than 4096 further records: then no send of
   the letter is tried again, it is not recorded again, and any ack for it carries the recorded
   status; restarts and half-failed writes notwithstanding.
   */
  lemma ReplayIsStable(p: Params, s: State, t: State, i: nat, j: nat)
    requires Init(s) && Reaches(p, s, t)
    requires i < j < |t.srv.log| && t.srv.log[i].Recorded?
    requires forall k :: i <= k < j ==> !t.srv.log[k].Restored?
    requires Records(t.srv.log[i + 1..j]) < ACK_RING_SIZE
    ensures t.srv.log[j].Tried? || IsRecord(t.srv.log[j]) ==> t.srv.log[j].id != t.srv.log[i].id
    ensures t.srv.log[j].Acked? && t.srv.log[j].id == t.srv.log[i].id ==> t.srv.log[j].status == t.srv.log[i].status
  {
    var steps :| IsRun(p, s, steps, t);
    InitReplay(s);
    RunKeepsReplay(p, s, steps, t);
    var log := t.srv.log;
    StillSits(log, i, j);
    WithinIsFound(RingsOf(log[..j]).ram, Ack(log[i].id, log[i].status), Records(log[i + 1..j]));
    assert Allowed(log, j);
  }

  /**
   That the record be reported done is needed: one that reached state.json and was reported as
   failed leaves RAM without it, and the same process sends the letter again.
   */
  lemma HalfRecordSendsAgain(p: Params, s: State, note: Note) returns (t: State, i: nat, j: nat)
    requires Init(s) && p.outboxCap > 0 && Lookup(s.srv.rings.ram, 1).None?
    ensures Reaches(p, s, t) && i < j < |t.srv.log|
    ensures t.srv.log[i] == HalfRecorded(1, Sent) && t.srv.log[j] == Tried(1, note, true)
    ensures forall k :: i < k < j ==> !t.srv.log[k].Restored? && !t.srv.log[k].Restarted?
  {
    var s1, req := ComposeAndAsk(p, s, note);
    var s2 := ReceiveAndSend(p, s1, 1, note, req);
    ReachesTransitive(p, s, s1, s2);
    assert Current(s2.srv.work.value).id == 1;
    var s3 := Apply(p, s2, Srv(RecordUnsure));
    ReachesByStep(p, s, s2, Srv(RecordUnsure));
    var s4 := Apply(p, s3, Srv(GiveUp));
    ReachesByStep(p, s, s3, Srv(GiveUp));
    t := ReceiveAndSend(p, s4, 1, note, req);
    ReachesTransitive(p, s, s4, t);
    i, j := |s.srv.log| + 1, |s.srv.log| + 2;
  }

  // ---------------------------------------------------------------- acks are logged

  ghost predicate Logged(acks: seq<Ack>, log: seq<Event>)
  {
    forall k :: 0 <= k < |acks| ==> Acked(acks[k].id, acks[k].status) in log
  }

  /** Every ack in a response, sent or being built, is an event of the log. */
  ghost predicate LoggedInv(s: State)
  {
    && (s.srv.work.Some? ==> Logged(s.srv.work.value.acks, s.srv.log))
    && (forall resp :: resp in s.net.responses ==> Logged(resp.acks, s.srv.log))
  }

  lemma WorkStaysLogged(srv: Server, box: Mailbox, ss: ServerStep)
    requires srv.work.Some? ==> Logged(srv.work.value.acks, srv.log)
    requires ServerEnabled(srv, box, ss)
    ensures var srv' := ServerApply(srv, box, ss);
            srv.log <= srv'.log && (srv'.work.Some? ==> Logged(srv'.work.value.acks, srv'.log))
  {
    var srv' := ServerApply(srv, box, ss);
    if ss.Replay? || ss.RecordOk? {
      var acks := srv'.work.value.acks;
      var a := acks[|acks| - 1];
      assert srv'.log[|srv'.log| - 1] == Acked(a.id, a.status);
      assert acks[..|acks| - 1] == srv.work.value.acks;
    }
  }

  lemma StepKeepsLogged(p: Params, s: State, st: Step)
    requires LoggedInv(s) && Enabled(p, s, st)
    ensures LoggedInv(Apply(p, s, st))
  {
    if st.Srv? {
      WorkStaysLogged(s.srv, s.box, st.ss);
      var t := Apply(p, s, st);
      forall resp | resp in t.net.responses
        ensures Logged(resp.acks, t.srv.log)
      {
        if resp in s.net.responses {
          assert Logged(resp.acks, s.srv.log);
        }
      }
    }
  }

  lemma {:induction false} RunKeepsLogged(p: Params, s: State, steps: seq<Step>, t: State)
    requires LoggedInv(s) && IsRun(p, s, steps, t)
    ensures LoggedInv(t)
    decreases |steps|
  {
    if steps != [] {
      StepKeepsLogged(p, s, steps[0]);
      RunKeepsLogged(p, Apply(p, s, steps[0]), steps[1..], t);
    }
  }

  /** So what `ReplayIsStable` says of the log it says of every ack of every response ever sent. */
  lemma EveryAckIsLogged(p: Params, s: State, t: State, resp: Response, k: nat)
    requires Init(s) && Reaches(p, s, t) && resp in t.net.responses && k < |resp.acks|
    ensures Acked(resp.acks[k].id, resp.acks[k].status) in t.srv.log
  {
    var steps :| IsRun(p, s, steps, t);
    RunKeepsLogged(p, s, steps, t);
  }
}
