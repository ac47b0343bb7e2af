/**
 The filing passes and releases as code (internal/filing/filing.go, release.go). Each is shown to
 be a run of the step system, whichever IMAP command fails, and each pass that nothing disturbs
 is shown to leave exactly the messages it should.
 */
module FilingService {
  import opened Basics
  import opened Addresses
  import opened Ayllu
  import opened Filing
  import Assembly

  // ---------------------------------------------------------------- runs

  /** The steps that are this process's own: no mail arrives or goes, and nothing dies. */
  predicate Own(st: Step)
  {
    !st.Arrive? && !st.ArriveAsSpam? && !st.Depart? && !st.DepartHeld? && !st.Restart?
  }

  ghost predicate Closed(c: iset<State>, max: nat)
  {
    forall s, st :: s in c && Enabled(s, max, st) && Own(st) ==> Apply(s, max, st) in c
  }

  /** Some run leads from `s` to `t`: no set closed under the steps holds `s` without `t`. */
  ghost predicate Reaches(s: State, max: nat, t: State)
  {
    forall c :: Closed(c, max) && s in c ==> t in c
  }

  lemma Stays(s: State, max: nat)
    ensures Reaches(s, max, s)
  {
  }

  lemma Push(s: State, max: nat, t: State, st: Step)
    requires Reaches(s, max, t) && Enabled(t, max, st) && Own(st)
    ensures Reaches(s, max, Apply(t, max, st))
  {
  }

  lemma ReachesOn(s: State, max: nat, t: State, u: State)
    requires Reaches(s, max, t) && Reaches(t, max, u)
    ensures Reaches(s, max, u)
  {
  }

  lemma {:induction false} RunPush(s: State, max: nat, steps: seq<Step>, t: State, st: Step)
    requires Run(s, max, steps, t) && Enabled(t, max, st)
    ensures Run(s, max, steps + [st], Apply(t, max, st))
    decreases |steps|
  {
    if steps == [] {
      assert steps + [st] == [st] && [st][1..] == [];
    } else {
      assert (steps + [st])[1..] == steps[1..] + [st];
      RunPush(Apply(s, max, steps[0]), max, steps[1..], t, st);
    }
  }

  ghost predicate HasRun(s: State, max: nat, t: State)
  {
    exists run :: Run(s, max, run, t)
  }

  lemma ReachesByRun(s: State, max: nat, t: State) returns (steps: seq<Step>)
    requires Reaches(s, max, t)
    ensures Run(s, max, steps, t)
  {
    var c := iset u | HasRun(s, max, u);
    assert Run(s, max, [], s);
    forall u, st | HasRun(s, max, u) && Enabled(u, max, st)
      ensures HasRun(s, max, Apply(u, max, st))
    {
      var run :| Run(s, max, run, u);
      RunPush(s, max, run, u, st);
    }
    assert Closed(c, max);
    steps :| Run(s, max, steps, t);
  }

  lemma Changed(s: State, max: nat, c: Call, t: State)
    requires Inv(s) && Enabled(s, max, Change(c)) && t == Apply(s, max, Change(c))
    ensures Reaches(s, max, t) && Inv(t)
  {
    Stays(s, max);
    Push(s, max, s, Change(c));
    StepKeepsInv(s, max, Change(c));
  }

  lemma ReachedIsGood(s: State, max: nat, t: State)
    requires Inv(s) && Reaches(s, max, t)
    ensures Inv(t)
  {
    var steps := ReachesByRun(s, max, t);
    RunKeepsInv(s, max, steps, t);
  }

  lemma BeginsSweep(s: State, max: nat, uids: seq<nat>, boundary: Option<nat>)
    requires s.job.Idle? && IsList(uids, s.inbox)
    ensures Reaches(s, max, s.(job := Sweep(uids, boundary, 0, s.next)))
  {
    Stays(s, max);
    Push(s, max, s, BeginSweep(uids, boundary));
  }

  lemma EndsSweep(s: State, max: nat, t: State)
    requires Reaches(s, max, t) && t.job.Sweep? && t.job.todo == []
    ensures Reaches(s, max, t.(job := Idle, highWater := Max(t.highWater, t.job.max), seeded := true))
  {
    Push(s, max, t, End);
  }

  // ---------------------------------------------------------------- what is left behind

  /** INBOX without what a reconciling pass over `uids` quarantines. */
  ghost function Sifted(t: Table, f: Folder, uids: seq<nat>, boundary: Option<nat>): Folder
  {
    map u | u in f && !(u in uids && Unwanted(t, u, f[u], boundary)) :: f[u]
  }

  /** INBOX without what a whole reconciling pass quarantines. */
  ghost function Wanted(t: Table, f: Folder, boundary: Option<nat>): Folder
  {
    map u | u in f && !Unwanted(t, u, f[u], boundary) :: f[u]
  }

  lemma SiftedWhole(t: Table, f: Folder, uids: seq<nat>, boundary: Option<nat>)
    requires IsList(uids, f)
    ensures Sifted(t, f, uids, boundary) == Wanted(t, f, boundary)
  {
  }

  /** INBOX without what an arrival pass from mark `from` to mark `to` quarantines. */
  ghost function Admitted(t: Table, f: Folder, from: nat, to: nat): Folder
  {
    map u | u in f && !(from < u <= to && !Welcome(t, f[u])) :: f[u]
  }

  lemma SiftedPush(t: Table, f: Folder, uids: seq<nat>, k: nat, boundary: Option<nat>)
    requires k < |uids| && uids[k] in f
    ensures Sifted(t, f, uids[..k + 1], boundary)
         == if Unwanted(t, uids[k], f[uids[k]], boundary) then Sifted(t, f, uids[..k], boundary) - {uids[k]}
            else Sifted(t, f, uids[..k], boundary)
  {
    assert uids[..k + 1] == uids[..k] + [uids[k]];
  }

  lemma AdmittedPush(t: Table, f: Folder, from: nat, to: nat, uid: nat)
    requires from <= to < uid && forall u :: u in f && to < u <= uid ==> u == uid
    ensures Admitted(t, f, from, uid)
         == if uid in f && !Welcome(t, f[uid]) then Admitted(t, f, from, to) - {uid} else Admitted(t, f, from, to)
  {
  }

  lemma FetchIsPrefix(all: seq<nat>, f: Folder, uid: nat, max: nat)
    requires Sorted(all) && forall u :: u in all <==> u in f && u > uid
    ensures IsFetch(if |all| > max then all[..max] else all, f, uid, max)
  {
    var uids := if |all| > max then all[..max] else all;
    assert forall i :: 0 <= i < |uids| ==> uids[i] == all[i] && uids[i] in uids;
    forall u | u in f && u > uid && u !in uids
      ensures |uids| == max && forall v :: v in uids ==> v < u
    {
      assert u in all;
      var k :| 0 <= k < |all| && all[k] == u;
    }
    assert forall u :: u in uids ==> u in all;
  }

  lemma AdmittedChain(t: Table, f: Folder, from: nat, mid: nat, to: nat)
    requires from <= mid <= to
    ensures Admitted(t, Admitted(t, f, from, mid), mid, to) == Admitted(t, f, from, to)
  {
  }

  /** Between two neighbours of a batch there is nothing else. */
  lemma BatchGap(batch: seq<nat>, f: Folder, mark: nat, max: nat, i: nat)
    requires IsFetch(batch, f, mark, max) && i < |batch|
    ensures var low := if i == 0 then mark else batch[i - 1];
            low < batch[i] && forall u :: u in f && low < u <= batch[i] ==> u == batch[i]
  {
    var low := if i == 0 then mark else batch[i - 1];
    assert batch[i] in batch;
    forall u | u in f && low < u <= batch[i]
      ensures u == batch[i]
    {
      assert u > mark by {
        assert i > 0 ==> batch[i - 1] in batch;
      }
      assert u in batch;
      var k :| 0 <= k < |batch| && batch[k] == u;
    }
  }

  /** A short batch leaves nothing above its last message. */
  lemma BatchIsLast(batch: seq<nat>, f: Folder, mark: nat)
    requires batch != [] && IsFetch(batch, f, mark, BATCH) && |batch| < BATCH
    ensures forall u :: u in f ==> u <= batch[|batch| - 1]
  {
    forall u | u in f
      ensures u <= batch[|batch| - 1]
    {
      assert batch[|batch| - 1] in batch;
      if u > mark {
        assert u in batch;
        var k :| 0 <= k < |batch| && batch[k] == u;
      }
    }
  }

  datatype ReleaseResult = Released | NotHeld | NoSender | WrongContact | Refused | MoveFailed | ArrivalFailed

  /** INBOX after a release and its arrival pass: who was above the mark stays only if welcome. */
  ghost predicate AsFiled(t: Table, before: Folder, mark: nat, uid: nat, a: Article, after: Folder)
  {
    && (forall u :: u in before ==> (u in after <==> u <= mark || Welcome(t, before[u])))
    && (uid in after <==> Welcome(t, a)) && (uid in after ==> after[uid] == a)
  }

  class Service {
    const ayllu: FileStore
    var inbox: Folder
    var next: nat
    var held: Folder
    var heldNext: nat
    var spam: Folder
    var spamNext: nat
    var highWater: nat
    ghost var seeded: bool

    constructor (ayllu: FileStore, inbox: Folder, next: nat, held: Folder, heldNext: nat, spam: Folder, spamNext: nat)
      requires ayllu.Valid() && AllWellFormed(inbox) && AllWellFormed(held) && AllWellFormed(spam)
      requires 0 < next && Below(inbox, next) && Below(held, heldNext) && Below(spam, spamNext) && 0 !in inbox
      ensures this.ayllu == ayllu && Valid()
      ensures View() == State(ayllu.View(), inbox, next, held, heldNext, spam, spamNext, 0, false, Idle)
    {
      this.ayllu := ayllu;
      this.inbox, this.next, this.held, this.heldNext := inbox, next, held, heldNext;
      this.spam, this.spamNext := spam, spamNext;
      this.highWater := 0;
      this.seeded := false;
    }

    ghost function At(job: Job): State
      reads this, ayllu
    {
      State(ayllu.View(), inbox, next, held, heldNext, spam, spamNext, highWater, seeded, job)
    }

    ghost function View(): State
      reads this, ayllu
    {
      At(Idle)
    }

    ghost predicate Valid()
      reads this, ayllu
    {
      ayllu.Valid() && Inv(View())
    }

    method FetchAbove(uid: nat, max: nat) returns (uids: seq<nat>)
      ensures IsFetch(uids, inbox, uid, max)
    {
      var all := SortedIds(set u | u in inbox && u > uid);
      FetchIsPrefix(all, inbox, uid, max);
      return if |all| > max then all[..max] else all;
    }

    /** filing.go:273-284: what the full table says of one message. */
    method Judge(uid: nat, a: Article, boundary: Option<nat>) returns (unwanted: bool)
      ensures unwanted == Unwanted(ayllu.contacts, uid, a, boundary)
    {
      if a.sender.None? {
        return true;
      }
      var contact := ResolveLocked(ayllu.contacts, a.sender.value.key, false);
      return contact.None? || (boundary.Some? && !contact.value.active && uid > boundary.value);
    }

    /** IMAP MOVE from INBOX to Held. */
    method MoveToHeld(uid: nat, refuses: map<nat, bool>) returns (fate: Fate)
      requires uid in inbox
      modifies this`inbox, this`held, this`heldNext
      ensures View() == if fate.Done? || fate.effect then Quarantined(old(View()), uid) else old(View())
      ensures fate.Done? <==> uid !in refuses
    {
      fate := if uid in refuses then Failed(refuses[uid]) else Done;
      if fate.Done? || fate.effect {
        held, heldNext, inbox := held[heldNext := inbox[uid]], heldNext + 1, inbox - {uid};
      }
    }

    /** filing.go:268-299: one message of the reconciling pass. */
    method SweepOne(ghost start: State, ghost rest: seq<nat>, ghost mark: nat,
                    uid: nat, boundary: Option<nat>, maxUid: nat, refuses: map<nat, bool>)
      returns (ok: bool, top: nat)
      requires uid in inbox
      requires Reaches(start, ayllu.max, At(Sweep([uid] + rest, boundary, maxUid, mark)))
      modifies this`inbox, this`held, this`heldNext
      ensures top == Max(maxUid, uid)
      ensures ok ==> Reaches(start, ayllu.max, At(Sweep(rest, boundary, top, mark)))
      ensures ok ==> inbox == if Unwanted(ayllu.contacts, uid, old(inbox)[uid], boundary) then old(inbox) - {uid} else old(inbox)
      ensures !ok ==> Reaches(start, ayllu.max, View())
    {
      ghost var before := At(Sweep([uid] + rest, boundary, maxUid, mark));
      assert ([uid] + rest)[1..] == rest;
      top := if uid > maxUid then uid else maxUid;
      Push(start, ayllu.max, before, Look);
      var unwanted := Judge(uid, inbox[uid], boundary);
      if !unwanted {
        return true, top;
      }
      ghost var looked := At(SweepMove(uid, rest, boundary, top, mark));
      var fate := MoveToHeld(uid, refuses);
      Push(start, ayllu.max, looked, Move(fate));
      return fate.Done?, top;
    }

    /** filing.go:267-299: the loop. */
    method SweepAll(ghost start: State, uids: seq<nat>, boundary: Option<nat>, refuses: map<nat, bool>)
      returns (ok: bool, maxUid: nat)
      requires IsList(uids, inbox)
      requires Reaches(start, ayllu.max, At(Sweep(uids, boundary, 0, start.next)))
      modifies this`inbox, this`held, this`heldNext
      ensures ok ==> inbox == Sifted(ayllu.contacts, old(inbox), uids, boundary) && forall u :: u in uids ==> u <= maxUid
      ensures ok ==> Reaches(start, ayllu.max, At(Sweep([], boundary, maxUid, start.next)))
      ensures !ok ==> Reaches(start, ayllu.max, View())
    {
      ghost var inbox0, table := inbox, ayllu.contacts;
      maxUid := 0;
      assert uids[0..] == uids && uids[..0] == [];
      for i := 0 to |uids|
        invariant inbox == Sifted(table, inbox0, uids[..i], boundary)
        invariant Reaches(start, ayllu.max, At(Sweep(uids[i..], boundary, maxUid, start.next)))
        invariant forall k :: 0 <= k < i ==> uids[k] <= maxUid
      {
        assert uids[i] in inbox by {
          assert uids[i] in uids && uids[i] !in uids[..i];
        }
        SiftedPush(table, inbox0, uids, i, boundary);
        assert uids[i..] == [uids[i]] + uids[i + 1..];
        ok, maxUid := SweepOne(start, uids[i + 1..], start.next, uids[i], boundary, maxUid, refuses);
        if !ok {
          return;
        }
      }
      assert uids[|uids|..] == [] && uids[..|uids|] == uids;
      ok := true;
    }

    /** filing.go:261-305. `refuses` holds the uids whose MOVE reports an error, and whether it took effect. */
    method ReconcileLocked(boundary: Option<nat>, refuses: map<nat, bool>) returns (ok: bool)
      requires Valid()
      modifies this
      ensures Valid() && Reaches(old(View()), ayllu.max, View())
      ensures ok ==> inbox == Wanted(ayllu.contacts, old(inbox), boundary)
      ensures ok ==> seeded && forall u :: u in old(inbox) ==> u <= highWater
      ensures !ok ==> highWater == old(highWater) && seeded == old(seeded)
    {
      ghost var start := View();
      var uids := SortedIds(inbox.Keys);
      var maxUid;
      BeginsSweep(start, ayllu.max, uids, boundary);
      ok, maxUid := SweepAll(start, uids, boundary, refuses);
      if ok {
        SiftedWhole(ayllu.contacts, old(inbox), uids, boundary);
        EndsSweep(start, ayllu.max, At(Sweep([], boundary, maxUid, start.next)));
        highWater := if maxUid > highWater then maxUid else highWater;
        seeded := true;
      }
      ReachedIsGood(start, ayllu.max, View());
    }

    /** filing.go:339-345: one arrival. */
    method FileOne(ghost start: State, ghost rest: seq<nat>, uid: nat, refuses: map<nat, bool>) returns (ok: bool)
      requires uid in inbox && highWater < uid
      requires Reaches(start, ayllu.max, At(File([uid] + rest)))
      modifies this`inbox, this`held, this`heldNext, this`highWater
      ensures ok ==> highWater == uid && Reaches(start, ayllu.max, At(File(rest)))
      ensures ok ==> inbox == if Welcome(ayllu.contacts, old(inbox)[uid]) then old(inbox) else old(inbox) - {uid}
      ensures !ok ==> Reaches(start, ayllu.max, View())
    {
      ghost var before := At(File([uid] + rest));
      assert ([uid] + rest)[1..] == rest;
      Push(start, ayllu.max, before, Look);
      var sender := inbox[uid].sender;
      if sender.Some? {
        var contact := ResolveLocked(ayllu.contacts, sender.value.key, true);
        if contact.Some? {
          highWater := uid;
          return true;
        }
      }
      ghost var looked := At(FileMove(uid, rest));
      var fate := MoveToHeld(uid, refuses);
      Push(start, ayllu.max, looked, Move(fate));
      if fate.Failed? {
        return false;
      }
      highWater := uid;
      return true;
    }

    /** filing.go:338-346: one batch. */
    method FileBatch(ghost start: State, batch: seq<nat>, refuses: map<nat, bool>) returns (ok: bool)
      requires IsFetch(batch, inbox, highWater, BATCH)
      requires Reaches(start, ayllu.max, At(File(batch)))
      modifies this`inbox, this`held, this`heldNext, this`highWater
      ensures ok ==> Reaches(start, ayllu.max, At(File([]))) && inbox == Admitted(ayllu.contacts, old(inbox), old(highWater), highWater)
      ensures ok ==> highWater == if batch == [] then old(highWater) else batch[|batch| - 1]
      ensures !ok ==> Reaches(start, ayllu.max, View())
    {
      ghost var inbox0, mark0, table := inbox, highWater, ayllu.contacts;
      assert batch[0..] == batch;
      assert inbox == Admitted(table, inbox0, mark0, mark0);
      for i := 0 to |batch|
        invariant highWater == if i == 0 then mark0 else batch[i - 1]
        invariant mark0 <= highWater && inbox == Admitted(table, inbox0, mark0, highWater)
        invariant Reaches(start, ayllu.max, At(File(batch[i..])))
      {
        BatchGap(batch, inbox0, mark0, BATCH, i);
        AdmittedPush(table, inbox0, mark0, highWater, batch[i]);
        assert batch[i] in batch;
        assert batch[i..] == [batch[i]] + batch[i + 1..];
        ok := FileOne(start, batch[i + 1..], batch[i], refuses);
        if !ok {
          return;
        }
      }
      assert batch[|batch|..] == [];
      ok := true;
    }

    /** filing.go:329-355. */
    method HandleNotifyLocked(refuses: map<nat, bool>) returns (ok: bool)
      requires Valid()
      modifies this`inbox, this`held, this`heldNext, this`highWater
      ensures Valid() && Reaches(old(View()), ayllu.max, View())
      ensures ok ==> inbox == Admitted(ayllu.contacts, old(inbox), old(highWater), highWater)
      ensures ok ==> forall u :: u in old(inbox) ==> u <= highWater
    {
      ghost var start, table, mark0 := View(), ayllu.contacts, highWater;
      Stays(start, ayllu.max);
      while true
        invariant Inv(View()) && Reaches(start, ayllu.max, View())
        invariant mark0 <= highWater && inbox == Admitted(table, old(inbox), mark0, highWater)
        decreases next - highWater
      {
        var batch := FetchAbove(highWater, BATCH);
        ghost var mark1, inbox1 := highWater, inbox;
        assert forall u :: u in old(inbox) ==> u in inbox1 || u <= mark1;
        if batch == [] {
          assert forall u :: u in inbox1 ==> u in batch || u <= mark1;
          return true;
        }
        Push(start, ayllu.max, View(), BeginFile(batch));
        assert batch[|batch| - 1] in batch;
        ok := FileBatch(start, batch, refuses);
        if !ok {
          ReachedIsGood(start, ayllu.max, View());
          return false;
        }
        AdmittedChain(table, old(inbox), mark0, mark1, highWater);
        Push(start, ayllu.max, At(File([])), End);
        ReachedIsGood(start, ayllu.max, View());
        if |batch| < BATCH {
          BatchIsLast(batch, inbox1, mark1);
          return true;
        }
      }
    }

    method SpamOne(ghost start: State, uid: nat, refuses: map<nat, bool>) returns (ok: bool)
      requires uid in spam && Reaches(start, ayllu.max, View())
      modifies this`spam, this`held, this`heldNext
      ensures Reaches(start, ayllu.max, View())
      ensures ok ==> spam == old(spam) - {uid}
    {
      var fate := if uid in refuses then Failed(refuses[uid]) else Done;
      if fate.Done? || fate.effect {
        Push(start, ayllu.max, View(), SpamToHeld(uid));
        held, heldNext, spam := held[heldNext := spam[uid]], heldNext + 1, spam - {uid};
      }
      return fate.Done?;
    }

    /** filing.go:381-397: everything in Spam goes to Held, whoever sent it. */
    method CheckSpam(refuses: map<nat, bool>) returns (ok: bool)
      requires Valid()
      modifies this`spam, this`held, this`heldNext
      ensures Valid() && Reaches(old(View()), ayllu.max, View())
      ensures ok ==> spam == map[]
    {
      ghost var start := View();
      Stays(start, ayllu.max);
      var uids := SortedIds(spam.Keys);
      ok := true;
      var i := 0;
      while i < |uids| && ok
        invariant i <= |uids| && Reaches(start, ayllu.max, View())
        invariant ok ==> forall u :: u in spam <==> u in uids[i..]
      {
        assert uids[i..] == [uids[i]] + uids[i + 1..];
        assert uids[i] !in uids[i + 1..];
        ok := SpamOne(start, uids[i], refuses);
        i := i + 1;
      }
      ReachedIsGood(start, ayllu.max, View());
    }

    /** release.go:67-75 and 138-143: the MOVE back to INBOX, then the arrival pass over whatever is new there. */
    method MoveAndFile(uid: nat, fate: Fate, refuses: map<nat, bool>) returns (r: ReleaseResult)
      requires Valid() && uid in held
      modifies this
      ensures Valid() && Reaches(old(View()), ayllu.max, View())
      ensures r in {Released, MoveFailed, ArrivalFailed} && (r == MoveFailed <==> fate.Failed?)
      ensures r == MoveFailed && fate == Failed(false) ==> held == old(held) && inbox == old(inbox)
      ensures r == Released ==> AsFiled(ayllu.contacts, old(inbox), old(highWater), old(next), old(held)[uid], inbox)
    {
      ghost var start := View();
      Stays(start, ayllu.max);
      if fate.Done? || fate.effect {
        Push(start, ayllu.max, start, Step.Release(uid));
        inbox, next, held := inbox[next := held[uid]], next + 1, held - {uid};
        ReachedIsGood(start, ayllu.max, View());
      }
      if fate.Failed? {
        return MoveFailed;
      }
      ghost var moved := View();
      var ok := HandleNotifyLocked(refuses);
      ReachesOn(start, ayllu.max, moved, View());
      return if ok then Released else ArrivalFailed;
    }

    /** release.go:47-76: add the sender as a contact, then release. */
    method ReleaseStranger(uid: nat, looks: Looks, l: Luck, fate: Fate, refuses: map<nat, bool>) returns (r: ReleaseResult)
      requires Valid() && FreshFor(ayllu.contacts, l)
      modifies this, ayllu
      ensures Valid() && Reaches(old(View()), ayllu.max, View())
      ensures r in {NotHeld, NoSender, Refused} ==> held == old(held) && inbox == old(inbox)
      ensures r == MoveFailed && fate == Failed(false) ==> held == old(held) && inbox == old(inbox)
      ensures r == Released ==> uid in old(held) && old(next) in inbox && inbox[old(next)] == old(held)[uid]
    {
      Stays(View(), ayllu.max);
      if uid !in held {
        return NotHeld;
      }
      var a := held[uid];
      if a.sender.None? {
        return NoSender;
      }
      ghost var start := View();
      ghost var call := Call(Add(a.sender.value, looks), l);
      var event := ayllu.Mutate(Add(a.sender.value, looks), l);
      Changed(start, ayllu.max, call, View());
      if event.None? {
        return Refused;
      }
      AddedIsActive(start.store, ayllu.max, a.sender.value, looks, l);
      ghost var changed := View();
      r := MoveAndFile(uid, fate, refuses);
      ReachesOn(start, ayllu.max, changed, View());
    }

    /** release.go:94-126: reactivate the very contact the letter resolves to, then release. */
    method ReleaseDeactivated(uid: nat, id: Id, l: Luck, fate: Fate, refuses: map<nat, bool>) returns (r: ReleaseResult)
      requires Valid() && FreshFor(ayllu.contacts, l)
      modifies this, ayllu
      ensures Valid() && Reaches(old(View()), ayllu.max, View())
      ensures r in {NotHeld, NoSender, WrongContact, Refused} ==> held == old(held) && inbox == old(inbox)
      ensures r == MoveFailed && fate == Failed(false) ==> held == old(held) && inbox == old(inbox)
      ensures r == Released ==> uid in old(held) && (old(next) in inbox <==> Welcome(ayllu.contacts, old(held)[uid]))
    {
      Stays(View(), ayllu.max);
      if uid !in held {
        return NotHeld;
      }
      var a := held[uid];
      if a.sender.None? {
        return NoSender;
      }
      var contact := ResolveLocked(ayllu.contacts, a.sender.value.key, false);
      if contact.None? || contact.value.id != id {
        return WrongContact;
      }
      ghost var start := View();
      var event := ayllu.Mutate(Reactivate(id), l);
      Changed(start, ayllu.max, Call(Reactivate(id), l), View());
      if event.None? {
        return Refused;
      }
      ghost var changed := View();
      r := MoveAndFile(uid, fate, refuses);
      ReachesOn(start, ayllu.max, changed, View());
    }

    /** release.go:162-186: the sender is an active contact already. */
    method ReleaseActive(uid: nat, fate: Fate, refuses: map<nat, bool>) returns (r: ReleaseResult)
      requires Valid()
      modifies this
      ensures Valid() && Reaches(old(View()), ayllu.max, View())
      ensures r in {NotHeld, NoSender, WrongContact} ==> View() == old(View())
      ensures r == MoveFailed && fate == Failed(false) ==> held == old(held) && inbox == old(inbox)
      ensures r == Released ==> uid in old(held) && old(next) in inbox && inbox[old(next)] == old(held)[uid]
      ensures r == Released ==>
                forall u :: u in old(inbox) ==> (u in inbox <==> u <= old(highWater) || Welcome(ayllu.contacts, old(inbox)[u]))
    {
      Stays(View(), ayllu.max);
      if uid !in held {
        return NotHeld;
      }
      var a := held[uid];
      if a.sender.None? {
        return NoSender;
      }
      var contact := ResolveLocked(ayllu.contacts, a.sender.value.key, true);
      if contact.None? {
        return WrongContact;
      }
      r := MoveAndFile(uid, fate, refuses);
    }
  }

  // ---------------------------------------------------------------- where the source falls short

  /**
   The web interface serves releases as soon as the process is up, while the startup pass may still
   be failing and retrying. A release then files arrivals from a mark of zero: the oldest letter in
   INBOX, decided long ago, is judged again by the active contacts only and quarantined, if its
   sender is no longer one of them.
   */
  lemma EarlyReleaseUndecides(s: State, max: nat, u: nat, h: nat, batch: seq<nat>) returns (steps: seq<Step>, t: State)
    requires Inv(s) && s.job.Idle? && h in s.held
    requires 0 < u <= s.highWater && u in s.inbox && (forall v :: v in s.inbox ==> u <= v)
    requires !Welcome(s.store.table, s.inbox[u])
    requires IsFetch(batch, s.inbox[s.next := s.held[h]], 0, BATCH)
    ensures Run(s, max, steps, t) && u !in t.inbox
    ensures steps != [] && steps[0] == Restart
  {
    var s1 := Apply(s, max, Restart);
    Stays(s1, max);
    Push(s1, max, s1, Release(h));
    var s2 := s1.(held := s.held - {h}, inbox := s.inbox[s.next := s.held[h]], next := s.next + 1);
    t := EarlyPassJudgesAgain(s2, max, u, batch);
    ReachesOn(s1, max, s2, t);
    var rest := ReachesByRun(s1, max, t);
    steps := [Restart] + rest;
  }

  lemma EarlyPassJudgesAgain(s: State, max: nat, u: nat, batch: seq<nat>) returns (t: State)
    requires s.job.Idle? && s.highWater == 0 && IsFetch(batch, s.inbox, 0, BATCH)
    requires 0 < u && u in s.inbox && (forall v :: v in s.inbox ==> u <= v)
    requires !Welcome(s.store.table, s.inbox[u])
    ensures Reaches(s, max, t) && u !in t.inbox
  {
    Stays(s, max);
    Push(s, max, s, BeginFile(batch));
    FirstOfFetch(batch, s.inbox, u);
    var s3 := s.(job := File(batch));
    Push(s, max, s3, Look);
    var s4 := s3.(job := FileMove(u, batch[1..]));
    Push(s, max, s4, Move(Done));
    t := AfterMove(s4, Done);
  }

  lemma FirstOfFetch(batch: seq<nat>, f: Folder, u: nat)
    requires IsFetch(batch, f, 0, BATCH) && u in f && 0 < u && forall v :: v in f ==> u <= v
    ensures batch != [] && batch[0] == u
  {
    assert u in batch by {
      assert batch != [] ==> batch[0] in batch;
    }
    var k :| 0 <= k < |batch| && batch[k] == u;
    assert batch[0] in batch;
  }

  /** With INBOX filed up to its mark, a release and its arrival pass: the letter stays only if welcome. */
  lemma ReleaseThenFile(s: State, max: nat, h: nat) returns (t: State)
    requires s.job.Idle? && h in s.held && s.highWater < s.next && Below(s.inbox, s.next) && Below(s.held, s.heldNext)
    requires forall u :: u in s.inbox ==> u <= s.highWater
    ensures Reaches(s, max, t) && t.job.Idle? && t.store == s.store
    ensures Welcome(s.store.table, s.held[h]) ==> t.inbox == s.inbox[s.next := s.held[h]] && t.held == s.held - {h}
    ensures !Welcome(s.store.table, s.held[h]) ==> t.inbox == s.inbox && t.held == (s.held - {h})[s.heldNext := s.held[h]]
  {
    var a := s.held[h];
    Stays(s, max);
    Push(s, max, s, Release(h));
    var s1 := s.(held := s.held - {h}, inbox := s.inbox[s.next := a], next := s.next + 1);
    assert IsFetch([s.next], s1.inbox, s1.highWater, BATCH);
    Push(s, max, s1, BeginFile([s.next]));
    t := FileTheOne(s1.(job := File([s.next])), max, s.next);
    ReachesOn(s, max, s1.(job := File([s.next])), t);
    assert s1.inbox - {s.next} == s.inbox;
  }

  lemma FileTheOne(s: State, max: nat, uid: nat) returns (t: State)
    requires s.job == File([uid]) && uid in s.inbox && uid > s.highWater
    ensures Reaches(s, max, t) && t.job.Idle? && t.store == s.store
    ensures Welcome(s.store.table, s.inbox[uid]) ==> t.inbox == s.inbox && t.held == s.held
    ensures !Welcome(s.store.table, s.inbox[uid]) ==> t.inbox == s.inbox - {uid} && t.held == s.held[s.heldNext := s.inbox[uid]]
  {
    Stays(s, max);
    assert [uid][1..] == [];
    Push(s, max, s, Look);
    var s1 := Filed(s);
    if s1.job.FileMove? {
      Push(s, max, s1, Move(Done));
      s1 := AfterMove(s1, Done);
    }
    Push(s, max, s1, End);
    t := Apply(s1, max, End);
  }

  /**
   A letter released from an address its sender no longer uses: whatever the table, when the
   address is a past one of some row and the current one of no active row, the letter is known,
   yet the arrival pass of its own release takes it straight back to Held.
   */
  lemma PastAddressGoesBack(s: State, max: nat, h: nat, id: Id) returns (t: State)
    requires Inv(s) && s.job.Idle? && h in s.held && s.held[h].sender.Some?
    requires forall u :: u in s.inbox ==> u <= s.highWater
    requires var key := s.held[h].sender.value.key;
             && key != SYS_KEY
             && id in s.store.table && HasKey(s.store.table[id].past, key)
             && forall r :: r in s.store.table && s.store.table[r].active ==> s.store.table[r].address.key != key
    ensures Known(s.store.table, s.held[h]) && t.store == s.store
    ensures Reaches(s, max, t) && t.job.Idle?
    ensures t.inbox == s.inbox && t.held == (s.held - {h})[s.heldNext := s.held[h]]
  {
    var key := s.held[h].sender.value.key;
    assert id in Matching(s.store.table, key, false);
    assert Matching(s.store.table, key, true) == {};
    t := ReleaseThenFile(s, max, h);
  }

  /** So does the release of a deactivated contact's letter, when it was the past address that found the contact. */
  lemma ReactivatedGoesBack(s: State, max: nat, h: nat, l: Luck) returns (t: State)
    requires Inv(s) && s.job.Idle? && h in s.held && s.held[h].sender.Some? && FreshFor(s.store.table, l) && l.tableWrites
    requires forall u :: u in s.inbox ==> u <= s.highWater
    requires var key, table := s.held[h].sender.value.key, s.store.table;
             && key != SYS_KEY && Readable(table, key) && Resolve(table, key, false).value.address.key != key
             && forall r :: r in table && table[r].active ==> table[r].address.key != key
    ensures Reaches(s, max, t) && t.job.Idle?
    ensures var id := Resolve(s.store.table, s.held[h].sender.value.key, false).value.id;
            t.store == Mutated(s.store, max, Reactivate(id), l) && id in t.store.table && t.store.table[id].active
    ensures t.inbox == s.inbox && t.held == (s.held - {h})[s.heldNext := s.held[h]]
  {
    var key, table := s.held[h].sender.value.key, s.store.table;
    var id := Least(Matching(table, key, false));
    assert table[id].id == id && HasKey(table[id].past, key);
    var c := Call(Reactivate(id), l);
    Changed(s, max, c, Apply(s, max, Change(c)));
    var s1 := Apply(s, max, Change(c));
    assert s1.store.table == table[id := table[id].(active := true)];
    t := PastAddressGoesBack(s1, max, h, id);
    ReachesOn(s, max, s1, t);
  }

  // ---------------------------------------------------------------- one sync

  /** A letter may be delivered from INBOX as it was when its sender's row is an active one. */
  ghost predicate Deliverable(t: Table, before: Folder, box: Assembly.Inbox, d: nat, id: Name)
  {
    exists u :: u in before && u in box && u > d && box[u] == id && Known(t, before[u]) && !Removed(t, before[u])
  }

  /**
   With a concrete cursor `d`, and mailbox and table unchanged between the reconciling pass and the
   assembly: every letter of the response is from somebody whose row is active, and mail the
   device already has stays in INBOX whatever became of its sender.
   */
  lemma SyncDeliversOnlyActive(t: Table, before: Folder, box: Assembly.Inbox, d: nat, raws: seq<Assembly.Raw>,
                               outs: seq<Assembly.Derived>, budget: int, capped: bool, r: Assembly.Outcome)
    requires box.Keys == Wanted(t, before, Some(d)).Keys
    requires Assembly.IsFetchAbove(box, d, Assembly.FETCH_BATCH, raws) && Assembly.Derives(raws, outs)
    requires Assembly.Correct(raws, outs, budget, d, capped, r)
    ensures r.Built? ==> forall k :: 0 <= k < |r.letters| ==> Deliverable(t, before, box, d, r.letters[k].id)
    ensures forall u :: u in before && u <= d && Known(t, before[u]) ==> u in box
  {
    if r.Built? {
      var n: nat :| Assembly.CorrectAt(raws, outs, budget, d, capped, r, n);
      forall k | 0 <= k < |r.letters|
        ensures Deliverable(t, before, box, d, r.letters[k].id)
      {
        Assembly.RenderedFrom(outs, n, r.letters[k]);
        var i :| 0 <= i < n && outs[i] == Assembly.Rendered(r.letters[k]);
        var u := raws[i].uid;
        assert u in Wanted(t, before, Some(d)).Keys;
        assert box[u] == r.letters[k].id;
      }
    }
    forall u | u in before && u <= d && Known(t, before[u])
      ensures u in box
    {
      assert u in Wanted(t, before, Some(d)).Keys;
    }
  }
}
