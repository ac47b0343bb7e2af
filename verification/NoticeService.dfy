/**
 Announce and the two startup passes as code (internal/notice/notice.go), shown to be runs of the
 step system whichever of their writes fail, and the exact number of letters a Flush leaves.
 */
module NoticeService {
  import opened Basics
  import opened Notices
  import Ayllu

  // ---------------------------------------------------------------- from the change log

  /** The ids of the changes that are announced. */
  function IdsOf(log: seq<Ayllu.Event>): (r: seq<Id>)
  {
    if log == [] then []
    else
      var front, e := IdsOf(log[..|log| - 1]), log[|log| - 1];
      if e.m.Cosmetic? then front else front + [e.version]
  }

  /** Versions only grow, so no two lines of the change log share a notice. */
  lemma {:induction false} LogIsDistinct(s: Ayllu.Store, n: nat)
    requires Ayllu.GoodStore(s) && n <= |s.log|
    ensures Distinct(IdsOf(s.log[..n])) && forall id :: id in IdsOf(s.log[..n]) ==> n > 0 && id <= s.log[n - 1].version
    decreases n
  {
    if n > 0 {
      assert s.log[..n][..n - 1] == s.log[..n - 1];
      LogIsDistinct(s, n - 1);
      var front := IdsOf(s.log[..n - 1]);
      assert n > 1 ==> s.log[n - 2].version < s.log[n - 1].version;
      if !s.log[n - 1].m.Cosmetic? {
        DistinctPush(front, s.log[n - 1].version);
      }
    }
  }

  // ---------------------------------------------------------------- how many letters

  /** The entries of `ids` that `box` does not hold. */
  function Unsent(ids: seq<Id>, box: seq<Id>): (r: seq<Id>)
  {
    if ids == [] then []
    else
      var front, id := Unsent(ids[..|ids| - 1], box), ids[|ids| - 1];
      if id in box then front else front + [id]
  }

  /** One entry further: it is sent when INBOX does not hold it. */
  lemma UnsentNext(ids: seq<Id>, box: seq<Id>, i: nat)
    requires i < |ids|
    ensures box + Unsent(ids[..i + 1], box) == (box + Unsent(ids[..i], box)) + if ids[i] in box then [] else [ids[i]]
    ensures ids[i] in SentOf(ids, box) <==> ids[i] in box
  {
    assert ids[..i + 1][..i] == ids[..i];
  }

  function Count(ids: seq<Id>, id: Id): nat
  {
    if ids == [] then 0 else Count(ids[..|ids| - 1], id) + if ids[|ids| - 1] == id then 1 else 0
  }

  lemma CountPush(ids: seq<Id>, x: Id, id: Id)
    ensures Count(ids + [x], id) == Count(ids, id) + if x == id then 1 else 0
  {
    assert (ids + [x])[..|ids|] == ids;
  }

  lemma {:induction false} CountZero(ids: seq<Id>, id: Id)
    ensures Count(ids, id) == 0 <==> id !in ids
  {
    if ids != [] {
      var front := ids[..|ids| - 1];
      assert ids == front + [ids[|ids| - 1]];
      CountZero(front, id);
    }
  }

  lemma {:induction false} CountSum(a: seq<Id>, b: seq<Id>, id: Id)
    ensures Count(a + b, id) == Count(a, id) + Count(b, id)
  {
    if b == [] {
      assert a + b == a;
    } else {
      var front, x := b[..|b| - 1], b[|b| - 1];
      assert a + b == (a + front) + [x] && b == front + [x];
      CountSum(a, front, id);
      CountPush(a + front, x, id);
    }
  }

  lemma {:induction false} CountUnsent(ids: seq<Id>, box: seq<Id>, id: Id)
    ensures Count(Unsent(ids, box), id) == if id in box then 0 else Count(ids, id)
  {
    if ids != [] {
      var front, x := ids[..|ids| - 1], ids[|ids| - 1];
      CountUnsent(front, box, id);
      CountPush(Unsent(front, box), x, id);
    }
  }

  /**
   After a Flush that meets no error: a notice that was in INBOX is there as often as before, any
   other as often as it was owed.
   */
  lemma FlushedCount(pending: seq<Id>, box: seq<Id>, id: Id)
    ensures Count(box + Unsent(pending, box), id) == if id in box then Count(box, id) else Count(pending, id)
  {
    CountSum(box, Unsent(pending, box), id);
    CountUnsent(pending, box, id);
    CountZero(box, id);
  }

  ghost predicate NoRepeat(ids: seq<Id>)
  {
    forall id :: Count(ids, id) <= 1
  }

  /** So a Flush over a clean INBOX duplicates a letter exactly when one is owed twice and not there. */
  lemma FlushDuplicatesIff(pending: seq<Id>, box: seq<Id>)
    requires NoRepeat(box)
    ensures NoRepeat(box + Unsent(pending, box)) <==> forall id :: id !in box ==> Count(pending, id) <= 1
  {
    var after := box + Unsent(pending, box);
    if forall id :: id !in box ==> Count(pending, id) <= 1 {
      forall id
        ensures Count(after, id) <= 1
      {
        FlushedCount(pending, box, id);
      }
    } else {
      var id :| id !in box && Count(pending, id) > 1;
      FlushedCount(pending, box, id);
      assert Count(after, id) > 1;
    }
  }

  lemma SomeOrNone(ids: seq<Id>)
    ensures ids == [] || exists id :: id in ids
  {
    if ids != [] {
      assert ids[0] in ids;
    }
  }

  // ---------------------------------------------------------------- runs of this process

  /** The steps that are the service's own: it logs no change, no time passes, and it does not die. */
  predicate Own(st: Step)
  {
    !st.Log? && !st.Age? && !st.Rewrite? && !st.Die?
  }

  ghost predicate OwnClosed(c: iset<State>)
  {
    forall s, st :: s in c && Enabled(s, st) && Own(st) ==> Apply(s, st) in c
  }

  /** Some run of own steps leads from `s` to `t`. */
  ghost predicate Performs(s: State, t: State)
  {
    forall c :: OwnClosed(c) && s in c ==> t in c
  }

  lemma PerformsNothing(s: State)
    ensures Performs(s, s)
  {
  }

  lemma Perform(s: State, t: State, st: Step)
    requires Performs(s, t) && Enabled(t, st) && Own(st)
    ensures Performs(s, Apply(t, st))
  {
  }

  lemma PerformsReaches(s: State, t: State)
    requires Performs(s, t)
    ensures Reaches(s, t)
  {
    forall d | Closed(d) && s in d
      ensures t in d
    {
      assert OwnClosed(d);
    }
  }

  lemma OwnKeepsLog(s: State, st: Step)
    requires Enabled(s, st) && Own(st)
    ensures Apply(s, st).log == s.log
  {
  }

  lemma PerformsKeepsLog(s: State, t: State)
    requires Performs(s, t)
    ensures t.log == s.log
  {
    var c := iset u: State | u.log == s.log;
    forall u, st | u in c && Enabled(u, st) && Own(st)
      ensures Apply(u, st) in c
    {
      OwnKeepsLog(u, st);
    }
    assert OwnClosed(c);
  }

  /** Which is a run of the step system, in which no change is logged. */
  lemma PerformsIsRun(s: State, t: State)
    requires Performs(s, t)
    ensures (exists steps :: Run(s, steps, t)) && t.log == s.log
  {
    PerformsReaches(s, t);
    ReachesByRun(s, t);
    PerformsKeepsLog(s, t);
  }

  // ---------------------------------------------------------------- the service

  class Service {
    var log: seq<Ayllu.Event>    // ayllu-log.jsonl
    var file: seq<Id>            // state.json
    var pending: seq<Id>         // state.json as published in RAM
    var inbox: seq<Id>           // the notices in INBOX
    ghost var window: nat        // where the last ninety days begin
    ghost var since: nat         // where they began at the last startup
    ghost var calls: map<Id, Phase>
    ghost var job: Job
    ghost var failed: bool

    ghost function View(): State
      reads this
    {
      State(IdsOf(log), window, since, file, pending, inbox, calls, job, failed)
    }

    /** notice.go:422-437: APPEND; an error may come after the letter has landed. */
    method AppendLetter(id: Id, fates: map<Id, bool>) returns (fate: Fate)
      modifies this`inbox
      ensures fate == if id in fates then Failed(fates[id]) else Done
      ensures inbox == if fate.Done? || fate.effect then old(inbox) + [id] else old(inbox)
    {
      fate := if id in fates then Failed(fates[id]) else Done;
      if fate.Done? || fate.effect {
        inbox := inbox + [id];
      }
    }

    /** store.go:83-106: the new list is written, and published once durable. */
    method Update(working: seq<Id>, fate: Fate)
      modifies this`file, this`pending
      ensures View() == Written(old(View()), working, fate)
    {
      if fate != Failed(false) {
        file := working;
      }
      if fate.Done? {
        pending := working;
      }
    }

    /** state.go:130-138, through the update of state.json. */
    method RemovePending(id: Id, refuses: map<Id, bool>) returns (fate: Fate)
      modifies this`file, this`pending
      ensures fate == if id in refuses then Failed(refuses[id]) else Done
      ensures View() == Written(old(View()), Without(old(pending), id), fate)
    {
      fate := if id in refuses then Failed(refuses[id]) else Done;
      var kept: seq<Id> := [];
      for i := 0 to |pending|
        invariant kept == Without(pending[..i], id)
      {
        assert pending[..i + 1][..i] == pending[..i];
        if pending[i] != id {
          kept := kept + [pending[i]];
        }
      }
      assert pending[..|pending|] == pending;
      Update(kept, fate);
    }

    /** state.go:121-123, likewise. */
    method AddPending(id: Id, fate: Fate)
      modifies this`file, this`pending
      ensures View() == Written(old(View()), old(pending) + [id], fate)
    {
      Update(pending + [id], fate);
    }

    /** notice.go:192-229, right after the change was logged. */
    method Announce(e: Ayllu.Event, recordFate: Fate, fates: map<Id, bool>, refuses: map<Id, bool>) returns (ok: bool)
      requires e.m.Cosmetic? || CallAt(View(), e.version, Fresh)
      modifies this
      ensures log == old(log) && Performs(old(View()), View())
      ensures e.m.Cosmetic? ==> ok && View() == old(View())
      ensures ok && !e.m.Cosmetic? ==> inbox == old(inbox) + [e.version] && e.version !in pending && file == pending
      ensures !e.m.Cosmetic? ==> e.version !in calls
    {
      ghost var start := View();
      PerformsNothing(start);
      if e.m.Cosmetic? {
        return true;
      }
      var id := e.version;
      AddPending(id, recordFate);
      Perform(start, start, Record(id, recordFate));
      if recordFate.Failed? {
        calls, failed := calls - {id}, true;
        return false;
      }
      calls := calls[id := Recorded];
      ok := SendAndClear(start, id, fates, refuses);
    }

    /** notice.go:212-226. */
    method SendAndClear(ghost start: State, id: Id, fates: map<Id, bool>, refuses: map<Id, bool>) returns (ok: bool)
      requires CallAt(View(), id, Recorded) && Performs(start, View())
      modifies this`file, this`pending, this`inbox, this`calls, this`failed
      ensures Performs(start, View()) && id !in calls
      ensures ok ==> inbox == old(inbox) + [id] && id !in pending && file == pending
    {
      ghost var recorded := View();
      var fate := AppendLetter(id, fates);
      Perform(start, recorded, Append(id, fate));
      if fate.Failed? {
        calls, failed := calls - {id}, true;
        return false;
      }
      calls := calls[id := Sent];
      ghost var sent := View();
      var cleared := RemovePending(id, refuses);
      Perform(start, sent, Clear(id, cleared));
      ok := cleared.Done?;
      calls, failed := calls - {id}, failed || !ok;
    }

    /** notice.go:255-279: one entry of the Flush. */
    method FlushOne(ghost start: State, ghost rest: seq<Id>, id: Id, sent: set<Id>, fates: map<Id, bool>, refuses: map<Id, bool>)
      returns (ok: bool)
      requires job == Recover(Flushing, [id] + rest, sent, Look) && Performs(start, View())
      modifies this`file, this`pending, this`inbox, this`job, this`failed
      ensures job == Recover(Flushing, rest, sent, Look) && Performs(start, View()) && failed == (old(failed) || !ok)
      ensures ok ==> inbox == (if id in sent then old(inbox) else old(inbox) + [id]) && pending == Without(old(pending), id)
    {
      assert ([id] + rest)[1..] == rest;
      if id in sent {
        Perform(start, View(), Skip);
      } else {
        ghost var before := View();
        var fate := AppendLetter(id, fates);
        Perform(start, before, Deliver(fate));
        if fate.Failed? {
          job, failed := Recover(Flushing, rest, sent, Look), true;
          return false;
        }
      }
      job := Recover(Flushing, [id] + rest, sent, Appended);
      ok := DropOne(start, Flushing, rest, id, sent, refuses);
    }

    /** The entry goes from the list of notices owed, and the pass to its next one. */
    method DropOne(ghost start: State, ghost stage: Stage, ghost rest: seq<Id>, id: Id, ghost sent: set<Id>, refuses: map<Id, bool>)
      returns (ok: bool)
      requires job == Recover(stage, [id] + rest, sent, Appended) && Performs(start, View())
      modifies this`file, this`pending, this`job, this`failed
      ensures job == Recover(stage, rest, sent, Look) && Performs(start, View()) && failed == (old(failed) || !ok)
      ensures ok ==> pending == Without(old(pending), id)
    {
      assert ([id] + rest)[1..] == rest;
      ghost var appended := View();
      var cleared := RemovePending(id, refuses);
      Perform(start, appended, Drop(cleared));
      ok := cleared.Done?;
      job, failed := Recover(stage, rest, sent, Look), failed || !ok;
    }

    /** notice.go:254-280: the loop. */
    method FlushAll(ghost start: State, todo: seq<Id>, sent: set<Id>, fates: map<Id, bool>, refuses: map<Id, bool>)
      returns (ok: bool)
      requires job == Recover(Flushing, todo, sent, Look) && Performs(start, View())
      requires !failed && sent == SentOf(todo, inbox) && pending == todo
      modifies this`file, this`pending, this`inbox, this`job, this`failed
      ensures job == Recover(Flushing, [], sent, Look) && Performs(start, View()) && failed == !ok
      ensures ok ==> pending == [] && inbox == old(inbox) + Unsent(todo, old(inbox))
    {
      ghost var inbox0 := inbox;
      ok := true;
      assert todo[0..] == todo && todo[..0] == [];
      assert inbox0 + Unsent([], inbox0) == inbox0;
      for i := 0 to |todo|
        invariant job == Recover(Flushing, todo[i..], sent, Look) && Performs(start, View()) && failed == !ok
        invariant ok ==> inbox == inbox0 + Unsent(todo[..i], inbox0)
        invariant ok ==> forall id :: id in pending ==> id in todo[i..]
      {
        assert todo[i..] == [todo[i]] + todo[i + 1..];
        UnsentNext(todo, inbox0, i);
        var one := FlushOne(start, todo[i + 1..], todo[i], sent, fates, refuses);
        ok := ok && one;
      }
      assert todo[..|todo|] == todo && todo[|todo|..] == [];
      SomeOrNone(pending);
    }

    /** notice.go:240-282: what state.json remembers is owed. */
    method Flush(listOk: bool, fates: map<Id, bool>, refuses: map<Id, bool>) returns (ok: bool)
      requires job == Down
      modifies this`file, this`pending, this`inbox, this`job, this`failed
      ensures job == Between && Performs(old(View()), View()) && (ok ==> !failed)
      ensures ok ==> pending == [] && inbox == old(inbox) + Unsent(old(pending), old(inbox))
    {
      ghost var start := View();
      PerformsNothing(start);
      var todo := pending;
      if todo != [] && !listOk {
        Perform(start, start, CannotList);
        job, failed := Between, true;
        return false;
      }
      var sent := SentOf(todo, inbox);
      Perform(start, start, BeginFlush);
      job, failed := Recover(Flushing, todo, sent, Look), false;
      ok := FlushAll(start, todo, sent, fates, refuses);
      Perform(start, View(), EndStage);
      job := Between;
    }

    /** notice.go:327-346: one logged change of the Reconcile. */
    method ReconcileOne(ghost start: State, ghost rest: seq<Id>, id: Id, sent: set<Id>, recordFails: map<Id, bool>,
                        fates: map<Id, bool>, refuses: map<Id, bool>)
      returns (ok: bool)
      requires job == Recover(Reconciling, [id] + rest, sent, Look) && Performs(start, View())
      modifies this`file, this`pending, this`inbox, this`job, this`failed
      ensures job == Recover(Reconciling, rest, sent, Look) && Performs(start, View()) && failed == (old(failed) || !ok)
      ensures id in sent ==> ok && inbox == old(inbox) && pending == old(pending)
      ensures ok && id !in sent ==> inbox == old(inbox) + [id] && forall x :: x in pending <==> x in old(pending) && x != id
    {
      assert ([id] + rest)[1..] == rest;
      if id in sent {
        Perform(start, View(), Skip);
        job := Recover(Reconciling, rest, sent, Look);
        return true;
      }
      var fate := if id in recordFails then Failed(recordFails[id]) else Done;
      ghost var before := View();
      AddPending(id, fate);
      Perform(start, before, Owe(fate));
      if fate.Failed? {
        job, failed := Recover(Reconciling, rest, sent, Look), true;
        return false;
      }
      job := Recover(Reconciling, [id] + rest, sent, Owed);
      ok := AnnounceLate(start, rest, id, sent, fates, refuses);
    }

    /** notice.go:333-346. */
    method AnnounceLate(ghost start: State, ghost rest: seq<Id>, id: Id, ghost sent: set<Id>, fates: map<Id, bool>, refuses: map<Id, bool>)
      returns (ok: bool)
      requires job == Recover(Reconciling, [id] + rest, sent, Owed) && Performs(start, View())
      modifies this`file, this`pending, this`inbox, this`job, this`failed
      ensures job == Recover(Reconciling, rest, sent, Look) && Performs(start, View()) && failed == (old(failed) || !ok)
      ensures ok ==> inbox == old(inbox) + [id] && pending == Without(old(pending), id)
    {
      assert ([id] + rest)[1..] == rest;
      ghost var owed := View();
      var fate := AppendLetter(id, fates);
      Perform(start, owed, Deliver(fate));
      if fate.Failed? {
        job, failed := Recover(Reconciling, rest, sent, Look), true;
        return false;
      }
      job := Recover(Reconciling, [id] + rest, sent, Appended);
      ok := DropOne(start, Reconciling, rest, id, sent, refuses);
    }

    /** The ids of the events that the startup read of the log returns. */
    method LoggedIds(from: nat) returns (ids: seq<Id>)
      requires from <= |log|
      ensures ids == IdsOf(log[from..])
    {
      ids := [];
      var events := log[from..];
      for i := 0 to |events|
        invariant ids == IdsOf(events[..i])
      {
        assert events[..i + 1][..i] == events[..i];
        if !events[i].m.Cosmetic? {
          ids := ids + [events[i].version];
        }
      }
      assert events[..|events|] == events;
    }

    /** notice.go:326-347: the loop. */
    method ReconcileAll(ghost start: State, todo: seq<Id>, sent: set<Id>, recordFails: map<Id, bool>,
                        fates: map<Id, bool>, refuses: map<Id, bool>)
      returns (ok: bool)
      requires job == Recover(Reconciling, todo, sent, Look) && Performs(start, View()) && sent == SentOf(todo, inbox)
      modifies this`file, this`pending, this`inbox, this`job, this`failed
      ensures job == Recover(Reconciling, [], sent, Look) && Performs(start, View()) && failed == (old(failed) || !ok)
      ensures ok ==> inbox == old(inbox) + Unsent(todo, old(inbox))
      ensures ok ==> forall id :: id in pending ==> id in old(pending)
    {
      ghost var inbox0 := inbox;
      ok := true;
      assert todo[0..] == todo && todo[..0] == [];
      assert inbox0 + Unsent([], inbox0) == inbox0;
      for i := 0 to |todo|
        invariant job == Recover(Reconciling, todo[i..], sent, Look) && Performs(start, View()) && failed == (old(failed) || !ok)
        invariant ok ==> inbox == inbox0 + Unsent(todo[..i], inbox0)
        invariant ok ==> forall id :: id in pending ==> id in old(pending)
      {
        assert todo[i..] == [todo[i]] + todo[i + 1..];
        UnsentNext(todo, inbox0, i);
        var one := ReconcileOne(start, todo[i + 1..], todo[i], sent, recordFails, fates, refuses);
        ok := ok && one;
      }
      assert todo[..|todo|] == todo && todo[|todo|..] == [];
    }

    /** notice.go:299-349: what the change log of the last ninety days, read from event `from` on, never saw announced. */
    method Reconcile(from: nat, listOk: bool, recordFails: map<Id, bool>, fates: map<Id, bool>, refuses: map<Id, bool>)
      returns (ok: bool)
      requires job == Between && from <= |log| && window == |IdsOf(log[..from])|
      modifies this`file, this`pending, this`inbox, this`since, this`job, this`failed
      ensures job == Up && Performs(old(View()), View()) && (ok && !old(failed) ==> !failed)
      ensures ok ==> inbox == old(inbox) + Unsent(IdsOf(log[from..]), old(inbox))
      ensures ok && old(pending) == [] ==> pending == []
    {
      ghost var start := View();
      PerformsNothing(start);
      var todo := LoggedIds(from);
      if todo != [] && !listOk {
        Perform(start, start, CannotList);
        job, failed := Up, true;
        return false;
      }
      ok := AnnounceMissing(from, todo, recordFails, fates, refuses);
    }

    method AnnounceMissing(ghost from: nat, todo: seq<Id>, recordFails: map<Id, bool>, fates: map<Id, bool>, refuses: map<Id, bool>)
      returns (ok: bool)
      requires job == Between && from <= |log| && window == |IdsOf(log[..from])| && todo == IdsOf(log[from..])
      modifies this`file, this`pending, this`inbox, this`since, this`job, this`failed
      ensures job == Up && Performs(old(View()), View()) && (ok && !old(failed) ==> !failed)
      ensures ok ==> inbox == old(inbox) + Unsent(todo, old(inbox))
      ensures ok && old(pending) == [] ==> pending == []
    {
      ghost var start := View();
      var sent := BeginReconciling(from, todo);
      ok := ReconcileAll(start, todo, sent, recordFails, fates, refuses);
      Perform(start, View(), EndStage);
      job := Up;
      SomeOrNone(pending);
    }

    method BeginReconciling(ghost from: nat, todo: seq<Id>) returns (sent: set<Id>)
      requires job == Between && from <= |log| && window == |IdsOf(log[..from])| && todo == IdsOf(log[from..])
      modifies this`since, this`job
      ensures sent == SentOf(todo, inbox) && job == Recover(Reconciling, todo, sent, Look)
      ensures Performs(old(View()), View())
    {
      ghost var start := View();
      PerformsNothing(start);
      sent := SentOf(todo, inbox);
      WindowIsSuffix(log, from);
      Perform(start, start, BeginReconcile);
      job, since := Recover(Reconciling, todo, sent, Look), window;
    }
  }

  lemma {:induction false} IdsOn(a: seq<Ayllu.Event>, b: seq<Ayllu.Event>)
    ensures IdsOf(a + b) == IdsOf(a) + IdsOf(b)
  {
    if b == [] {
      assert a + b == a;
    } else {
      var front := b[..|b| - 1];
      assert (a + b)[..|a + b| - 1] == a + front;
      IdsOn(a, front);
    }
  }

  /** The ids of the newest events are the newest ids. */
  lemma WindowIsSuffix(log: seq<Ayllu.Event>, from: nat)
    requires from <= |log|
    ensures |IdsOf(log[..from])| <= |IdsOf(log)| && IdsOf(log)[|IdsOf(log[..from])|..] == IdsOf(log[from..])
  {
    assert log == log[..from] + log[from..];
    IdsOn(log[..from], log[from..]);
  }
}
