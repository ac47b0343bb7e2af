/**
 The letter that announces every change of the contact table (internal/notice/notice.go): the
 change log, the list of notices owed and INBOX are three durable stores written one after the
 other, and the process may die between any two writes.
 */
module Notices {
  import opened Basics

  /** A notice's id is a hash of its change; the version in it makes it the change's own. */
  type Id = nat

  /** How far one Announce has come. */
  datatype Phase = Fresh | Recorded | Sent

  datatype Stage = Flushing | Reconciling
  datatype At = Look | Owed | Appended

  datatype Job =
    | Down
    /** One of the two startup passes; `sent` is what INBOX held when the pass listed it. */
    | Recover(stage: Stage, todo: seq<Id>, sent: set<Id>, at: At)
    | Between
    | Up

  /**
   `log` (the announced kinds of change only), `file` (the notices owed, in state.json) and `inbox`
   are durable; `pending` is what state.json says as published in RAM. `window` is where in the log
   the last ninety days begin, and `since` where they began when startup last read it. `failed` says
   that some call of this process returned an error.
   */
  datatype State = State(
    log: seq<Id>, window: nat, since: nat, file: seq<Id>, pending: seq<Id>, inbox: seq<Id>,
    calls: map<Id, Phase>, job: Job, failed: bool)

  datatype Step =
    | Log(id: Id)                    // by a guardian's call, or by `wasi contacts` while the server is down
    | Age(window: nat)               // time passes
    | Record(id: Id, fate: Fate)
    | Append(id: Id, fate: Fate)
    | Clear(id: Id, fate: Fate)
    | Rewrite                        // state.json was written for another of its fields
    | Die
    | BeginFlush
    | BeginReconcile
    | CannotList
    | Skip
    | Owe(fate: Fate)
    | Deliver(fate: Fate)
    | Drop(fate: Fate)
    | EndStage

  predicate CallAt(s: State, id: Id, p: Phase)
  {
    id in s.calls && s.calls[id] == p
  }

  predicate AtHead(s: State, at: At)
  {
    s.job.Recover? && s.job.todo != [] && s.job.at == at
  }

  ghost predicate Enabled(s: State, st: Step)
  {
    match st
    case Log(id) => (s.job.Up? || s.job.Down?) && id !in s.log
    case Age(window) => s.window <= window <= |s.log|
    case Record(id, _) => CallAt(s, id, Fresh)
    case Append(id, _) => CallAt(s, id, Recorded)
    case Clear(id, _) => CallAt(s, id, Sent)
    case Rewrite => !s.job.Down?
    case Die => true
    case BeginFlush => s.job.Down?
    case BeginReconcile => s.job.Between?
    case CannotList => s.job.Down? || s.job.Between?
    case Skip => AtHead(s, Look) && s.job.todo[0] in s.job.sent
    case Owe(_) => AtHead(s, Look) && s.job.stage.Reconciling? && s.job.todo[0] !in s.job.sent
    case Deliver(_) =>
      if s.job.Recover? && s.job.stage.Flushing? then AtHead(s, Look) && s.job.todo[0] !in s.job.sent else AtHead(s, Owed)
    case Drop(_) => AtHead(s, Appended)
    case EndStage => s.job.Recover? && s.job.todo == []
  }

  /** state.go:130-138: every entry of that id goes. */
  function Without(ids: seq<Id>, id: Id): (r: seq<Id>)
    ensures forall x :: x in r <==> x in ids && x != id
  {
    if ids == [] then []
    else
      assert ids == ids[..|ids| - 1] + [ids[|ids| - 1]];
      var front := Without(ids[..|ids| - 1], id);
      if ids[|ids| - 1] == id then front else front + [ids[|ids| - 1]]
  }

  function SentOf(todo: seq<Id>, inbox: seq<Id>): set<Id>
  {
    set id | id in todo && id in inbox
  }

  /** What the startup read of the change log finds. */
  function Recent(s: State): seq<Id>
  {
    if s.window <= |s.log| then s.log[s.window..] else []
  }

  /** What it found at the last startup, and what was logged since. */
  function Covered(s: State): seq<Id>
  {
    if s.since <= |s.log| then s.log[s.since..] else []
  }

  function Landed(s: State, id: Id, fate: Fate): State
  {
    if fate.Done? || fate.effect then s.(inbox := s.inbox + [id]) else s
  }

  /** state.json is written from the published list, and published once durable (store.go:83-106). */
  function Written(s: State, pending: seq<Id>, fate: Fate): State
  {
    if fate.Done? then s.(file := pending, pending := pending)
    else if fate.effect then s.(file := pending)
    else s
  }

  /** An error ends the call, never the process. */
  function Ended(s: State, id: Id, ok: bool): State
  {
    s.(calls := s.calls - {id}, failed := s.failed || !ok)
  }

  function Popped(s: State, ok: bool): State
    requires s.job.Recover? && s.job.todo != []
  {
    s.(job := s.job.(todo := s.job.todo[1..], at := Look), failed := s.failed || !ok)
  }

  ghost function Apply(s: State, st: Step): State
    requires Enabled(s, st)
  {
    match st
    case Log(id) => s.(log := s.log + [id], calls := if s.job.Up? then s.calls[id := Fresh] else s.calls)
    case Age(window) => s.(window := window)
    case Record(id, fate) =>
      var t := Written(s, s.pending + [id], fate);
      if fate.Done? then t.(calls := s.calls[id := Recorded]) else Ended(t, id, false)
    case Append(id, fate) =>
      if fate.Done? then Landed(s, id, fate).(calls := s.calls[id := Sent]) else Ended(Landed(s, id, fate), id, false)
    case Clear(id, fate) => Ended(Written(s, Without(s.pending, id), fate), id, fate.Done?)
    case Rewrite => s.(file := s.pending)
    case Die => s.(pending := s.file, calls := map[], job := Down)
    case BeginFlush => s.(job := Recover(Flushing, s.pending, SentOf(s.pending, s.inbox), Look), failed := false)
    case BeginReconcile =>
      var todo := Recent(s);
      s.(job := Recover(Reconciling, todo, SentOf(todo, s.inbox), Look), since := s.window)
    case CannotList => s.(job := if s.job.Down? then Between else Up, failed := true)
    case Skip => if s.job.stage.Flushing? then s.(job := s.job.(at := Appended)) else Popped(s, true)
    case Owe(fate) =>
      var t := Written(s, s.pending + [s.job.todo[0]], fate);
      if fate.Done? then t.(job := s.job.(at := Owed)) else Popped(t, false)
    case Deliver(fate) =>
      var t := Landed(s, s.job.todo[0], fate);
      if fate.Done? then t.(job := s.job.(at := Appended)) else Popped(t, false)
    case Drop(fate) => Popped(Written(s, Without(s.pending, s.job.todo[0]), fate), fate.Done?)
    case EndStage => s.(job := if s.job.stage.Flushing? then Between else Up)
  }

  ghost predicate Run(s: State, steps: seq<Step>, t: State)
    decreases |steps|
  {
    if steps == [] then s == t else Enabled(s, steps[0]) && Run(Apply(s, steps[0]), steps[1..], t)
  }

  predicate Distinct(ids: seq<Id>)
  {
    forall i, j :: 0 <= i < j < |ids| ==> ids[i] != ids[j]
  }

  /** A first start: nothing logged, nothing owed. */
  predicate Init(s: State)
  {
    s == State([], 0, 0, [], [], [], map[], Down, false)
  }

  // ---------------------------------------------------------------- what every step keeps

  /** Every notice, owed or sent, is of a logged change; a call is one change's own. */
  ghost predicate Inv(s: State)
  {
    && (forall id :: id in s.calls || id in s.pending || id in s.file || id in s.inbox ==> id in s.log)
    && (forall id :: id in s.calls && !s.calls[id].Sent? ==> id !in s.inbox)
    && (forall id :: CallAt(s, id, Fresh) ==> id !in s.pending)
    && (s.calls != map[] ==> s.job.Up?)
    && (s.job.Down? ==> s.pending == s.file)
    && s.window <= |s.log| && s.since <= |s.log|
    && (s.job.Recover? ==> forall id :: id in s.job.todo ==> id in s.log)
    && (s.job.Recover? && s.job.stage.Flushing? ==> s.job.at != Owed)
  }

  /** What startup has dealt with, as long as nothing failed. */
  ghost predicate Progress(s: State)
  {
    match s.job
    case Recover(Flushing, todo, sent, at) =>
      && (forall id :: id in s.pending ==> id in todo)
      && (at == Appended ==> todo != [] && todo[0] in s.inbox)
      && (forall id :: id in sent ==> id in s.inbox)
    case Between => forall id :: id !in s.pending
    case Recover(Reconciling, todo, sent, at) =>
      && (forall id :: id in Covered(s) && id !in todo ==> id in s.inbox)
      && (forall id :: id in s.pending ==> todo != [] && id == todo[0] && at != Look)
      && (at == Appended ==> todo != [] && todo[0] in s.inbox)
      && (forall id :: id in sent ==> id in s.inbox)
    case Up =>
      && (forall id :: id in Covered(s) && id !in s.calls ==> id in s.inbox)
      && (forall id :: id in s.pending ==> id in s.calls)
      && (forall id :: CallAt(s, id, Sent) ==> id in s.inbox)
    case Down => true
  }

  predicate IsCall(st: Step)
  {
    st.Log? || st.Record? || st.Append? || st.Clear?
  }

  predicate IsWork(st: Step)
  {
    st.Skip? || st.Owe? || st.Deliver? || st.Drop?
  }

  lemma Pushed(ids: seq<Id>, id: Id)
    ensures forall x :: x in ids + [id] <==> x in ids || x == id
  {
  }

  lemma LogKeepsInv(s: State, id: Id)
    requires Inv(s) && Enabled(s, Log(id))
    ensures Inv(Apply(s, Log(id)))
  {
    Pushed(s.log, id);
  }

  lemma RecordKeepsInv(s: State, id: Id, fate: Fate)
    requires Inv(s) && Enabled(s, Record(id, fate))
    ensures Inv(Apply(s, Record(id, fate)))
  {
    Pushed(s.pending, id);
    assert s.job.Up? && id in s.log;
  }

  lemma AppendKeepsInv(s: State, id: Id, fate: Fate)
    requires Inv(s) && Enabled(s, Append(id, fate))
    ensures Inv(Apply(s, Append(id, fate)))
  {
    Pushed(s.inbox, id);
    assert s.job.Up? && id in s.log;
  }

  lemma ClearKeepsInv(s: State, id: Id, fate: Fate)
    requires Inv(s) && Enabled(s, Clear(id, fate))
    ensures Inv(Apply(s, Clear(id, fate)))
  {
    assert s.job.Up?;
  }

  /** The head of the list a startup pass is at, and the rest. */
  lemma Head(s: State)
    requires s.job.Recover? && s.job.todo != []
    ensures forall id :: id in s.job.todo <==> id == s.job.todo[0] || id in s.job.todo[1..]
  {
    assert s.job.todo == [s.job.todo[0]] + s.job.todo[1..];
  }

  lemma StateWorkKeepsInv(s: State, st: Step)
    requires Inv(s) && Enabled(s, st) && (st.Owe? || st.Drop?)
    ensures Inv(Apply(s, st))
  {
    Head(s);
    Pushed(s.pending, s.job.todo[0]);
    assert s.calls == map[];
  }

  lemma MailWorkKeepsInv(s: State, st: Step)
    requires Inv(s) && Enabled(s, st) && (st.Skip? || st.Deliver?)
    ensures Inv(Apply(s, st))
  {
    Head(s);
    Pushed(s.inbox, s.job.todo[0]);
    assert s.calls == map[];
  }

  lemma OtherKeepsInv(s: State, st: Step)
    requires Inv(s) && Enabled(s, st) && !IsCall(st) && !IsWork(st)
    ensures Inv(Apply(s, st))
  {
    assert forall id :: id in Recent(s) ==> id in s.log;
  }

  lemma StepKeepsInv(s: State, st: Step)
    requires Inv(s) && Enabled(s, st)
    ensures Inv(Apply(s, st))
  {
    match st {
      case Log(id) => LogKeepsInv(s, id);
      case Record(id, fate) => RecordKeepsInv(s, id, fate);
      case Append(id, fate) => AppendKeepsInv(s, id, fate);
      case Clear(id, fate) => ClearKeepsInv(s, id, fate);
      case Owe(_) => StateWorkKeepsInv(s, st);
      case Drop(_) => StateWorkKeepsInv(s, st);
      case Skip => MailWorkKeepsInv(s, st);
      case Deliver(_) => MailWorkKeepsInv(s, st);
      case _ => OtherKeepsInv(s, st);
    }
  }

  lemma LogKeepsProgress(s: State, id: Id)
    requires Inv(s) && (s.failed || Progress(s)) && Enabled(s, Log(id))
    ensures var t := Apply(s, Log(id)); t.failed || Progress(t)
  {
    assert (s.log + [id])[s.since..] == s.log[s.since..] + [id];
    Pushed(Covered(s), id);
  }

  lemma RecordKeepsProgress(s: State, id: Id, fate: Fate)
    requires Inv(s) && (s.failed || Progress(s)) && Enabled(s, Record(id, fate))
    ensures var t := Apply(s, Record(id, fate)); t.failed || Progress(t)
  {
    Pushed(s.pending, id);
    assert s.job.Up?;
  }

  lemma AppendKeepsProgress(s: State, id: Id, fate: Fate)
    requires Inv(s) && (s.failed || Progress(s)) && Enabled(s, Append(id, fate))
    ensures var t := Apply(s, Append(id, fate)); t.failed || Progress(t)
  {
    Pushed(s.inbox, id);
    assert s.job.Up?;
  }

  lemma ClearKeepsProgress(s: State, id: Id, fate: Fate)
    requires Inv(s) && (s.failed || Progress(s)) && Enabled(s, Clear(id, fate))
    ensures var t := Apply(s, Clear(id, fate)); t.failed || Progress(t)
  {
    assert s.job.Up?;
  }

  lemma StateWorkKeepsProgress(s: State, st: Step)
    requires Inv(s) && (s.failed || Progress(s)) && Enabled(s, st) && (st.Owe? || st.Drop?)
    ensures var t := Apply(s, st); t.failed || Progress(t)
  {
    Head(s);
    Pushed(s.pending, s.job.todo[0]);
  }

  lemma MailWorkKeepsProgress(s: State, st: Step)
    requires Inv(s) && (s.failed || Progress(s)) && Enabled(s, st) && (st.Skip? || st.Deliver?)
    ensures var t := Apply(s, st); t.failed || Progress(t)
  {
    Head(s);
    Pushed(s.inbox, s.job.todo[0]);
  }

  lemma OtherKeepsProgress(s: State, st: Step)
    requires Inv(s) && (s.failed || Progress(s)) && Enabled(s, st) && !IsCall(st) && !IsWork(st)
    ensures var t := Apply(s, st); t.failed || Progress(t)
  {
  }

  lemma StepKeepsProgress(s: State, st: Step)
    requires Inv(s) && (s.failed || Progress(s)) && Enabled(s, st)
    ensures var t := Apply(s, st); t.failed || Progress(t)
  {
    match st {
      case Log(id) => LogKeepsProgress(s, id);
      case Record(id, fate) => RecordKeepsProgress(s, id, fate);
      case Append(id, fate) => AppendKeepsProgress(s, id, fate);
      case Clear(id, fate) => ClearKeepsProgress(s, id, fate);
      case Owe(_) => StateWorkKeepsProgress(s, st);
      case Drop(_) => StateWorkKeepsProgress(s, st);
      case Skip => MailWorkKeepsProgress(s, st);
      case Deliver(_) => MailWorkKeepsProgress(s, st);
      case _ => OtherKeepsProgress(s, st);
    }
  }

  lemma {:induction false} RunKeepsInv(s: State, steps: seq<Step>, t: State)
    requires Inv(s) && (s.failed || Progress(s)) && Run(s, steps, t)
    ensures Inv(t) && (t.failed || Progress(t))
    decreases |steps|
  {
    if steps != [] {
      StepKeepsInv(s, steps[0]);
      StepKeepsProgress(s, steps[0]);
      RunKeepsInv(Apply(s, steps[0]), steps[1..], t);
    }
  }

  // ---------------------------------------------------------------- at most one letter each

  lemma DistinctPush(ids: seq<Id>, x: Id)
    requires Distinct(ids) && x !in ids
    ensures Distinct(ids + [x])
  {
  }

  lemma {:induction false} WithoutDistinct(ids: seq<Id>, x: Id)
    requires Distinct(ids)
    ensures Distinct(Without(ids, x))
  {
    if ids != [] {
      WithoutDistinct(ids[..|ids| - 1], x);
      assert ids[|ids| - 1] !in ids[..|ids| - 1];
    }
  }

  /** No notice stands twice in `ids`, save those in `sent`. */
  predicate OnceUnless(ids: seq<Id>, sent: set<Id>)
  {
    forall i, j :: 0 <= i < j < |ids| && ids[i] == ids[j] ==> ids[i] in sent
  }

  lemma OnceTail(ids: seq<Id>, sent: set<Id>)
    requires ids != [] && OnceUnless(ids, sent)
    ensures OnceUnless(ids[1..], sent) && (ids[0] !in sent ==> ids[0] !in ids[1..])
  {
  }

  /** What is still to be appended in a startup pass is not in INBOX yet. */
  ghost predicate Clean(s: State)
  {
    s.job.Recover? ==>
      && OnceUnless(s.job.todo, s.job.sent)
      && (forall i :: 0 <= i < |s.job.todo| && s.job.todo[i] !in s.job.sent && (i == 0 ==> s.job.at != Appended)
            ==> s.job.todo[i] !in s.inbox)
      && (s.job.todo != [] && s.job.at == Owed ==> s.job.todo[0] !in s.job.sent)
  }

  ghost predicate Once(s: State)
  {
    Distinct(s.log) && Distinct(s.inbox) && Clean(s)
  }

  /** The one thing startup must find: no notice owed twice that is not yet in INBOX. */
  ghost predicate FlushOk(s: State, st: Step)
  {
    st.BeginFlush? ==> OnceUnless(s.pending, SentOf(s.pending, s.inbox))
  }

  lemma MailWorkKeepsOnce(s: State, st: Step)
    requires Inv(s) && Once(s) && Enabled(s, st) && (st.Skip? || st.Deliver?)
    ensures Once(Apply(s, st))
  {
    OnceTail(s.job.todo, s.job.sent);
    if st.Deliver? {
      DistinctPush(s.inbox, s.job.todo[0]);
    }
  }

  lemma StateWorkKeepsOnce(s: State, st: Step)
    requires Inv(s) && Once(s) && Enabled(s, st) && (st.Owe? || st.Drop?)
    ensures Once(Apply(s, st))
  {
    OnceTail(s.job.todo, s.job.sent);
  }

  lemma DistinctSuffix(ids: seq<Id>, n: nat)
    requires Distinct(ids) && n <= |ids|
    ensures Distinct(ids[n..])
  {
    var r := ids[n..];
    assert forall i :: 0 <= i < |r| ==> r[i] == ids[n + i];
  }

  lemma BeginKeepsOnce(s: State, st: Step)
    requires Inv(s) && Once(s) && Enabled(s, st) && FlushOk(s, st) && (st.BeginFlush? || st.BeginReconcile?)
    ensures Once(Apply(s, st))
  {
    DistinctSuffix(s.log, s.window);
  }

  lemma CallKeepsOnce(s: State, st: Step)
    requires Inv(s) && Once(s) && Enabled(s, st) && IsCall(st)
    ensures Once(Apply(s, st))
  {
    if st.Log? {
      DistinctPush(s.log, st.id);
    } else if st.Append? {
      DistinctPush(s.inbox, st.id);
    }
  }

  lemma StepKeepsOnce(s: State, st: Step)
    requires Inv(s) && Once(s) && Enabled(s, st) && FlushOk(s, st)
    ensures Once(Apply(s, st))
  {
    if IsCall(st) {
      CallKeepsOnce(s, st);
    } else {
      match st {
        case Skip => MailWorkKeepsOnce(s, st);
        case Deliver(_) => MailWorkKeepsOnce(s, st);
        case Owe(_) => StateWorkKeepsOnce(s, st);
        case Drop(_) => StateWorkKeepsOnce(s, st);
        case BeginFlush => BeginKeepsOnce(s, st);
        case BeginReconcile => BeginKeepsOnce(s, st);
        case _ =>
      }
    }
  }

  /** A run whose every startup finds no such notice. */
  ghost predicate FlushOkRun(s: State, steps: seq<Step>, t: State)
    decreases |steps|
  {
    if steps == [] then s == t
    else Enabled(s, steps[0]) && FlushOk(s, steps[0]) && FlushOkRun(Apply(s, steps[0]), steps[1..], t)
  }

  /** Then no change is ever announced twice, whatever dies and whatever fails. */
  lemma {:induction false} AtMostOnce(s: State, steps: seq<Step>, t: State)
    requires Inv(s) && Once(s) && FlushOkRun(s, steps, t)
    ensures Inv(t) && Once(t)
    decreases |steps|
  {
    if steps != [] {
      StepKeepsInv(s, steps[0]);
      StepKeepsOnce(s, steps[0]);
      AtMostOnce(Apply(s, steps[0]), steps[1..], t);
    }
  }

  /**
   Late, never silent: whatever failed before, once a startup has completed both passes without an
   error, every change of the ninety days it read, and every one since, has its letter and nothing
   is owed; and so it stays while calls succeed.
   */
  lemma NeverSilent(s: State, steps: seq<Step>, t: State)
    requires Init(s) && Run(s, steps, t) && t.job.Up? && !t.failed
    ensures forall id :: id in Covered(t) && id !in t.calls ==> id in t.inbox
    ensures forall id :: id in t.pending ==> id in t.calls
  {
    RunKeepsInv(s, steps, t);
  }

  // ---------------------------------------------------------------- process deaths only

  /** The process may die at any step, but no write returns an error. */
  predicate NoError(st: Step)
  {
    match st
    case Record(_, fate) => fate.Done?
    case Append(_, fate) => fate.Done?
    case Clear(_, fate) => fate.Done?
    case CannotList => false
    case Owe(fate) => fate.Done?
    case Deliver(fate) => fate.Done?
    case Drop(fate) => fate.Done?
    case _ => true
  }

  ghost predicate DeathRun(s: State, steps: seq<Step>, t: State)
    decreases |steps|
  {
    if steps == [] then s == t
    else Enabled(s, steps[0]) && NoError(steps[0]) && DeathRun(Apply(s, steps[0]), steps[1..], t)
  }

  /** Nothing failed, and nothing is owed twice. */
  ghost predicate Tidy(s: State)
  {
    Inv(s) && Progress(s) && !s.failed && Once(s) && Distinct(s.pending) && s.file == s.pending
  }

  lemma StepKeepsTidy(s: State, st: Step)
    requires Tidy(s) && Enabled(s, st) && NoError(st)
    ensures Tidy(Apply(s, st))
  {
    StepKeepsInv(s, st);
    StepKeepsProgress(s, st);
    StepKeepsOnce(s, st);
    match st {
      case Record(id, _) => DistinctPush(s.pending, id);
      case Owe(_) => DistinctPush(s.pending, s.job.todo[0]);
      case Clear(id, _) => WithoutDistinct(s.pending, id);
      case Drop(_) => WithoutDistinct(s.pending, s.job.todo[0]);
      case _ =>
    }
  }

  lemma {:induction false} TidyStays(s: State, steps: seq<Step>, t: State)
    requires Tidy(s) && DeathRun(s, steps, t)
    ensures Tidy(t)
    decreases |steps|
  {
    if steps != [] {
      StepKeepsTidy(s, steps[0]);
      TidyStays(Apply(s, steps[0]), steps[1..], t);
    }
  }

  predicate ExactlyOne(ids: seq<Id>, id: Id)
  {
    exists i :: 0 <= i < |ids| && ids[i] == id && forall j :: 0 <= j < |ids| && ids[j] == id ==> j == i
  }

  lemma DistinctIsExactlyOne(ids: seq<Id>, id: Id)
    requires Distinct(ids) && id in ids
    ensures ExactlyOne(ids, id)
  {
    var i :| 0 <= i < |ids| && ids[i] == id;
    assert forall j :: 0 <= j < |ids| && ids[j] == id ==> j == i;
  }

  /**
   With deaths at any step, once startup has completed Flush and Reconcile, every change of the
   ninety days it read, and every one since, has exactly one letter in INBOX and is not pending,
   save those an Announce is still at work on; an older change has at most one.
   */
  lemma ExactlyOnce(s: State, steps: seq<Step>, t: State)
    requires Init(s) && DeathRun(s, steps, t)
    ensures Distinct(t.inbox) && Distinct(t.pending)
    ensures t.job.Up? ==> forall id :: id in Covered(t) && id !in t.calls ==> ExactlyOne(t.inbox, id) && id !in t.pending
  {
    TidyStays(s, steps, t);
    if t.job.Up? {
      forall id | id in Covered(t) && id !in t.calls
        ensures ExactlyOne(t.inbox, id) && id !in t.pending
      {
        DistinctIsExactlyOne(t.inbox, id);
      }
    }
  }

  // ---------------------------------------------------------------- what an error can do

  ghost predicate Closed(c: iset<State>)
  {
    forall s, st :: s in c && Enabled(s, st) ==> Apply(s, st) in c
  }

  /** Some run leads from `s` to `t`. */
  ghost predicate Reaches(s: State, t: State)
  {
    forall c :: Closed(c) && s in c ==> t in c
  }

  lemma Stays(s: State)
    ensures Reaches(s, s)
  {
  }

  lemma Push(s: State, t: State, st: Step)
    requires Reaches(s, t) && Enabled(t, st)
    ensures Reaches(s, Apply(t, st))
  {
  }

  lemma {:induction false} RunPush(s: State, steps: seq<Step>, t: State, st: Step)
    requires Run(s, steps, t) && Enabled(t, st)
    ensures Run(s, steps + [st], Apply(t, st))
    decreases |steps|
  {
    if steps == [] {
      assert steps + [st] == [st] && [st][1..] == [];
    } else {
      assert (steps + [st])[1..] == steps[1..] + [st];
      RunPush(Apply(s, steps[0]), steps[1..], t, st);
    }
  }

  ghost predicate HasRun(s: State, t: State)
  {
    exists run :: Run(s, run, t)
  }

  lemma ReachesByRun(s: State, t: State)
    requires Reaches(s, t)
    ensures HasRun(s, t)
  {
    var c := iset u | HasRun(s, u);
    assert Run(s, [], s);
    forall u, st | HasRun(s, u) && Enabled(u, st)
      ensures HasRun(s, Apply(u, st))
    {
      var run :| Run(s, run, u);
      RunPush(s, run, u, st);
    }
    assert Closed(c);
  }

  /**
   Three Append errors are enough for two letters: the first leaves the notice owed, the second
   makes Reconcile record it again, the third leaves it owed twice, and the next Flush, which lists
   INBOX once, appends it for each entry.
   */
  lemma ErrorsCanDuplicate(s: State, e: Id) returns (t: State)
    requires s == State([], 0, 0, [], [], [], map[], Up, false)
    ensures (exists steps :: Run(s, steps, t)) && t.log == [e] && t.inbox == [e, e]
  {
    var no := Failed(false);
    Stays(s);
    Push(s, s, Log(e));
    assert Apply(s, Log(e)) == State([e], 0, 0, [], [], [], map[e := Fresh], Up, false);
    Push(s, State([e], 0, 0, [], [], [], map[e := Fresh], Up, false), Record(e, Done));
    var s1 := State([e], 0, 0, [e], [e], [], map[e := Recorded], Up, false);
    assert Apply(State([e], 0, 0, [], [], [], map[e := Fresh], Up, false), Record(e, Done)) == s1;
    Push(s, s1, Append(e, no));
    var s2 := State([e], 0, 0, [e], [e], [], map[], Up, true);
    assert Apply(s1, Append(e, no)) == s2;
    Push(s, s2, Die);
    var s3 := FailedRecovery(s, s2.(job := Down), e);
    t := FlushTwice(s, s3, e);
    ReachesByRun(s, t);
  }

  lemma FailedRecovery(s: State, a: State, e: Id) returns (b: State)
    requires Reaches(s, a) && a == State([e], 0, 0, [e], [e], [], map[], Down, true)
    ensures Reaches(s, b) && b == State([e], 0, 0, [e, e], [e, e], [], map[], Down, true)
  {
    var no := Failed(false);
    Push(s, a, BeginFlush);
    var a1 := State([e], 0, 0, [e], [e], [], map[], Recover(Flushing, [e], {}, Look), false);
    assert SentOf([e], []) == {};
    assert Apply(a, BeginFlush) == a1;
    Push(s, a1, Deliver(no));
    var a2 := State([e], 0, 0, [e], [e], [], map[], Recover(Flushing, [], {}, Look), true);
    assert [e][1..] == [];
    assert Apply(a1, Deliver(no)) == a2;
    Push(s, a2, EndStage);
    Push(s, a2.(job := Between), BeginReconcile);
    var a3 := a2.(job := Recover(Reconciling, [e], {}, Look));
    Push(s, a3, Owe(Done));
    var a4 := State([e], 0, 0, [e, e], [e, e], [], map[], Recover(Reconciling, [e], {}, Owed), true);
    assert Apply(a3, Owe(Done)) == a4;
    Push(s, a4, Deliver(no));
    var a5 := State([e], 0, 0, [e, e], [e, e], [], map[], Recover(Reconciling, [], {}, Look), true);
    assert Apply(a4, Deliver(no)) == a5;
    Push(s, a5, EndStage);
    Push(s, a5.(job := Up), Die);
    b := a5.(job := Down);
    assert Apply(a5.(job := Up), Die) == b;
  }

  lemma FlushTwice(s: State, a: State, e: Id) returns (b: State)
    requires Reaches(s, a) && a == State([e], 0, 0, [e, e], [e, e], [], map[], Down, true)
    ensures Reaches(s, b) && b.log == [e] && b.inbox == [e, e]
  {
    Push(s, a, BeginFlush);
    var a1 := State([e], 0, 0, [e, e], [e, e], [], map[], Recover(Flushing, [e, e], {}, Look), false);
    assert SentOf([e, e], []) == {};
    assert Apply(a, BeginFlush) == a1;
    Push(s, a1, Deliver(Done));
    var a2 := State([e], 0, 0, [e, e], [e, e], [e], map[], Recover(Flushing, [e, e], {}, Appended), false);
    assert Apply(a1, Deliver(Done)) == a2;
    Push(s, a2, Drop(Done));
    var a3 := Apply(a2, Drop(Done));
    assert a3.job == Recover(Flushing, [e], {}, Look) && a3.inbox == [e];
    Push(s, a3, Deliver(Done));
    b := Apply(a3, Deliver(Done));
  }
}
