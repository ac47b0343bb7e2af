/**
 Filing (internal/filing/filing.go, release.go) against a changing contact table, one IMAP command
 or one table lookup at a time. A mutex keeps one filing pass at work; mail arrives, contacts
 change and the process may die between any two of its steps.
 */
module Filing {
  import opened Basics
  import opened Addresses
  import opened Ayllu

  // ---------------------------------------------------------------- mail

  /** A message; `sender` is what the From header resolves by, if it can be read at all. */
  datatype Article = Article(id: nat, sender: Option<Address>)

  /** A folder by uid. */
  type Folder = map<nat, Article>

  /** A From header that parses holds an address, and an address is never empty. */
  predicate WellFormed(a: Article)
  {
    a.sender.Some? ==> a.sender.value.text != "" && a.sender.value.key != NO_KEY
  }

  /** The sender is in the full table, tombstones and past addresses included. */
  ghost predicate Known(t: Table, a: Article)
  {
    a.sender.Some? && Readable(t, a.sender.value.key)
  }

  /** The sender's current address is an active contact's. */
  ghost predicate Welcome(t: Table, a: Article)
  {
    a.sender.Some? && Resolve(t, a.sender.value.key, true).Some?
  }

  /** The row that the full table finds for the sender is a tombstone. */
  ghost predicate Removed(t: Table, a: Article)
  {
    Known(t, a) && !Resolve(t, a.sender.value.key, false).value.active
  }

  /** What the reconciling pass quarantines; `boundary` is the device's cursor, when it is concrete. */
  ghost predicate Unwanted(t: Table, uid: nat, a: Article, boundary: Option<nat>)
  {
    !Known(t, a) || (boundary.Some? && uid > boundary.value && Removed(t, a))
  }

  lemma WelcomeIsKnown(t: Table, a: Article)
    ensures Welcome(t, a) ==> Known(t, a)
  {
    if a.sender.Some? {
      ActiveIsInFull(t, a.sender.value.key);
    }
  }

  predicate FromWasi(a: Article)
  {
    a.sender.Some? && a.sender.value.key == SYS_KEY
  }

  /** Wasi's own notices are wanted by every pass. */
  lemma SystemIsWelcome(t: Table, a: Article, uid: nat, boundary: Option<nat>)
    requires FromWasi(a)
    ensures Known(t, a) && Welcome(t, a) && !Unwanted(t, uid, a, boundary)
  {
  }

  // ---------------------------------------------------------------- the state

  const BATCH: nat := 50

  /** What the one pass at work is doing. */
  datatype Job =
    | Idle
    /** reconcileLocked: still to be examined; `mark` is the next uid when INBOX was listed. */
    | Sweep(todo: seq<nat>, boundary: Option<nat>, max: nat, mark: nat)
    | SweepMove(uid: nat, todo: seq<nat>, boundary: Option<nat>, max: nat, mark: nat)
    /** handleNotifyLocked: what is left of one batch. */
    | File(batch: seq<nat>)
    | FileMove(uid: nat, batch: seq<nat>)

  datatype State = State(
    store: Store, inbox: Folder, next: nat, held: Folder, heldNext: nat, spam: Folder, spamNext: nat,
    highWater: nat, seeded: bool, job: Job)

  datatype Step =
    | Arrive(article: Article)
    | ArriveAsSpam(article: Article)
    | Depart(uid: nat)                  // a person deletes a message of INBOX, or moves it
    | DepartHeld(uid: nat)              // or of Held
    | Change(call: Call)
    | BeginSweep(todo: seq<nat>, boundary: Option<nat>)
    | BeginFile(batch: seq<nat>)
    | Look
    | Move(fate: Fate)
    | End
    | Release(uid: nat)
    | SpamToHeld(uid: nat)
    | Restart

  /** mailbox.go:43-45: every message of the folder, by uid. */
  ghost predicate IsList(uids: seq<nat>, f: Folder)
  {
    Sorted(uids) && forall u :: u in uids <==> u in f
  }

  /** mailbox.go:34-36: the lowest `max` messages strictly above `uid`, lowest first. */
  ghost predicate IsFetch(uids: seq<nat>, f: Folder, uid: nat, max: nat)
  {
    && Sorted(uids) && |uids| <= max
    && (forall u :: u in uids ==> u in f && u > uid)
    && (forall u :: u in f && u > uid && u !in uids ==> |uids| == max && forall v :: v in uids ==> v < u)
  }

  /** INBOX to Held: the message gets a new uid there. */
  function Quarantined(s: State, uid: nat): State
  {
    if uid !in s.inbox then s
    else s.(inbox := s.inbox - {uid}, held := s.held[s.heldNext := s.inbox[uid]], heldNext := s.heldNext + 1)
  }

  function Max(a: nat, b: nat): nat
  {
    if a < b then b else a
  }

  ghost predicate Enabled(s: State, max: nat, st: Step)
  {
    match st
    case Arrive(a) => WellFormed(a)
    case ArriveAsSpam(a) => WellFormed(a)
    case Depart(uid) => uid in s.inbox
    case DepartHeld(uid) => uid in s.held
    case Change(c) => FreshFor(s.store.table, c.l) && ProperMutation(c.m)
    case BeginSweep(todo, _) => s.job.Idle? && IsList(todo, s.inbox)
    case BeginFile(batch) => s.job.Idle? && IsFetch(batch, s.inbox, s.highWater, BATCH)
    case Look => (s.job.Sweep? && s.job.todo != []) || (s.job.File? && s.job.batch != [])
    case Move(_) => s.job.SweepMove? || s.job.FileMove?
    case End => (s.job.Sweep? && s.job.todo == []) || (s.job.File? && s.job.batch == [])
    case Release(uid) => s.job.Idle? && uid in s.held
    case SpamToHeld(uid) => uid in s.spam
    case Restart => true
  }

  /** filing.go:268-299, one message. */
  ghost function Examined(s: State): State
    requires s.job.Sweep? && s.job.todo != []
  {
    var j := s.job;
    var uid, rest, top := j.todo[0], j.todo[1..], Max(j.max, j.todo[0]);
    if uid in s.inbox && Unwanted(s.store.table, uid, s.inbox[uid], j.boundary)
    then s.(job := SweepMove(uid, rest, j.boundary, top, j.mark))
    else s.(job := Sweep(rest, j.boundary, top, j.mark))
  }

  /** filing.go:357-371, one message. */
  ghost function Filed(s: State): State
    requires s.job.File? && s.job.batch != []
  {
    var uid, rest := s.job.batch[0], s.job.batch[1..];
    if uid in s.inbox && !Welcome(s.store.table, s.inbox[uid])
    then s.(job := FileMove(uid, rest))
    else s.(job := File(rest), highWater := Max(s.highWater, uid))
  }

  function AfterMove(s: State, fate: Fate): State
    requires s.job.SweepMove? || s.job.FileMove?
  {
    var moved := if fate.Done? || fate.effect then Quarantined(s, s.job.uid) else s;
    if fate.Failed? then moved.(job := Idle)
    else
      match s.job
      case SweepMove(_, todo, boundary, max, mark) => moved.(job := Sweep(todo, boundary, max, mark))
      case FileMove(uid, batch) => moved.(job := File(batch), highWater := Max(s.highWater, uid))
  }

  ghost function Apply(s: State, max: nat, st: Step): State
    requires Enabled(s, max, st)
  {
    match st
    case Arrive(a) => s.(inbox := s.inbox[s.next := a], next := s.next + 1)
    case ArriveAsSpam(a) => s.(spam := s.spam[s.spamNext := a], spamNext := s.spamNext + 1)
    case Depart(uid) => s.(inbox := s.inbox - {uid})
    case DepartHeld(uid) => s.(held := s.held - {uid})
    case Change(c) => s.(store := Mutated(s.store, max, c.m, c.l))
    case BeginSweep(todo, boundary) => s.(job := Sweep(todo, boundary, 0, s.next))
    case BeginFile(batch) => s.(job := File(batch))
    case Look => if s.job.Sweep? then Examined(s) else Filed(s)
    case Move(fate) => AfterMove(s, fate)
    case End =>
      if s.job.Sweep? then s.(job := Idle, highWater := Max(s.highWater, s.job.max), seeded := true) else s.(job := Idle)
    case Release(uid) =>
      s.(held := s.held - {uid}, inbox := s.inbox[s.next := s.held[uid]], next := s.next + 1)
    case SpamToHeld(uid) =>
      s.(spam := s.spam - {uid}, held := s.held[s.heldNext := s.spam[uid]], heldNext := s.heldNext + 1)
    case Restart => s.(job := Idle, highWater := 0, seeded := false)
  }

  ghost predicate Run(s: State, max: nat, steps: seq<Step>, t: State)
    decreases |steps|
  {
    if steps == [] then s == t
    else Enabled(s, max, steps[0]) && Run(Apply(s, max, steps[0]), max, steps[1..], t)
  }

  // ---------------------------------------------------------------- what every step keeps

  ghost predicate AllWellFormed(f: Folder)
  {
    forall u :: u in f ==> WellFormed(f[u])
  }

  /** Uids are handed out in order. */
  predicate Below(f: Folder, next: nat)
  {
    forall u :: u in f ==> u < next
  }

  /** Whatever is still in INBOX below `mark` is known, or still to be examined. */
  ghost predicate SweptSoFar(s: State, todo: seq<nat>, mark: nat)
  {
    forall u :: u in s.inbox && u < mark && u !in todo ==> Known(s.store.table, s.inbox[u])
  }

  ghost predicate SweepInv(s: State, pending: seq<nat>, max: nat, mark: nat)
  {
    max < mark <= s.next && SweptSoFar(s, pending, mark) && forall u :: u in pending ==> u < mark
  }

  /** A batch holds everything of INBOX from the high-water mark up to its last message. */
  ghost predicate BatchInv(s: State, batch: seq<nat>)
  {
    && Sorted(batch)
    && (forall u :: u in batch ==> s.highWater < u < s.next)
    && (forall u, v :: u in s.inbox && s.highWater < u && v in batch && u <= v ==> u in batch)
  }

  ghost predicate JobInv(s: State)
  {
    match s.job
    case Idle => true
    case Sweep(todo, _, max, mark) => SweepInv(s, todo, max, mark)
    case SweepMove(uid, todo, _, max, mark) => SweepInv(s, [uid] + todo, max, mark)
    case File(batch) => BatchInv(s, batch)
    case FileMove(uid, batch) => BatchInv(s, [uid] + batch)
  }

  /** Every INBOX message at or below the high-water mark is from somebody in the full table. */
  ghost predicate Decided(s: State)
  {
    forall u :: u in s.inbox && u <= s.highWater ==> Known(s.store.table, s.inbox[u])
  }

  ghost predicate Inv(s: State)
  {
    && GoodStore(s.store)
    && AllWellFormed(s.inbox) && AllWellFormed(s.held) && AllWellFormed(s.spam)
    && 0 < s.next && Below(s.inbox, s.next) && s.highWater < s.next
    && Below(s.held, s.heldNext) && Below(s.spam, s.spamNext)
    && Decided(s) && JobInv(s)
  }

  lemma ChangeKeepsKnown(s: Store, max: nat, c: Call, a: Article)
    requires GoodStore(s) && FreshFor(s.table, c.l) && ProperMutation(c.m) && WellFormed(a)
    ensures Known(s.table, a) ==> Known(Mutated(s, max, c.m, c.l).table, a)
  {
    if Known(s.table, a) {
      MutationKeepsReadable(s, max, c.m, c.l, a.sender.value.key);
    }
  }

  lemma ChangeKeepsInv(s: State, max: nat, c: Call)
    requires Inv(s) && Enabled(s, max, Change(c))
    ensures Inv(Apply(s, max, Change(c)))
  {
    var t := Apply(s, max, Change(c));
    MutationKeepsGood(s.store, max, c.m, c.l);
    forall u | u in s.inbox && Known(s.store.table, s.inbox[u])
      ensures Known(t.store.table, t.inbox[u])
    {
      ChangeKeepsKnown(s.store, max, c, s.inbox[u]);
    }
  }

  lemma SortedTail(uid: nat, rest: seq<nat>)
    requires Sorted([uid] + rest)
    ensures Sorted(rest) && forall u :: u in rest ==> uid < u
  {
    var all := [uid] + rest;
    assert all[0] == uid && forall i :: 0 <= i < |rest| ==> all[i + 1] == rest[i];
  }

  /** The mark may move up to the head of a batch: nothing else lies in between. */
  lemma FiledIsDecided(s: State, uid: nat, rest: seq<nat>)
    requires BatchInv(s, [uid] + rest)
    ensures forall u :: u in s.inbox && s.highWater < u <= uid ==> u == uid
    ensures s.highWater < uid < s.next
    ensures Sorted(rest) && forall u :: u in rest ==> uid < u < s.next
    ensures forall u, v :: u in s.inbox && uid < u && v in rest && u <= v ==> u in rest
  {
    var all := [uid] + rest;
    SortedTail(uid, rest);
    assert uid in all;
    assert forall u :: u in all <==> u == uid || u in rest;
  }

  lemma SweepLookKeepsInv(s: State)
    requires Inv(s) && s.job.Sweep? && s.job.todo != []
    ensures Inv(Examined(s))
  {
    var uid, rest := s.job.todo[0], s.job.todo[1..];
    assert s.job.todo == [uid] + rest;
    assert uid in s.job.todo;
    assert forall u :: u in s.job.todo <==> u == uid || u in rest;
  }

  lemma FileLookKeepsInv(s: State)
    requires Inv(s) && s.job.File? && s.job.batch != []
    ensures Inv(Filed(s))
  {
    var uid, rest := s.job.batch[0], s.job.batch[1..];
    assert s.job.batch == [uid] + rest;
    FiledIsDecided(s, uid, rest);
    if uid in s.inbox {
      WelcomeIsKnown(s.store.table, s.inbox[uid]);
    }
  }

  lemma SweepMoveKeepsInv(s: State, fate: Fate)
    requires Inv(s) && s.job.SweepMove?
    ensures Inv(AfterMove(s, fate))
  {
    assert forall u :: u in [s.job.uid] + s.job.todo <==> u == s.job.uid || u in s.job.todo;
  }

  lemma FileMoveKeepsInv(s: State, fate: Fate)
    requires Inv(s) && s.job.FileMove?
    ensures Inv(AfterMove(s, fate))
  {
    FiledIsDecided(s, s.job.uid, s.job.batch);
  }

  lemma BeginKeepsInv(s: State, max: nat, st: Step)
    requires Inv(s) && Enabled(s, max, st) && (st.BeginSweep? || st.BeginFile?)
    ensures Inv(Apply(s, max, st))
  {
  }

  lemma PassKeepsInv(s: State, max: nat, st: Step)
    requires Inv(s) && Enabled(s, max, st) && (st.Look? || st.Move?)
    ensures Inv(Apply(s, max, st))
  {
    if st.Look? {
      if s.job.Sweep? {
        SweepLookKeepsInv(s);
      } else {
        FileLookKeepsInv(s);
      }
    } else {
      if s.job.SweepMove? {
        SweepMoveKeepsInv(s, st.fate);
      } else {
        FileMoveKeepsInv(s, st.fate);
      }
    }
  }

  /** Mail that comes and goes, by nobody's pass. */
  lemma MailKeepsInv(s: State, max: nat, st: Step)
    requires Inv(s) && Enabled(s, max, st)
    requires st.Arrive? || st.ArriveAsSpam? || st.Depart? || st.DepartHeld? || st.SpamToHeld?
    ensures Inv(Apply(s, max, st))
  {
  }

  lemma StepKeepsInv(s: State, max: nat, st: Step)
    requires Inv(s) && Enabled(s, max, st)
    ensures Inv(Apply(s, max, st))
  {
    match st {
      case Change(c) => ChangeKeepsInv(s, max, c);
      case BeginSweep(_, _) => BeginKeepsInv(s, max, st);
      case BeginFile(_) => BeginKeepsInv(s, max, st);
      case Look => PassKeepsInv(s, max, st);
      case Move(_) => PassKeepsInv(s, max, st);
      case End =>
      case Release(_) =>
      case Restart =>
      case _ => MailKeepsInv(s, max, st);
    }
  }

  /** Filing has decided about everything at or below its mark, in every interleaving. */
  lemma {:induction false} RunKeepsInv(s: State, max: nat, steps: seq<Step>, t: State)
    requires Inv(s) && Run(s, max, steps, t)
    ensures Inv(t)
    decreases |steps|
  {
    if steps != [] {
      StepKeepsInv(s, max, steps[0]);
      RunKeepsInv(Apply(s, max, steps[0]), max, steps[1..], t);
    }
  }

  // ---------------------------------------------------------------- the decision is made once

  /** Already looked at by the sweep at work, or about to be. */
  predicate Passed(s: State, u: nat)
  {
    u <= s.highWater
    || ((s.job.Sweep? || s.job.SweepMove?) && (u in s.job.todo || u <= s.job.max))
  }

  /** The message stays, unless a sync whose cursor lies below it sweeps. */
  ghost predicate Settled(s: State, u: nat)
  {
    && u in s.inbox && Known(s.store.table, s.inbox[u])
    && (s.seeded || s.job.File? || s.job.FileMove? ==> u <= s.highWater)
    && (s.job.Sweep? || s.job.SweepMove? ==> Passed(s, u) && (s.job.boundary.Some? ==> u <= s.job.boundary.value))
    && (s.job.SweepMove? ==> s.job.uid != u)
  }

  /**
   The ordering the source asks for: a process that has just started files arrivals only once a
   reconciling pass has set its mark; the device's cursor has passed the message; and nobody
   takes the message away by hand.
   */
  ghost predicate Orderly(s: State, st: Step, u: nat)
  {
    && (st.BeginFile? ==> s.seeded || u <= s.highWater)
    && (st.BeginSweep? && st.boundary.Some? ==> u <= st.boundary.value)
    && st != Depart(u)
  }

  ghost predicate OrderlyRun(s: State, max: nat, steps: seq<Step>, t: State, u: nat)
    decreases |steps|
  {
    if steps == [] then s == t
    else
      && Enabled(s, max, steps[0]) && Orderly(s, steps[0], u)
      && OrderlyRun(Apply(s, max, steps[0]), max, steps[1..], t, u)
  }

  lemma SweepLookSettled(s: State, u: nat)
    requires Inv(s) && Settled(s, u) && s.job.Sweep? && s.job.todo != []
    ensures Settled(Examined(s), u) && Examined(s).inbox == s.inbox
  {
    var uid, rest := s.job.todo[0], s.job.todo[1..];
    assert s.job.todo == [uid] + rest;
  }

  lemma FileLookSettled(s: State, u: nat)
    requires Inv(s) && Settled(s, u) && s.job.File? && s.job.batch != []
    ensures Settled(Filed(s), u) && Filed(s).inbox == s.inbox
  {
    assert s.job.batch[0] in s.job.batch;
  }

  lemma MoveSettled(s: State, u: nat, fate: Fate)
    requires Inv(s) && Settled(s, u) && (s.job.SweepMove? || s.job.FileMove?)
    ensures Settled(AfterMove(s, fate), u) && AfterMove(s, fate).inbox[u] == s.inbox[u]
  {
    if s.job.FileMove? {
      assert s.job.uid in [s.job.uid] + s.job.batch;
    }
  }

  lemma StepKeepsSettled(s: State, max: nat, st: Step, u: nat)
    requires Inv(s) && Settled(s, u) && Enabled(s, max, st) && Orderly(s, st, u)
    ensures var t := Apply(s, max, st); Settled(t, u) && t.inbox[u] == s.inbox[u]
  {
    match st {
      case Look =>
        if s.job.Sweep? {
          SweepLookSettled(s, u);
        } else {
          FileLookSettled(s, u);
        }
      case Move(fate) => MoveSettled(s, u, fate);
      case Change(c) => ChangeKeepsKnown(s.store, max, c, s.inbox[u]);
      case _ =>
    }
  }

  lemma {:induction false} SettledStays(s: State, max: nat, steps: seq<Step>, t: State, u: nat)
    requires Inv(s) && Settled(s, u) && OrderlyRun(s, max, steps, t, u)
    ensures Settled(t, u) && t.inbox[u] == s.inbox[u]
    decreases |steps|
  {
    if steps != [] {
      StepKeepsInv(s, max, steps[0]);
      StepKeepsSettled(s, max, steps[0], u);
      SettledStays(Apply(s, max, steps[0]), max, steps[1..], t, u);
    }
  }

  /**
   The decision is made once. A message the mark has passed stays in INBOX through every orderly
   run: restarts, reconciling passes, arrivals, releases, and whatever the guardians do to its
   sender's row meanwhile.
   */
  lemma DecidedOnce(s: State, max: nat, steps: seq<Step>, t: State, u: nat)
    requires Inv(s) && s.job.Idle? && u in s.inbox && u <= s.highWater
    requires OrderlyRun(s, max, steps, t, u)
    ensures u in t.inbox && t.inbox[u] == s.inbox[u] && Known(t.store.table, t.inbox[u])
  {
    SettledStays(s, max, steps, t, u);
  }

  /** A notice from Wasi itself is not about to be moved. */
  predicate Spared(s: State, u: nat)
  {
    && u in s.inbox && FromWasi(s.inbox[u])
    && (s.job.SweepMove? || s.job.FileMove? ==> s.job.uid != u)
  }

  lemma StepSpares(s: State, max: nat, st: Step, u: nat)
    requires Spared(s, u) && Below(s.inbox, s.next) && Enabled(s, max, st) && st != Depart(u)
    ensures var t := Apply(s, max, st); Spared(t, u) && Below(t.inbox, t.next) && t.inbox[u] == s.inbox[u]
  {
    if st.Look? {
      SystemIsWelcome(s.store.table, s.inbox[u], u, if s.job.Sweep? then s.job.boundary else None);
    }
  }

  /** And never will be: no order of steps takes it out of INBOX, a person's own hand apart. */
  lemma {:induction false} NoticeStays(s: State, max: nat, steps: seq<Step>, t: State, u: nat)
    requires Spared(s, u) && Below(s.inbox, s.next) && Run(s, max, steps, t)
    requires forall i :: 0 <= i < |steps| ==> steps[i] != Depart(u)
    ensures u in t.inbox && t.inbox[u] == s.inbox[u]
    decreases |steps|
  {
    if steps != [] {
      StepSpares(s, max, steps[0], u);
      NoticeStays(Apply(s, max, steps[0]), max, steps[1..], t, u);
    }
  }

  // ---------------------------------------------------------------- nothing vanishes

  predicate Holds(f: Folder, a: Article)
  {
    exists u :: u in f && f[u] == a
  }

  predicate Somewhere(s: State, a: Article)
  {
    Holds(s.inbox, a) || Holds(s.held, a) || Holds(s.spam, a)
  }

  lemma HoldsMore(f: Folder, u: nat, b: Article, a: Article)
    requires u !in f && (a == b || Holds(f, a))
    ensures Holds(f[u := b], a)
  {
    var g := f[u := b];
    assert g[u] == b;
    if Holds(f, a) {
      var v :| v in f && f[v] == a;
      assert g[v] == a;
    }
  }

  lemma HoldsLess(f: Folder, u: nat, a: Article)
    requires Holds(f, a) && u in f && f[u] != a
    ensures Holds(f - {u}, a)
  {
    var v :| v in f && f[v] == a;
    assert v in f - {u};
  }

  lemma QuarantineKeeps(s: State, u: nat, a: Article)
    requires Below(s.held, s.heldNext) && Somewhere(s, a)
    ensures Somewhere(Quarantined(s, u), a)
  {
    if u in s.inbox {
      if s.inbox[u] == a || Holds(s.held, a) {
        HoldsMore(s.held, s.heldNext, s.inbox[u], a);
      } else if Holds(s.inbox, a) {
        HoldsLess(s.inbox, u, a);
      }
    }
  }

  /** A person takes the article away by hand. */
  predicate TakesAway(s: State, st: Step, a: Article)
  {
    || (st.Depart? && st.uid in s.inbox && s.inbox[st.uid] == a)
    || (st.DepartHeld? && st.uid in s.held && s.held[st.uid] == a)
  }

  /** A run in which nobody does. */
  ghost predicate HandsOff(s: State, max: nat, steps: seq<Step>, a: Article)
    decreases |steps|
  {
    steps != [] ==>
      && Enabled(s, max, steps[0]) && !TakesAway(s, steps[0], a)
      && HandsOff(Apply(s, max, steps[0]), max, steps[1..], a)
  }

  lemma ComingKeepsMail(s: State, max: nat, st: Step, a: Article)
    requires Inv(s) && Enabled(s, max, st) && Somewhere(s, a) && (st.Arrive? || st.ArriveAsSpam?)
    ensures Somewhere(Apply(s, max, st), a)
  {
    if st.Arrive? {
      if Holds(s.inbox, a) {
        HoldsMore(s.inbox, s.next, st.article, a);
      }
    } else if Holds(s.spam, a) {
      HoldsMore(s.spam, s.spamNext, st.article, a);
    }
  }

  lemma GoingKeepsMail(s: State, max: nat, st: Step, a: Article)
    requires Enabled(s, max, st) && Somewhere(s, a) && (st.Depart? || st.DepartHeld?) && !TakesAway(s, st, a)
    ensures Somewhere(Apply(s, max, st), a)
  {
    if st.Depart? {
      if Holds(s.inbox, a) {
        HoldsLess(s.inbox, st.uid, a);
      }
    } else if Holds(s.held, a) {
      HoldsLess(s.held, st.uid, a);
    }
  }

  lemma FolderMoveKeepsMail(s: State, max: nat, st: Step, a: Article)
    requires Inv(s) && Enabled(s, max, st) && Somewhere(s, a) && (st.Release? || st.SpamToHeld?)
    ensures Somewhere(Apply(s, max, st), a)
  {
    var u := st.uid;
    if st.Release? {
      if s.held[u] == a || Holds(s.inbox, a) {
        HoldsMore(s.inbox, s.next, s.held[u], a);
      } else if Holds(s.held, a) {
        HoldsLess(s.held, u, a);
      }
    } else {
      if s.spam[u] == a || Holds(s.held, a) {
        HoldsMore(s.held, s.heldNext, s.spam[u], a);
      } else if Holds(s.spam, a) {
        HoldsLess(s.spam, u, a);
      }
    }
  }

  /** No other step touches a folder. */
  lemma FoldersUntouched(s: State, max: nat, st: Step)
    requires Enabled(s, max, st) && (st.Change? || st.BeginSweep? || st.BeginFile? || st.Look? || st.End? || st.Restart?)
    ensures var t := Apply(s, max, st); t.inbox == s.inbox && t.held == s.held && t.spam == s.spam
  {
  }

  lemma StepKeepsMail(s: State, max: nat, st: Step, a: Article)
    requires Inv(s) && Enabled(s, max, st) && Somewhere(s, a) && !TakesAway(s, st, a)
    ensures Somewhere(Apply(s, max, st), a)
  {
    match st {
      case Arrive(_) => ComingKeepsMail(s, max, st, a);
      case ArriveAsSpam(_) => ComingKeepsMail(s, max, st, a);
      case Depart(_) => GoingKeepsMail(s, max, st, a);
      case DepartHeld(_) => GoingKeepsMail(s, max, st, a);
      case Release(_) => FolderMoveKeepsMail(s, max, st, a);
      case SpamToHeld(_) => FolderMoveKeepsMail(s, max, st, a);
      case Move(fate) => QuarantineKeeps(s, s.job.uid, a);
      case _ => FoldersUntouched(s, max, st);
    }
  }

  /** Whatever arrived is in INBOX, Held or Spam until a person takes it: no failed MOVE and no restart loses it. */
  lemma {:induction false} NothingVanishes(s: State, max: nat, steps: seq<Step>, t: State, a: Article)
    requires Inv(s) && Run(s, max, steps, t) && Somewhere(s, a) && HandsOff(s, max, steps, a)
    ensures Somewhere(t, a)
    decreases |steps|
  {
    if steps != [] {
      StepKeepsInv(s, max, steps[0]);
      StepKeepsMail(s, max, steps[0], a);
      NothingVanishes(Apply(s, max, steps[0]), max, steps[1..], t, a);
    }
  }
}
