/**
 No inbound letter is skipped: an invariant of every run of the sync system.
 */
module SyncInbound {
  import opened Basics
  import opened AckRing
  import opened Assembly
  import opened SyncSystem
  import SeenRing

  // ---------------------------------------------------------------- what a cursor promises

  function Ids(letters: seq<Letter>): (s: set<LetterId>)
  {
    set i | 0 <= i < |letters| :: letters[i].id
  }

  /** The letters written to flash, and the messages that may lack one. */
  datatype Ledger = Ledger(stored: set<LetterId>, excused: Excuses)

  function Of(h: History): Ledger
  {
    Ledger(h.stored, h.excused)
  }

  /** The ledger once a response has been applied. */
  function With(g: Ledger, resp: Response): Ledger
  {
    Ledger(g.stored + Ids(resp.letters), Together(g.excused, resp.excused))
  }

  /** The ledger under which a stage's messages are judged: a resync leaves the old ones out. */
  function Staged(g: Ledger, validity: nat, aged: set<nat>): Ledger
  {
    Ledger(g.stored, Together(g.excused, Excuses({}, set u | u in aged :: (validity, u))))
  }

  /** A message is accounted for: its letter is on flash, or its absence is excused. */
  predicate Accounted(box: Mailbox, g: Ledger, u: nat)
    requires u in box.inbox
  {
    box.inbox[u] in g.stored || (box.validity, u) in g.excused.strangers || (box.validity, u) in g.excused.aged
  }

  /** A cursor of the mailbox's current numbering has every message up to it accounted for. */
  ghost predicate Covered(box: Mailbox, g: Ledger, c: Cursor)
  {
    c.At? ==>
      && c.validity <= box.validity
      && (c.validity == box.validity ==>
            && c.uid < box.next
            && forall u :: u in box.inbox && u <= c.uid ==> Accounted(box, g, u))
  }

  /** Nothing at or below the durable cursor, or the one in RAM, was passed over. */
  ghost predicate NothingSkipped(s: State)
  {
    Covered(s.box, Of(s.hist), s.dev.cursor) && Covered(s.box, Of(s.hist), s.dev.held)
  }

  ghost predicate BoxInv(box: Mailbox)
  {
    && box.next > 0
    && forall u :: u in box.inbox ==> 0 < u < box.next && |box.inbox[u].text| == LETTER_ID_CHARS
  }

  /** The ring vouches only for letters that were written; a merged line is no letter id. */
  ghost predicate Vouched(ring: seq<LetterId>, stored: set<LetterId>)
  {
    forall x :: x in ring && |x.text| == LETTER_ID_CHARS ==> x in stored
  }

  ghost predicate RingInv(d: Device, h: History)
  {
    Vouched(d.seen, h.stored) && Vouched(d.ring, h.stored)
  }

  lemma PushVouched(ring: seq<LetterId>, x: LetterId, cap: nat, stored: set<LetterId>)
    requires Vouched(ring, stored) && (|x.text| == LETTER_ID_CHARS ==> x in stored)
    ensures Vouched(LastN(ring + [x], cap), stored)
  {
    var grown := ring + [x];
    var kept := LastN(grown, cap);
    assert forall k :: 0 <= k < |kept| ==> kept[k] == grown[k + |grown| - |kept|];
  }

  ghost predicate ProperIds(letters: seq<Letter>)
  {
    forall k :: 0 <= k < |letters| ==> |letters[k].id.text| == LETTER_ID_CHARS
  }

  ghost predicate ProperRaws(raws: seq<Raw>)
  {
    Ascending(raws) && forall k :: 0 <= k < |raws| ==> |raws[k].id.text| == LETTER_ID_CHARS
  }

  /** What a fetch leaves to be said about each message of INBOX. */
  ghost predicate FetchedInv(box: Mailbox, g: Ledger, floor: nat, raws: seq<Raw>)
  {
    && floor < box.next
    && (forall i :: 0 <= i < |raws| ==> floor < raws[i].uid < box.next)
    && forall u :: u in box.inbox ==>
         || Accounted(box, g, u)
         || (exists i :: 0 <= i < |raws| && raws[i] == Raw(u, box.inbox[u]))
         || (u > floor && forall i :: 0 <= i < |raws| ==> raws[i].uid < u)
  }

  ghost predicate StageInv(box: Mailbox, g: Ledger, st: Stage)
  {
    match st
    case Fetching(v) => v <= box.validity
    case Assembling(v, floor, raws, _, aged) =>
      v <= box.validity && ProperRaws(raws) && (v == box.validity ==> FetchedInv(box, Staged(g, v, aged), floor, raws))
    case _ => true
  }

  ghost predicate ApplyingInv(d: Device, h: History, net: Net)
  {
    d.applying.Some? ==>
      var w := d.applying.value;
      && w.resp in net.responses
      && w.acks <= |w.resp.acks| && w.letters <= |w.resp.letters|
      && (forall k :: 0 <= k < w.letters ==> w.resp.letters[k].id in h.stored)
      && (w.put ==> w.letters < |w.resp.letters| && w.resp.letters[w.letters].id in h.stored)
  }

  ghost predicate MessagesInv(box: Mailbox, g: Ledger, net: Net)
  {
    && (forall req :: req in net.requests ==> Covered(box, g, req.cursor))
    && (forall resp :: resp in net.responses ==> ProperIds(resp.letters) && Covered(box, With(g, resp), resp.cursor))
  }

  ghost predicate WorkInv(box: Mailbox, g: Ledger, work: Option<Work>)
  {
    work.Some? ==> Covered(box, g, work.value.req.cursor) && StageInv(box, g, work.value.stage)
  }

  ghost predicate InboundInv(s: State)
  {
    && BoxInv(s.box)
    && RingInv(s.dev, s.hist)
    && NothingSkipped(s)
    && ApplyingInv(s.dev, s.hist, s.net)
    && MessagesInv(s.box, Of(s.hist), s.net)
    && WorkInv(s.box, Of(s.hist), s.srv.work)
  }

  // ---------------------------------------------------------------- what never goes back

  ghost predicate Grows(g: Ledger, g': Ledger)
  {
    g.stored <= g'.stored && g.excused.strangers <= g'.excused.strangers && g.excused.aged <= g'.excused.aged
  }

  /** Letters stay written, excuses stand, old messages keep their number and new ones come above. */
  ghost predicate Later(box: Mailbox, g: Ledger, box': Mailbox, g': Ledger)
  {
    && Grows(g, g')
    && box.validity <= box'.validity
    && (box.validity == box'.validity ==>
          && box.next <= box'.next
          && forall u :: u in box'.inbox && u < box.next ==> u in box.inbox && box.inbox[u] == box'.inbox[u])
  }

  lemma CoveredStays(box: Mailbox, g: Ledger, box': Mailbox, g': Ledger, c: Cursor)
    requires Later(box, g, box', g') && Covered(box, g, c)
    ensures Covered(box', g', c)
  {
  }

  lemma MessagesStay(box: Mailbox, g: Ledger, box': Mailbox, g': Ledger, net: Net)
    requires Later(box, g, box', g') && MessagesInv(box, g, net)
    ensures MessagesInv(box', g', net)
  {
    forall req | req in net.requests
      ensures Covered(box', g', req.cursor)
    {
      CoveredStays(box, g, box', g', req.cursor);
    }
    forall resp | resp in net.responses
      ensures ProperIds(resp.letters) && Covered(box', With(g', resp), resp.cursor)
    {
      CoveredStays(box, With(g, resp), box', With(g', resp), resp.cursor);
    }
  }

  lemma FetchedStays(box: Mailbox, g: Ledger, box': Mailbox, g': Ledger, floor: nat, raws: seq<Raw>)
    requires Later(box, g, box', g') && box.validity == box'.validity && FetchedInv(box, g, floor, raws)
    ensures FetchedInv(box', g', floor, raws)
  {
    forall u | u in box'.inbox
      ensures || Accounted(box', g', u)
              || (exists i :: 0 <= i < |raws| && raws[i] == Raw(u, box'.inbox[u]))
              || (u > floor && forall i :: 0 <= i < |raws| ==> raws[i].uid < u)
    {
      if u < box.next {
        assert u in box.inbox && box.inbox[u] == box'.inbox[u];
        if Accounted(box, g, u) {
          assert Accounted(box', g', u);
        }
      }
    }
  }

  lemma WorkStays(box: Mailbox, g: Ledger, box': Mailbox, g': Ledger, work: Option<Work>)
    requires Later(box, g, box', g') && WorkInv(box, g, work)
    ensures WorkInv(box', g', work)
  {
    if work.Some? {
      CoveredStays(box, g, box', g', work.value.req.cursor);
      var st := work.value.stage;
      if st.Assembling? && st.validity == box'.validity {
        FetchedStays(box, Staged(g, st.validity, st.aged), box', Staged(g', st.validity, st.aged), st.floor, st.raws);
      }
    }
  }

  /** Everything said about the past survives a step that only adds. */
  lemma InboundStays(s: State, t: State)
    requires InboundInv(s) && Later(s.box, Of(s.hist), t.box, Of(t.hist)) && BoxInv(t.box)
    requires t.net == s.net && t.srv.work == s.srv.work
    requires t.dev.cursor in [s.dev.cursor, s.dev.held] && t.dev.held in [s.dev.cursor, s.dev.held, Blank]
    requires RingInv(t.dev, t.hist) && ApplyingInv(t.dev, t.hist, t.net)
    ensures InboundInv(t)
  {
    MessagesStay(s.box, Of(s.hist), t.box, Of(t.hist), s.net);
    CoveredStays(s.box, Of(s.hist), t.box, Of(t.hist), s.dev.cursor);
    CoveredStays(s.box, Of(s.hist), t.box, Of(t.hist), s.dev.held);
    WorkStays(s.box, Of(s.hist), t.box, Of(t.hist), s.srv.work);
  }

  // ---------------------------------------------------------------- the device's steps

  predicate TouchesRing(ds: DeviceStep)
  {
    ds.RingAppend? || ds.RingCompact? || ds.RingMerged? || ds.RingFails? || ds.Reboot?
  }

  lemma RingUntouched(p: Params, d: Device, ds: DeviceStep)
    requires DeviceEnabled(p, d, ds) && !TouchesRing(ds)
    ensures var d' := DeviceApply(p, d, ds); d'.seen == d.seen && d'.ring == d.ring
  {
  }

  lemma StoredGrows(h: History, d: Device, ds: DeviceStep, d': Device)
    requires ds.AddEntry? || ds.AddUnsure? ==> d.adding.Some?
    requires ds.PutLetter? ==> AtLetter(d)
    requires ds.SetCursor? || ds.CursorUnsure? ==> AtCursor(d)
    ensures DeviceHistory(h, d, ds, d').stored == h.stored + if ds.PutLetter? then {CurrentLetter(d).id} else {}
  {
  }

  /** Both copies of the ring after one add: RAM has the id; the file has it, a merged line, RAM's copy, or nothing new. */
  lemma RingAdded(p: Params, d: Device, ds: DeviceStep)
    requires DeviceEnabled(p, d, ds) && TouchesRing(ds) && !ds.Reboot?
    ensures AtLetter(d) && d.applying.value.put
    ensures var d' := DeviceApply(p, d, ds);
            && d'.seen == LastN(d.seen + [CurrentLetter(d).id], p.seenCap)
            && (|| (ds.RingAppend? && d'.ring == LastN(d.ring + [CurrentLetter(d).id], p.seenCap))
                || (ds.RingCompact? && d'.ring == d'.seen)
                || (ds.RingMerged? && |ds.junk.text| > |CurrentLetter(d).id.text| && d'.ring == LastN(d.ring + [ds.junk], p.seenCap))
                || (ds.RingFails? && d'.ring == d.ring))
  {
  }

  lemma ReloadedVouched(ring: seq<LetterId>, stored: set<LetterId>)
    requires Vouched(ring, stored)
    ensures Vouched(SeenRing.Kept(ring), stored) && Vouched([], stored)
  {
  }

  /** What a boot makes of the ring. */
  lemma RingBooted(p: Params, d: Device, found: Found)
    requires DeviceEnabled(p, d, Reboot(found))
    ensures var d', kept := DeviceApply(p, d, Reboot(found)), SeenRing.Kept(d.ring);
            && d'.seen == (if found.ring then kept else [])
            && d'.ring == (if found.ring && found.compacts then kept else d.ring)
  {
  }

  lemma DeviceKeepsRing(p: Params, d: Device, h: History, net: Net, ds: DeviceStep)
    requires RingInv(d, h) && ApplyingInv(d, h, net) && DeviceEnabled(p, d, ds)
    requires forall resp :: resp in net.responses ==> ProperIds(resp.letters)
    ensures var d' := DeviceApply(p, d, ds); RingInv(d', DeviceHistory(h, d, ds, d'))
  {
    StoredGrows(h, d, ds, DeviceApply(p, d, ds));
    if !TouchesRing(ds) {
      RingUntouched(p, d, ds);
    } else if ds.Reboot? {
      RingBooted(p, d, ds.found);
      ReloadedVouched(d.ring, h.stored);
    } else {
      RingAdded(p, d, ds);
      PushVouched(d.seen, CurrentLetter(d).id, p.seenCap, h.stored);
      if ds.RingAppend? {
        PushVouched(d.ring, CurrentLetter(d).id, p.seenCap, h.stored);
      } else if ds.RingMerged? {
        PushVouched(d.ring, ds.junk, p.seenCap, h.stored);
      }
    }
  }

  /** What a step does to a half-applied response: the acks, and the letters. */
  lemma AcksAdvance(p: Params, d: Device, ds: DeviceStep)
    requires DeviceEnabled(p, d, ds) && d.applying.Some? && DeviceApply(p, d, ds).applying.Some?
    requires d.applying.value.acks <= |d.applying.value.resp.acks|
    ensures var w, w' := d.applying.value, DeviceApply(p, d, ds).applying.value;
            w'.resp == w.resp && w'.acks <= |w.resp.acks|
  {
  }

  /** A letter is left behind only when it is on flash, or known to the ring in RAM. */
  ghost predicate LettersAdvance(d: Device, ds: DeviceStep, w: Applying, w': Applying)
  {
    if w'.letters == w.letters then w'.put ==> w.put || (ds.PutLetter? && AtLetter(d))
    else AtLetter(d) && w'.letters == w.letters + 1 && !w'.put && (w.put || CurrentLetter(d).id in d.seen)
  }

  lemma ApplyingAdvances(p: Params, d: Device, ds: DeviceStep)
    requires DeviceEnabled(p, d, ds) && d.applying.Some? && DeviceApply(p, d, ds).applying.Some?
    ensures LettersAdvance(d, ds, d.applying.value, DeviceApply(p, d, ds).applying.value)
  {
  }

  lemma BeginsFromNet(p: Params, d: Device, ds: DeviceStep)
    requires DeviceEnabled(p, d, ds) && d.applying.None? && DeviceApply(p, d, ds).applying.Some?
    ensures ds.Begin? && DeviceApply(p, d, ds).applying == Some(Applying(ds.resp, 0, 0, false))
  {
  }

  lemma DeviceKeepsApplying(p: Params, d: Device, h: History, net: Net, ds: DeviceStep)
    requires RingInv(d, h) && ApplyingInv(d, h, net) && DeviceEnabled(p, d, ds)
    requires ds.Begin? ==> ds.resp in net.responses
    requires forall resp :: resp in net.responses ==> ProperIds(resp.letters)
    ensures var d' := DeviceApply(p, d, ds); ApplyingInv(d', DeviceHistory(h, d, ds, d'), net)
  {
    var d' := DeviceApply(p, d, ds);
    StoredGrows(h, d, ds, d');
    if d'.applying.Some? {
      if d.applying.None? {
        BeginsFromNet(p, d, ds);
      } else {
        AcksAdvance(p, d, ds);
        ApplyingAdvances(p, d, ds);
        if AtLetter(d) && CurrentLetter(d).id in d.seen {
          assert CurrentLetter(d).id in h.stored;
        }
      }
    }
  }

  /** The cursor that comes with a response covers what it should once the letters are all on flash. */
  lemma TakeCursor(s: State, t: State)
    requires InboundInv(s) && AtCursor(s.dev)
    requires t.box == s.box && t.net == s.net && t.srv == s.srv
    requires Of(t.hist) == Ledger(s.hist.stored, Together(s.hist.excused, s.dev.applying.value.resp.excused))
    requires var c := s.dev.applying.value.resp.cursor;
             t.dev.cursor == c && t.dev.held in [c, s.dev.held]
    requires RingInv(t.dev, t.hist) && t.dev.applying.None?
    ensures InboundInv(t)
  {
    var resp := s.dev.applying.value.resp;
    assert Ids(resp.letters) <= s.hist.stored;
    assert With(Of(s.hist), resp) == Of(t.hist);
    assert Covered(t.box, Of(t.hist), resp.cursor);
    CoveredStays(s.box, Of(s.hist), t.box, Of(t.hist), s.dev.held);
    MessagesStay(s.box, Of(s.hist), t.box, Of(t.hist), s.net);
    WorkStays(s.box, Of(s.hist), t.box, Of(t.hist), s.srv.work);
  }

  lemma DeviceKeepsInbound(p: Params, s: State, ds: DeviceStep)
    requires InboundInv(s) && Enabled(p, s, Dev(ds))
    ensures InboundInv(Apply(p, s, Dev(ds)))
  {
    var t := Apply(p, s, Dev(ds));
    DeviceKeepsRing(p, s.dev, s.hist, s.net, ds);
    DeviceKeepsApplying(p, s.dev, s.hist, s.net, ds);
    if ds.SetCursor? || ds.CursorUnsure? {
      TakeCursor(s, t);
    } else {
      InboundStays(s, t);
    }
  }

  // ---------------------------------------------------------------- the server's steps

  lemma FetchAboveCovers(box: Mailbox, g: Ledger, floor: nat, raws: seq<Raw>)
    requires BoxInv(box) && IsFetchAbove(box.inbox, floor, FETCH_BATCH, raws)
    requires Covered(box, g, At(box.validity, floor))
    ensures FetchedInv(box, g, floor, raws)
  {
    forall u | u in box.inbox
      ensures || Accounted(box, g, u)
              || (exists i :: 0 <= i < |raws| && raws[i] == Raw(u, box.inbox[u]))
              || (u > floor && forall i :: 0 <= i < |raws| ==> raws[i].uid < u)
    {
      if Listed(raws, u) {
        var i :| 0 <= i < |raws| && raws[i].uid == u;
        assert raws[i] == Raw(u, box.inbox[u]);
      }
    }
  }

  lemma RecentCovers(box: Mailbox, g: Ledger, raws: seq<Raw>, window: int)
    requires BoxInv(box) && IsRecent(box.inbox, window, raws)
    ensures FetchedInv(box, Staged(g, box.validity, AgedBy(box, raws)), 0, raws)
  {
    var g' := Staged(g, box.validity, AgedBy(box, raws));
    forall u | u in box.inbox
      ensures || Accounted(box, g', u)
              || (exists i :: 0 <= i < |raws| && raws[i] == Raw(u, box.inbox[u]))
              || (u > 0 && forall i :: 0 <= i < |raws| ==> raws[i].uid < u)
    {
      if Listed(raws, u) {
        var i :| 0 <= i < |raws| && raws[i].uid == u;
        assert raws[i] == Raw(u, box.inbox[u]);
      } else {
        assert (box.validity, u) in g'.excused.aged;
      }
    }
  }

  lemma FetchKeepsInbound(p: Params, s: State, raws: seq<Raw>)
    requires InboundInv(s) && Enabled(p, s, Srv(Fetch(raws)))
    ensures InboundInv(Apply(p, s, Srv(Fetch(raws))))
  {
    var t := Apply(p, s, Srv(Fetch(raws)));
    var w := s.srv.work.value;
    var g := Of(s.hist);
    var b := Boundary(w.req.cursor, w.stage.validity);
    assert ProperRaws(raws);
    if w.stage.validity == s.box.validity {
      if b.Some? {
        FetchAboveCovers(s.box, g, b.value, raws);
        FetchedStays(s.box, g, s.box, Staged(g, s.box.validity, {}), b.value, raws);
      } else {
        var window :| IsRecent(s.box.inbox, window, raws);
        RecentCovers(s.box, g, raws, window);
      }
    }
    assert StageInv(t.box, g, t.srv.work.value.stage);
  }

  /** The minted cursor covers everything, given the letters and the excuses that ride with it. */
  lemma ResponseCovers(box: Mailbox, g: Ledger, st: Stage, outs: seq<Derived>, budget: int, r: Outcome, resp: Response)
    requires BoxInv(box) && st.Assembling? && StageInv(box, g, st)
    requires Derives(st.raws, outs) && Correct(st.raws, outs, budget, st.floor, st.capped, r) && r.Built?
    requires resp.letters == r.letters && resp.excused == LeftOutBy(st, outs, r.last)
    ensures Covered(box, With(g, resp), At(st.validity, r.last))
  {
    if st.validity == box.validity {
      CursorAdvances(st.raws, outs, budget, st.floor, st.capped, r);
      var staged := Staged(g, st.validity, st.aged);
      forall u | u in box.inbox && u <= r.last
        ensures Accounted(box, With(g, resp), u)
      {
        if Accounted(box, staged, u) {
          assert Accounted(box, With(g, resp), u);
        } else if exists i :: 0 <= i < |st.raws| && st.raws[i] == Raw(u, box.inbox[u]) {
          var i :| 0 <= i < |st.raws| && st.raws[i] == Raw(u, box.inbox[u]);
          CursorCoversTaken(st.raws, outs, budget, st.floor, st.capped, r, i);
          if outs[i].Unresolved? {
            assert (st.validity, u) in SkippedBy(st, outs, r.last);
          }
        }
      }
    }
  }

  lemma RespondedIdsProper(raws: seq<Raw>, outs: seq<Derived>, budget: int, floor: nat, capped: bool, r: Outcome)
    requires ProperRaws(raws) && Derives(raws, outs)
    requires Correct(raws, outs, budget, floor, capped, r) && r.Built?
    ensures ProperIds(r.letters)
  {
    var n: nat :| CorrectAt(raws, outs, budget, floor, capped, r, n);
    forall k | 0 <= k < |r.letters|
      ensures |r.letters[k].id.text| == LETTER_ID_CHARS
    {
      RenderedFrom(outs, n, r.letters[k]);
    }
  }

  lemma RespondKeepsInbound(p: Params, s: State, outs: seq<Derived>, budget: int, r: Outcome)
    requires InboundInv(s) && Enabled(p, s, Srv(Respond(outs, budget, r)))
    ensures InboundInv(Apply(p, s, Srv(Respond(outs, budget, r))))
  {
    var t := Apply(p, s, Srv(Respond(outs, budget, r)));
    var w := s.srv.work.value;
    var resp := Response(w.acks, r.letters, At(w.stage.validity, r.last), r.more, LeftOutBy(w.stage, outs, r.last));
    assert t.net.responses == s.net.responses + {resp};
    ResponseCovers(s.box, Of(s.hist), w.stage, outs, budget, r, resp);
    RespondedIdsProper(w.stage.raws, outs, budget, w.stage.floor, w.stage.capped, r);
    assert MessagesInv(t.box, Of(t.hist), t.net);
  }

  lemma ServerKeepsInbound(p: Params, s: State, ss: ServerStep)
    requires InboundInv(s) && Enabled(p, s, Srv(ss))
    ensures InboundInv(Apply(p, s, Srv(ss)))
  {
    if ss.Fetch? {
      FetchKeepsInbound(p, s, ss.raws);
    } else if ss.Respond? {
      RespondKeepsInbound(p, s, ss.outs, ss.budget, ss.result);
    }
  }

  lemma StepKeepsInbound(p: Params, s: State, st: Step)
    requires InboundInv(s) && Enabled(p, s, st)
    ensures InboundInv(Apply(p, s, st))
  {
    match st {
      case Dev(ds) => DeviceKeepsInbound(p, s, ds);
      case Ask(req) =>
      case Srv(ss) => ServerKeepsInbound(p, s, ss);
      case _ => InboundStays(s, Apply(p, s, st));
    }
  }

  lemma {:induction false} RunKeepsInbound(p: Params, s: State, steps: seq<Step>, t: State)
    requires InboundInv(s) && IsRun(p, s, steps, t)
    ensures InboundInv(t)
    decreases |steps|
  {
    if steps != [] {
      StepKeepsInbound(p, s, steps[0]);
      RunKeepsInbound(p, Apply(p, s, steps[0]), steps[1..], t);
    }
  }

  /**
   The main result: in every state of every run, each message of INBOX at or below the device's
   durable cursor (of the mailbox's current numbering) had its letter written to flash before, or
   is excused by a response whose own cursor the device took over: while that very response was
   built its sender resolved to nobody, or it lay outside the window of a resync.
   */
  lemma NoLetterSkipped(p: Params, s: State, t: State, u: nat)
    requires Init(s) && Reaches(p, s, t)
    requires t.dev.cursor.At? && t.dev.cursor.validity == t.box.validity
    requires u in t.box.inbox && u <= t.dev.cursor.uid
    ensures || t.box.inbox[u] in t.hist.stored
            || (t.box.validity, u) in t.hist.excused.strangers
            || (t.box.validity, u) in t.hist.excused.aged
  {
    var steps :| IsRun(p, s, steps, t);
    RunKeepsInbound(p, s, steps, t);
    assert Accounted(t.box, Of(t.hist), u);
  }
}
