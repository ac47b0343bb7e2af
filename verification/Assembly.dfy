/**
 Assembly of the letters of one sync response under the byte budget
 (internal/syncsvc/syncsvc.go, assembleLetters), and the drain loop built on it.
 */
module Assembly {
  import opened Basics

  type LetterId = Name

  datatype Letter = Letter(id: LetterId, text: string, size: nat)

  /** One message of INBOX: its UID and the letter id its headers hash to. */
  datatype Raw = Raw(uid: nat, id: LetterId)

  /** What derivation makes of one message. */
  datatype Derived = Rendered(letter: Letter) | Unresolved | Unparseable

  /** Stopped is the HTTP 500 of a message that fails before any letter was added. */
  datatype Outcome = Stopped | Built(letters: seq<Letter>, last: nat, more: bool)

  const FETCH_BATCH: nat := 32

  type Inbox = map<nat, LetterId>

  predicate Ascending(raws: seq<Raw>)
  {
    forall i, j :: 0 <= i < j < |raws| ==> raws[i].uid < raws[j].uid
  }

  predicate Listed(raws: seq<Raw>, uid: nat)
  {
    exists i :: 0 <= i < |raws| && raws[i].uid == uid
  }

  predicate From(box: Inbox, raws: seq<Raw>)
  {
    forall i :: 0 <= i < |raws| ==> raws[i].uid in box && box[raws[i].uid] == raws[i].id
  }

  /** Mailbox.FetchAbove: the lowest `max` messages strictly above `uid`, in UID order. */
  predicate IsFetchAbove(box: Inbox, uid: nat, max: nat, raws: seq<Raw>)
  {
    && Ascending(raws) && From(box, raws) && |raws| <= max
    && (forall i :: 0 <= i < |raws| ==> uid < raws[i].uid)
    && (forall u :: u in box && uid < u && !Listed(raws, u) ==>
          |raws| == max && forall i :: 0 <= i < |raws| ==> raws[i].uid < u)
  }

  /** Mailbox.Recent: the newest `n` messages, in UID order; none when `n` is not positive. */
  predicate IsRecent(box: Inbox, n: int, raws: seq<Raw>)
  {
    && Ascending(raws) && From(box, raws)
    && (|raws| < n ==> forall u :: u in box ==> Listed(raws, u))
    && (n <= 0 ==> raws == [])
    && (n > 0 ==> |raws| <= n)
    && (forall u, i :: u in box && !Listed(raws, u) && 0 <= i < |raws| ==> u < raws[i].uid)
  }

  function Total(letters: seq<Letter>): (t: nat)
  {
    if letters == [] then 0 else Total(letters[..|letters| - 1]) + letters[|letters| - 1].size
  }

  predicate Derives(raws: seq<Raw>, outs: seq<Derived>)
  {
    && |outs| == |raws|
    && forall i :: 0 <= i < |raws| && outs[i].Rendered? ==> outs[i].letter.id == raws[i].id
  }

  /** The letters rendered from the first `n` messages, in order. */
  function RenderedUpTo(outs: seq<Derived>, n: nat): (r: seq<Letter>)
    requires n <= |outs|
    ensures forall i :: 0 <= i < n && outs[i].Rendered? ==> outs[i].letter in r
  {
    if n == 0 then []
    else RenderedUpTo(outs, n - 1) + (if outs[n - 1].Rendered? then [outs[n - 1].letter] else [])
  }

  /** How many leading messages one response takes. */
  predicate Taken(outs: seq<Derived>, budget: int, n: nat)
  {
    && n <= |outs|
    && (forall i :: 0 <= i < n ==> !outs[i].Unparseable?)
    && (|RenderedUpTo(outs, n)| <= 1 || Total(RenderedUpTo(outs, n)) <= budget)
  }

  /**
   The response a sync must build: the longest run of leading messages that holds no
   unparseable one and whose letters fit the budget, one letter being always allowed.
   */
  ghost predicate Correct(raws: seq<Raw>, outs: seq<Derived>, budget: int, floor: nat, capped: bool, r: Outcome)
    requires |outs| == |raws|
  {
    exists n: nat :: CorrectAt(raws, outs, budget, floor, capped, r, n)
  }

  ghost predicate CorrectAt(raws: seq<Raw>, outs: seq<Derived>, budget: int, floor: nat, capped: bool, r: Outcome, n: nat)
    requires |outs| == |raws|
  {
    && Taken(outs, budget, n)
    && (forall m :: n < m <= |outs| ==> !Taken(outs, budget, m))
    && if n < |outs| && outs[n].Unparseable? && RenderedUpTo(outs, n) == [] then r == Stopped
       else r == Built(RenderedUpTo(outs, n), if n == 0 then floor else raws[n - 1].uid, n < |outs| || capped)
  }

  lemma {:induction false} RenderedGrows(outs: seq<Derived>, a: nat, b: nat)
    requires a <= b <= |outs|
    ensures |RenderedUpTo(outs, a)| <= |RenderedUpTo(outs, b)|
    ensures Total(RenderedUpTo(outs, a)) <= Total(RenderedUpTo(outs, b))
    decreases b - a
  {
    if a < b {
      RenderedGrows(outs, a, b - 1);
      var front := RenderedUpTo(outs, b - 1);
      var whole := RenderedUpTo(outs, b);
      if outs[b - 1].Rendered? {
        assert whole[..|whole| - 1] == front;
      } else {
        assert whole == front;
      }
    }
  }

  /** Once one more message does not fit, no longer run fits either. */
  lemma TakenIsPrefixClosed(outs: seq<Derived>, budget: int, n: nat)
    requires n < |outs| && !Taken(outs, budget, n + 1) && Taken(outs, budget, n)
    ensures forall m :: n < m <= |outs| ==> !Taken(outs, budget, m)
  {
    forall m | n < m <= |outs|
      ensures !Taken(outs, budget, m)
    {
      RenderedGrows(outs, n + 1, m);
    }
  }

  /** What adding one rendered message does to the letters taken so far. */
  lemma TakeRendered(outs: seq<Derived>, budget: int, n: nat)
    requires n < |outs| && Taken(outs, budget, n) && outs[n].Rendered?
    ensures RenderedUpTo(outs, n + 1) == RenderedUpTo(outs, n) + [outs[n].letter]
    ensures Total(RenderedUpTo(outs, n + 1)) == Total(RenderedUpTo(outs, n)) + outs[n].letter.size
    ensures Taken(outs, budget, n + 1) <==>
              RenderedUpTo(outs, n) == [] || Total(RenderedUpTo(outs, n)) + outs[n].letter.size <= budget
  {
    var front := RenderedUpTo(outs, n);
    assert (front + [outs[n].letter])[..|front|] == front;
  }

  /** syncsvc.go:439-535, the loop over the fetched messages. */
  method AssembleLetters(raws: seq<Raw>, outs: seq<Derived>, budgetBytes: int, floor: nat, capped: bool)
    returns (r: Outcome)
    requires |outs| == |raws|
    ensures Correct(raws, outs, budgetBytes, floor, capped, r)
  {
    var letters: seq<Letter> := [];
    var budget, last, delivered := budgetBytes, floor, 0;
    for i := 0 to |raws|
      invariant Taken(outs, budgetBytes, i)
      invariant letters == RenderedUpTo(outs, i)
      invariant delivered == |letters|
      invariant budget == budgetBytes - Total(letters)
      invariant last == if i == 0 then floor else raws[i - 1].uid
    {
      match outs[i]
      case Unresolved =>
        assert RenderedUpTo(outs, i + 1) == letters;
        last := raws[i].uid;
      case Unparseable =>
        TakenIsPrefixClosed(outs, budgetBytes, i);
        r := if delivered == 0 then Stopped else Built(letters, last, true);
        assert CorrectAt(raws, outs, budgetBytes, floor, capped, r, i);
        return;
      case Rendered(letter) =>
        TakeRendered(outs, budgetBytes, i);
        if delivered > 0 && budget - letter.size < 0 {
          TakenIsPrefixClosed(outs, budgetBytes, i);
          r := Built(letters, last, true);
          assert CorrectAt(raws, outs, budgetBytes, floor, capped, r, i);
          return;
        }
        budget := budget - letter.size;
        letters := letters + [letter];
        last := raws[i].uid;
        delivered := delivered + 1;
    }
    r := Built(letters, last, capped);
    assert CorrectAt(raws, outs, budgetBytes, floor, capped, r, |raws|);
  }

  /** The specification names one outcome: nothing about a response is left to chance. */
  lemma CorrectIsUnique(raws: seq<Raw>, outs: seq<Derived>, budget: int, floor: nat, capped: bool, a: Outcome, b: Outcome)
    requires |outs| == |raws|
    requires Correct(raws, outs, budget, floor, capped, a) && Correct(raws, outs, budget, floor, capped, b)
    ensures a == b
  {
    var n: nat :| CorrectAt(raws, outs, budget, floor, capped, a, n);
    var m: nat :| CorrectAt(raws, outs, budget, floor, capped, b, m);
    assert n == m;
  }

  lemma {:induction false} RenderedFrom(outs: seq<Derived>, n: nat, l: Letter)
    requires n <= |outs| && l in RenderedUpTo(outs, n)
    ensures exists i :: 0 <= i < n && outs[i] == Rendered(l)
  {
    if outs[n - 1] != Rendered(l) {
      RenderedFrom(outs, n - 1, l);
    }
  }

  /** Every message at or below the minted cursor was delivered or is a stranger's. */
  lemma CursorCoversTaken(raws: seq<Raw>, outs: seq<Derived>, budget: int, floor: nat, capped: bool, r: Outcome, i: nat)
    requires Derives(raws, outs) && Ascending(raws)
    requires Correct(raws, outs, budget, floor, capped, r) && r.Built?
    requires i < |raws| && floor < raws[i].uid <= r.last
    ensures outs[i].Unresolved? || exists k :: 0 <= k < |r.letters| && r.letters[k].id == raws[i].id
  {
    var n: nat :| CorrectAt(raws, outs, budget, floor, capped, r, n);
    assert n > 0;
    assert i < n;
    if !outs[i].Unresolved? {
      assert outs[i].letter in r.letters;
    }
  }

  /** The minted cursor never moves back, and stands on a fetched message or where it stood. */
  lemma CursorAdvances(raws: seq<Raw>, outs: seq<Derived>, budget: int, floor: nat, capped: bool, r: Outcome)
    requires Derives(raws, outs) && Ascending(raws) && forall i :: 0 <= i < |raws| ==> floor < raws[i].uid
    requires Correct(raws, outs, budget, floor, capped, r) && r.Built?
    ensures r.last == floor || Listed(raws, r.last)
    ensures floor <= r.last
  {
    var n: nat :| CorrectAt(raws, outs, budget, floor, capped, r, n);
    if n > 0 {
      assert raws[n - 1].uid == r.last;
    }
  }

  /** Two or more letters always fit the budget together; only a lone letter may exceed it. */
  lemma ManyLettersFitBudget(raws: seq<Raw>, outs: seq<Derived>, budget: int, floor: nat, capped: bool, r: Outcome)
    requires |outs| == |raws|
    requires Correct(raws, outs, budget, floor, capped, r) && r.Built? && |r.letters| >= 2
    ensures Total(r.letters) <= budget
  {
    var n: nat :| CorrectAt(raws, outs, budget, floor, capped, r, n);
  }

  /** Promising more always comes with a strictly larger cursor, on a message. */
  lemma MoreMeansProgress(box: Inbox, raws: seq<Raw>, outs: seq<Derived>, budget: int, floor: nat, capped: bool, r: Outcome)
    requires Derives(raws, outs) && From(box, raws) && Ascending(raws) && forall i :: 0 <= i < |raws| ==> floor < raws[i].uid
    requires capped ==> raws != []
    requires Correct(raws, outs, budget, floor, capped, r) && r.Built? && r.more
    ensures floor < r.last && r.last in box
  {
    var n: nat :| CorrectAt(raws, outs, budget, floor, capped, r, n);
    if n == 0 {
      assert Taken(outs, budget, 1) by {
        assert |RenderedUpTo(outs, 0)| == 0;
        assert |RenderedUpTo(outs, 1)| <= 1;
      }
    }
  }

  /** Not promising more means nothing was left above the new cursor when it was fetched. */
  lemma NoMoreMeansDrained(box: Inbox, raws: seq<Raw>, outs: seq<Derived>, budget: int, floor: nat, r: Outcome, u: nat)
    requires Derives(raws, outs) && IsFetchAbove(box, floor, FETCH_BATCH, raws)
    requires Correct(raws, outs, budget, floor, |raws| == FETCH_BATCH, r) && r.Built? && !r.more
    requires u in box
    ensures u <= r.last
  {
    var n: nat :| CorrectAt(raws, outs, budget, floor, |raws| == FETCH_BATCH, r, n);
    if u > floor {
      assert Listed(raws, u);
      var i :| 0 <= i < |raws| && raws[i].uid == u;
      assert raws[i].uid <= raws[|raws| - 1].uid;
    }
  }

  /**
   The same promise for a window resync, which starts from no cursor: it is kept exactly
   when the configured window is positive or INBOX is empty.
   */
  lemma ResyncDrainedIffWindowPositive(box: Inbox, raws: seq<Raw>, outs: seq<Derived>, budget: int, window: int, r: Outcome)
    requires Derives(raws, outs) && IsRecent(box, window, raws) && 0 !in box
    requires Correct(raws, outs, budget, 0, false, r) && r.Built? && !r.more
    ensures (forall u :: u in box ==> u <= r.last) <==> (window > 0 || box == map[])
  {
    var n: nat :| CorrectAt(raws, outs, budget, 0, false, r, n);
    assert n == |raws|;
    if window > 0 {
      forall u | u in box
        ensures u <= r.last
      {
        if Listed(raws, u) {
          var i :| 0 <= i < |raws| && raws[i].uid == u;
          assert raws[i].uid <= raws[|raws| - 1].uid;
        } else {
          assert |raws| >= window;
          assert u < raws[|raws| - 1].uid;
        }
      }
    } else if box != map[] {
      var u :| u in box;
      assert r.last == 0 && u > r.last;
    }
  }

  // ---------------------------------------------------------------- draining a fixed mailbox

  /** The messages a cursor has not passed. */
  ghost function Above(box: Inbox, uid: nat): (s: set<nat>)
  {
    set u | u in box && uid < u
  }

  /** One round over a mailbox that does not change: from a concrete cursor, or a window resync from none. */
  ghost predicate Round(box: Inbox, start: Option<nat>, r: Outcome)
  {
    exists raws, outs, budget, window :: RoundOf(box, start, r, raws, outs, budget, window)
  }

  ghost predicate RoundOf(box: Inbox, start: Option<nat>, r: Outcome, raws: seq<Raw>, outs: seq<Derived>, budget: int, window: int)
  {
    && Derives(raws, outs)
    && match start
       case Some(floor) =>
         IsFetchAbove(box, floor, FETCH_BATCH, raws) && Correct(raws, outs, budget, floor, |raws| == FETCH_BATCH, r)
       case None => IsRecent(box, window, raws) && Correct(raws, outs, budget, 0, false, r)
  }

  function Floor(start: Option<nat>): nat
  {
    if start.Some? then start.value else 0
  }

  /** Successive rounds of one drain: each starts at the cursor the one before minted. */
  ghost predicate Rounds(box: Inbox, start: Option<nat>, rs: seq<Outcome>)
    decreases |rs|
  {
    rs == [] ||
    (&& Round(box, start, rs[0])
     && (|rs| > 1 ==> rs[0].Built? && rs[0].more && Rounds(box, Some(rs[0].last), rs[1..])))
  }

  lemma FromRecent(box: Inbox, window: int, raws: seq<Raw>)
    requires IsRecent(box, window, raws) && 0 !in box
    ensures forall i :: 0 <= i < |raws| ==> 0 < raws[i].uid
  {
  }

  lemma RoundShrinks(box: Inbox, start: Option<nat>, r: Outcome)
    requires Round(box, start, r) && r.Built? && r.more && (start.Some? || 0 !in box)
    ensures Above(box, r.last) < Above(box, Floor(start))
  {
    var raws, outs, budget, window :| RoundOf(box, start, r, raws, outs, budget, window);
    if start.None? {
      FromRecent(box, window, raws);
    }
    MoreMeansProgress(box, raws, outs, budget, Floor(start), start.Some? && |raws| == FETCH_BATCH, r);
    assert r.last in Above(box, Floor(start)) && r.last !in Above(box, r.last);
  }

  lemma LastRoundDrains(box: Inbox, floor: nat, r: Outcome)
    requires Round(box, Some(floor), r) && r.Built? && !r.more
    ensures Above(box, r.last) == {}
  {
    var raws, outs, budget, window :| RoundOf(box, Some(floor), r, raws, outs, budget, window);
    forall u | u in Above(box, r.last)
      ensures false
    {
      NoMoreMeansDrained(box, raws, outs, budget, floor, r, u);
    }
  }

  lemma {:induction false} SubsetSmaller<T>(a: set<T>, b: set<T>)
    requires a < b
    ensures |a| < |b|
    decreases b
  {
    var x :| x in b && x !in a;
    assert a <= b - {x};
    SubsetNoLarger(a, b - {x});
  }

  lemma {:induction false} SubsetNoLarger<T>(a: set<T>, b: set<T>)
    requires a <= b
    ensures |a| <= |b|
    decreases a
  {
    if a != {} {
      var x :| x in a;
      SubsetNoLarger(a - {x}, b - {x});
    }
  }

  /** The rounds after the first all start at a cursor, so the last of them leaves nothing above it. */
  lemma {:induction false} DrainIsComplete(box: Inbox, floor: nat, rs: seq<Outcome>)
    requires Rounds(box, Some(floor), rs) && rs != []
    requires rs[|rs| - 1].Built? && !rs[|rs| - 1].more
    ensures Above(box, rs[|rs| - 1].last) == {}
    decreases |rs|
  {
    if |rs| == 1 {
      LastRoundDrains(box, floor, rs[0]);
    } else {
      DrainIsComplete(box, rs[0].last, rs[1..]);
    }
  }

  /**
   A drain of a fixed mailbox ends, whether it starts at a cursor or with a window resync: at most
   one round for every message above its cursor, and one more.
   */
  lemma {:induction false} DrainEnds(box: Inbox, start: Option<nat>, rs: seq<Outcome>)
    requires Rounds(box, start, rs) && (start.Some? || 0 !in box)
    ensures |rs| <= |Above(box, Floor(start))| + 1
    decreases |rs|
  {
    if |rs| > 1 {
      RoundShrinks(box, start, rs[0]);
      SubsetSmaller(Above(box, rs[0].last), Above(box, Floor(start)));
      DrainEnds(box, Some(rs[0].last), rs[1..]);
    }
  }

  // ---------------------------------------------------------------- every window has an answer

  lemma HighestUid(box: Inbox) returns (u: nat)
    requires box != map[]
    ensures u in box && forall v :: v in box ==> v <= u
    decreases box.Keys
  {
    u :| u in box;
    var rest := map v | v in box && v > u :: box[v];
    assert forall v :: v in box && v > u ==> v in rest;
    if rest != map[] {
      assert u !in rest && rest.Keys < box.Keys;
      u := HighestUid(rest);
    }
  }

  /** Some list of messages is the newest `n` of INBOX, whatever `n` is. */
  lemma {:induction false} RecentOf(box: Inbox, n: int) returns (raws: seq<Raw>)
    ensures IsRecent(box, n, raws)
    decreases box.Keys
  {
    raws := [];
    if n > 0 && box != map[] {
      var u := HighestUid(box);
      var older := box - {u};
      var rest := RecentOf(older, n - 1);
      raws := rest + [Raw(u, box[u])];
      NewestOnTop(box, n, u, rest);
    }
  }

  lemma NewestOnTop(box: Inbox, n: int, u: nat, rest: seq<Raw>)
    requires n > 0 && u in box && (forall v :: v in box ==> v <= u) && IsRecent(box - {u}, n - 1, rest)
    ensures IsRecent(box, n, rest + [Raw(u, box[u])])
  {
    var raws := rest + [Raw(u, box[u])];
    assert raws[|rest|].uid == u;
    assert forall i :: 0 <= i < |rest| ==> raws[i] == rest[i];
    assert forall v :: Listed(rest, v) ==> Listed(raws, v) by {
      forall v | Listed(rest, v)
        ensures Listed(raws, v)
      {
        var i :| 0 <= i < |rest| && rest[i].uid == v;
        assert raws[i].uid == v;
      }
    }
  }

  /** When every message is a stranger's, the response has no letter and the cursor of the last one. */
  lemma AllStrangers(raws: seq<Raw>, outs: seq<Derived>, last: nat)
    requires |outs| == |raws| && forall i :: 0 <= i < |outs| ==> outs[i].Unresolved?
    requires last == if raws == [] then 0 else raws[|raws| - 1].uid
    ensures Derives(raws, outs) && Correct(raws, outs, 0, 0, false, Built([], last, false))
  {
    NoneRendered(outs, |outs|);
    assert CorrectAt(raws, outs, 0, 0, false, Built([], last, false), |raws|);
  }

  lemma {:induction false} NoneRendered(outs: seq<Derived>, n: nat)
    requires n <= |outs| && forall i :: 0 <= i < n ==> outs[i].Unresolved?
    ensures RenderedUpTo(outs, n) == []
  {
    if n > 0 {
      NoneRendered(outs, n - 1);
    }
  }
}
