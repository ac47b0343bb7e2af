/**
 The device's seen ring: an append log on flash, compacted now and then, standing for a bounded
 queue of letter ids (firmware/chaski/components/store/store.cpp, FileSeenRing).
 */
module SeenRing {
  import opened Basics
  import opened Records

  /** A name that may become a file or a line (fsutil.cpp:160-169). */
  predicate NameIsSafe(name: string)
  {
    && 0 < |name| <= 64 && name[0] != '.'
    && forall i :: 0 <= i < |name| ==>
         'a' <= name[i] <= 'z' || 'A' <= name[i] <= 'Z' || '0' <= name[i] <= '9' || name[i] in "-_."
  }

  predicate Distinct<T(==)>(s: seq<T>)
  {
    forall i, j :: 0 <= i < j < |s| ==> s[i] != s[j]
  }

  /** What a reload keeps of some lines: each non-empty one, at its first occurrence. */
  function Kept(lines: seq<Name>): (r: seq<Name>)
    ensures Distinct(r) && |r| <= |lines|
    ensures forall x :: x in r <==> x in lines && x != Name("")
  {
    if lines == [] then []
    else
      var front, last := Kept(lines[..|lines| - 1]), lines[|lines| - 1];
      assert forall x :: x in lines <==> x in lines[..|lines| - 1] || x == last;
      if last == Name("") || last in front then front else front + [last]
  }

  /** Lines that are distinct and not empty are kept as they are. */
  lemma {:induction false} KeptOfProper(lines: seq<Name>)
    requires Proper(lines)
    ensures Kept(lines) == lines
  {
    if lines != [] {
      var front, last := lines[..|lines| - 1], lines[|lines| - 1];
      assert lines == front + [last];
      assert last !in front;
      KeptOfProper(front);
    }
  }

  predicate Proper(ring: seq<Name>)
  {
    Distinct(ring) && Name("") !in ring
  }

  /** The queue the ring stands for: a known id changes nothing, a new one enters and the oldest leaves. */
  function Enqueue<T(==)>(queue: seq<T>, id: T, capacity: nat): (r: seq<T>)
    ensures |queue| <= capacity ==> |r| <= capacity
    ensures Distinct(queue) ==> Distinct(r)
    ensures capacity > 0 ==> id in r
  {
    if id in queue then queue
    else
      var grown := queue + [id];
      var r := LastN(grown, capacity);
      assert capacity > 0 ==> r[|r| - 1] == id;
      r
  }

  lemma PushAndPop<T>(queue: seq<T>, id: T, capacity: nat)
    requires |queue| <= capacity && capacity > 0 && id !in queue
    ensures var grown := queue + [id];
            (if |grown| > capacity then grown[1..] else grown) == Enqueue(queue, id, capacity) == LastN(grown, capacity)
  {
  }

  lemma PushedRing(ring: seq<Name>, id: Name, capacity: nat)
    requires Proper(ring) && id !in ring && id != Name("")
    ensures Proper(LastN(ring + [id], capacity))
  {
    GrownRing(ring, id);
    SuffixIsProper(ring + [id], LastN(ring + [id], capacity));
  }

  lemma GrownRing(ring: seq<Name>, id: Name)
    requires Proper(ring) && id !in ring && id != Name("")
    ensures Proper(ring + [id])
  {
  }

  lemma SuffixIsProper(ring: seq<Name>, r: seq<Name>)
    requires Proper(ring) && |r| <= |ring| && r == ring[|ring| - |r|..]
    ensures Proper(r)
  {
    SuffixIsDistinct(ring, r);
  }

  lemma SuffixIsDistinct<T>(ring: seq<T>, r: seq<T>)
    requires Distinct(ring) && |r| <= |ring| && r == ring[|ring| - |r|..]
    ensures Distinct(r)
  {
    var d := |ring| - |r|;
    forall i, j | 0 <= i < j < |r|
      ensures r[i] != r[j]
    {
      assert r[i] == ring[d + i] && r[j] == ring[d + j];
    }
  }

  /** store.cpp:453-457: the loop of Load. */
  method LoadLines(recent: seq<Name>) returns (loaded: seq<Name>)
    ensures loaded == Kept(recent)
  {
    loaded := [];
    for i := 0 to |recent|
      invariant loaded == Kept(recent[..i])
    {
      assert recent[..i + 1][..i] == recent[..i];
      if recent[i] != Name("") && recent[i] !in loaded {
        loaded := loaded + [recent[i]];
      }
    }
    assert recent[..|recent|] == recent;
  }

  /** After a landed add the newest lines are RAM's ring, or the old ones with the merged line pushed. */
  lemma LandedRecent(lines0: seq<Name>, torn0: string, id: Name, ring0: seq<Name>, capacity: nat,
                     ring: seq<Name>, lines: seq<Name>, torn: string)
    requires |ring| <= capacity && ring == LastN(ring0 + [id], capacity)
    requires Landed(lines0, torn0, id, ring, lines, torn)
    ensures LastN(lines, capacity) == ring
            || LastN(lines, capacity) == LastN(LastN(lines0, capacity) + [Name(torn0 + id.text)], capacity)
    ensures torn0 == "" && ring0 == LastN(lines0, capacity) ==> LastN(lines, capacity) == ring
  {
    LastNPush(lines0, Name(torn0 + id.text), capacity);
    if torn0 == "" {
      assert torn0 + id.text == id.text;
    }
  }

  /** All of an add is in the file: the line, merged with what a torn append left, or RAM's whole copy. */
  predicate Landed(lines0: seq<Name>, torn0: string, id: Name, ring: seq<Name>, lines: seq<Name>, torn: string)
  {
    torn == "" && (lines == ring || lines == lines0 + [Name(torn0 + id.text)])
  }

  /** Some of it is: no line, but perhaps the beginning of one. */
  predicate Begun(lines0: seq<Name>, torn0: string, id: Name, lines: seq<Name>, torn: string)
  {
    lines == lines0 && torn0 <= torn <= torn0 + id.text
  }

  /**
   The file is its complete lines and what a torn append left behind them; see
   `FileIsLinesAndTail` for why this says all there is to say about its bytes.
   */
  class FileSeenRing {
    const capacity: nat
    var lines: seq<Name>      // flash: complete lines
    var torn: string          // flash: the bytes behind the last newline
    var ring: seq<Name>       // RAM
    var linesOnDisk: nat      // RAM

    function Slack(): nat { capacity / 8 }

    /** What holds in any case, torn tail or not. */
    ghost predicate Sound()
      reads this
    {
      capacity > 0 && |ring| <= capacity && Proper(ring)
    }

    /** The newest lines of the file: what the next boot will look at. */
    ghost function Recent(): seq<Name>
      reads this
    {
      LastN(lines, capacity)
    }

    /** No torn tail, and RAM is the newest `capacity` lines of the file. */
    ghost predicate Valid()
      reads this
    {
      && Sound()
      && torn == ""
      && linesOnDisk == |lines| <= capacity + Slack()
      && ring == Recent()
    }

    /** With no torn append, a boot rebuilds exactly the ring in RAM. */
    lemma ReloadIsRing()
      requires Valid()
      ensures Kept(Recent()) == ring
    {
      KeptOfProper(ring);
    }

    /** store.cpp:461-470. The count of lines is RAM's, so it follows only a write reported as done. */
    method Compact(fate: Fate) returns (ok: bool)
      modifies this`lines, this`torn, this`linesOnDisk
      ensures ok == fate.Done?
      ensures fate != Failed(false) ==> lines == ring && torn == ""
      ensures fate == Failed(false) ==> lines == old(lines) && torn == old(torn)
      ensures linesOnDisk == if ok then |ring| else old(linesOnDisk)
    {
      if fate != Failed(false) {
        lines := ring;
        torn := "";
      }
      if fate.Done? {
        linesOnDisk := |ring|;
      }
      return fate.Done?;
    }

    /** fsutil.cpp:91-100: a failed append leaves the first `left` bytes of the line, which may be all. */
    method Append(id: Name, ok: bool, left: nat)
      modifies this`lines, this`torn
      ensures ok ==> lines == old(lines) + [Name(old(torn) + id.text)] && torn == ""
      ensures !ok ==> if left > |id.text| then lines == old(lines) + [Name(old(torn) + id.text)] && torn == ""
                      else lines == old(lines) && torn == old(torn) + id.text[..left]
      ensures FileText(lines, torn)
              == old(FileText(lines, torn)) + if ok || left > |id.text| then id.text + "\n" else id.text[..left]
    {
      if ok || left > |id.text| {
        AppendIsMerge(lines, torn, id);
        Regroup(FileText(lines, torn), id.text, "\n");
        lines := lines + [Name(torn + id.text)];
        torn := "";
      } else {
        TailGrows(lines, torn, id.text[..left]);
        torn := torn + id.text[..left];
      }
    }

    /** The file half of an add (store.cpp:434-437): append, or rewrite once past the slack. */
    method Persist(id: Name, writes: bool, left: nat) returns (ok: bool)
      requires Sound()
      modifies this`lines, this`torn, this`linesOnDisk
      ensures ok == writes
      ensures Landed(old(lines), old(torn), id, ring, lines, torn) || (!ok && Begun(old(lines), old(torn), id, lines, torn))
      ensures !ok && left == 0 ==> lines == old(lines) && torn == old(torn)
      ensures !ok ==> linesOnDisk == old(linesOnDisk)
      ensures ok && old(linesOnDisk == |lines| <= capacity + Slack()) ==> linesOnDisk == |lines| <= capacity + Slack()
    {
      if linesOnDisk + 1 > capacity + Slack() {
        ok := Compact(if writes then Done else Failed(left > 0));
        return;
      }
      Append(id, writes, left);
      if writes {
        linesOnDisk := linesOnDisk + 1;
      }
      return writes;
    }

    /** The RAM half (store.cpp:432-433). */
    method Push(id: Name)
      requires Sound() && id !in ring && id != Name("")
      modifies this`ring
      ensures Sound() && ring == LastN(old(ring) + [id], capacity) == Enqueue(old(ring), id, capacity)
    {
      PushedRing(ring, id, capacity);
      PushAndPop(ring, id, capacity);
      ring := ring + [id];
      if |ring| > capacity {
        ring := ring[1..];
      }
    }

    /**
     store.cpp:429-438. A refused write leaves RAM ahead of the file, and perhaps part of a line
     behind; an append behind such a tail becomes one merged line, as in the source.
     */
    method Add(id: Name, writes: bool, left: nat) returns (ok: bool)
      requires Sound()
      modifies this
      ensures Sound() && (old(Valid()) && ok ==> Valid())
      ensures !NameIsSafe(id.text) ==> !ok && ring == old(ring)
      ensures NameIsSafe(id.text) ==> ok == (writes || id in old(ring)) && ring == Enqueue(old(ring), id, capacity)
      ensures !NameIsSafe(id.text) || id in old(ring) ==> lines == old(lines) && torn == old(torn)
      ensures NameIsSafe(id.text) && id !in old(ring) ==>
                || Landed(old(lines), old(torn), id, ring, lines, torn)
                || (!ok && Begun(old(lines), old(torn), id, lines, torn))
      ensures !ok && left == 0 ==> lines == old(lines) && torn == old(torn)
    {
      if !NameIsSafe(id.text) {
        return false;
      }
      if id in ring {
        return true;
      }
      Push(id);
      ok := Persist(id, writes, left);
      if ok {
        LandedRecent(old(lines), old(torn), id, old(ring), capacity, ring, lines, torn);
      }
    }

    /** store.cpp:445-459: boot. The compaction at the end may be refused without harm. */
    constructor (lines: seq<Name>, torn: string, capacity: nat, writes: bool)
      requires capacity > 0
      ensures this.capacity == capacity && Sound()
      ensures ring == Kept(LastN(lines, capacity)) == Kept(Recent())
      ensures |lines| <= capacity + capacity / 8 ==> this.lines == lines && this.torn == torn
      ensures writes || |lines| <= capacity + capacity / 8 ==> linesOnDisk == |this.lines| <= capacity + capacity / 8
    {
      this.capacity := capacity;
      this.lines := lines;
      this.torn := torn;
      var recent := LastN(lines, capacity);
      var loaded := LoadLines(recent);
      this.ring := loaded;
      this.linesOnDisk := |lines|;
      new;
      if linesOnDisk > capacity + Slack() {
        var ok := Compact(if writes then Done else Failed(false));
        KeptOfProper(ring);
      }
    }
  }

  // ---------------------------------------------------------------- many adds

  function EnqueueAll<T(==)>(queue: seq<T>, ids: seq<T>, capacity: nat): (r: seq<T>)
  {
    if ids == [] then queue else Enqueue(EnqueueAll(queue, ids[..|ids| - 1], capacity), ids[|ids| - 1], capacity)
  }

  /** Any sequence of adds: file, RAM and queue agree, and the file stays short. */
  method AddAll(r: FileSeenRing, ids: seq<Name>)
    requires r.Valid() && forall i :: 0 <= i < |ids| ==> NameIsSafe(ids[i].text)
    modifies r
    ensures r.Valid() && r.ring == EnqueueAll(old(r.ring), ids, r.capacity)
    ensures Kept(r.Recent()) == r.ring
    ensures |r.lines| <= r.capacity + r.capacity / 8
    decreases |ids|
  {
    if ids != [] {
      AddAll(r, ids[..|ids| - 1]);
      var ok := r.Add(ids[|ids| - 1], true, 0);
    }
    r.ReloadIsRing();
  }

  lemma NotInLastN<T>(s: seq<T>, x: T, n: nat)
    requires x !in s
    ensures x !in LastN(s, n)
  {
    var r := LastN(s, n);
    assert forall k :: 0 <= k < |r| ==> r[k] == s[k + |s| - |r|];
  }

  lemma EnqueueNew<T>(history: seq<T>, id: T, capacity: nat)
    requires id !in LastN(history, capacity)
    ensures Enqueue(LastN(history, capacity), id, capacity) == LastN(history + [id], capacity)
  {
    LastNPush(history, id, capacity);
  }

  lemma EnqueueAllPush<T>(queue: seq<T>, ids: seq<T>, id: T, capacity: nat)
    ensures EnqueueAll(queue, ids + [id], capacity) == Enqueue(EnqueueAll(queue, ids, capacity), id, capacity)
  {
    assert (ids + [id])[..|ids|] == ids;
  }

  lemma EnqueueNext<T>(front: seq<T>, last: T, capacity: nat)
    requires last !in front && EnqueueAll([], front, capacity) == LastN(front, capacity)
    ensures EnqueueAll([], front + [last], capacity) == LastN(front + [last], capacity)
  {
    NotInLastN(front, last, capacity);
    EnqueueNew(front, last, capacity);
    EnqueueAllPush([], front, last, capacity);
  }

  lemma LastIsNew<T>(front: seq<T>, last: T)
    requires Distinct(front + [last])
    ensures Distinct(front) && last !in front
  {
    var ids := front + [last];
    assert ids[|front|] == last;
    assert forall i :: 0 <= i < |front| ==> ids[i] == front[i];
  }

  /** A fresh queue of distinct ids keeps exactly the newest `capacity` of them, in order. */
  lemma {:induction false} EnqueueAllDistinct<T>(ids: seq<T>, capacity: nat)
    requires capacity > 0 && Distinct(ids)
    ensures EnqueueAll([], ids, capacity) == LastN(ids, capacity)
  {
    if ids != [] {
      var front, last := ids[..|ids| - 1], ids[|ids| - 1];
      assert front + [last] == ids;
      LastIsNew(front, last);
      EnqueueAllDistinct(front, capacity);
      EnqueueNext(front, last, capacity);
    }
  }

  // ---------------------------------------------------------------- a torn append

  /** If `y` was not among the newest lines, it is only if it is the line just added. */
  lemma OnlyTheNewest<T>(lines: seq<T>, added: T, y: T, capacity: nat)
    requires capacity > 0 && y !in LastN(lines, capacity)
    ensures y in LastN(lines + [added], capacity) <==> added == y
  {
    var before, after := LastN(lines, capacity), LastN(lines + [added], capacity);
    assert after[|after| - 1] == added;
    assert forall i :: 0 <= i < |after| - 1 ==> after[i] == before[i + |before| - (|after| - 1)];
  }

  /**
   Power fails inside the append of `x` with `k` of its characters on flash, newline not among
   them; the device boots and appends `y`. A later boot finds `y` exactly when the first append
   left nothing at all.
   */
  lemma TornAppendHarmlessIff(lines: seq<Name>, x: Name, k: nat, y: Name, capacity: nat)
    requires capacity > 0 && k <= |x.text| && NameIsSafe(y.text)
    requires y !in LastN(lines, capacity)
    ensures y in Kept(LastN(lines + [Name(x.text[..k] + y.text)], capacity)) <==> k == 0
  {
    var merged := Name(x.text[..k] + y.text);
    assert |merged.text| == k + |y.text|;
    if k == 0 {
      assert merged.text == y.text;
    }
    OnlyTheNewest(lines, merged, y, capacity);
  }

  // ---------------------------------------------------------------- bytes

  function Texts(lines: seq<Name>): (r: seq<string>)
    ensures |r| == |lines| && forall i :: 0 <= i < |r| ==> r[i] == lines[i].text
  {
    seq(|lines|, i requires 0 <= i < |lines| => lines[i].text)
  }

  /** The bytes of the file: one line each, then the torn tail. */
  function FileText(lines: seq<Name>, torn: string): string
  {
    if lines == [] then torn else lines[0].text + "\n" + FileText(lines[1..], torn)
  }

  /** Reading those bytes back gives the complete lines and leaves the torn tail out. */
  lemma {:induction false} FileIsLinesAndTail(lines: seq<Name>, torn: string)
    requires NoNewline(torn) && forall i :: 0 <= i < |lines| ==> NoNewline(lines[i].text)
    ensures Lines(FileText(lines, torn)) == Texts(lines) && Tail(FileText(lines, torn)) == torn
  {
    if lines == [] {
      NoNewlineNoLines(torn);
    } else {
      FileIsLinesAndTail(lines[1..], torn);
      LinesCons(lines[0].text, FileText(lines[1..], torn));
      assert Texts(lines) == [lines[0].text] + Texts(lines[1..]);
    }
  }

  lemma {:induction false} TailGrows(lines: seq<Name>, torn: string, x: string)
    ensures FileText(lines, torn + x) == FileText(lines, torn) + x
  {
    if lines != [] {
      TailGrows(lines[1..], torn, x);
      Regroup(lines[0].text + "\n", FileText(lines[1..], torn), x);
    }
  }

  function Named(texts: seq<string>): (r: seq<Name>)
    ensures |r| == |texts| && forall i :: 0 <= i < |r| ==> r[i] == Name(texts[i])
  {
    seq(|texts|, i requires 0 <= i < |texts| => Name(texts[i]))
  }

  lemma {:induction false} FileIsJoined(lines: seq<Name>)
    ensures FileText(lines, "") == Joined(Texts(lines))
  {
    if lines != [] {
      var front, last := lines[..|lines| - 1], lines[|lines| - 1];
      FileIsJoined(front);
      AppendIsMerge(front, "", last);
      assert Name("" + last.text) == last && front + [last] == lines;
      assert Texts(lines)[..|front|] == Texts(front);
    }
  }

  /** And whatever bytes the file holds are some lines and a torn tail: the two say it all. */
  lemma EveryFileIsLinesAndTail(text: string)
    ensures FileText(Named(Lines(text)), Tail(text)) == text
  {
    var lines := Named(Lines(text));
    assert Texts(lines) == Lines(text);
    FileIsJoined(lines);
    TailGrows(lines, "", Tail(text));
    assert "" + Tail(text) == Tail(text);
    LinesAndTail(text);
  }

  lemma Regroup(a: string, b: string, c: string)
    ensures a + b + c == a + (b + c)
  {
  }

  /** Appending a line's bytes to the file's bytes is the append of the model. */
  lemma {:induction false} AppendIsMerge(lines: seq<Name>, torn: string, id: Name)
    ensures FileText(lines, torn) + id.text + "\n" == FileText(lines + [Name(torn + id.text)], "")
  {
    var merged := Name(torn + id.text);
    if lines == [] {
      assert lines + [merged] == [merged] && [merged][1..] == [];
      assert FileText([merged], "") == merged.text + "\n" + FileText([merged][1..], "");
    } else {
      AppendIsMerge(lines[1..], torn, id);
      assert (lines + [merged])[1..] == lines[1..] + [merged];
      var head, rest := lines[0].text + "\n", FileText(lines[1..], torn);
      assert (head + rest) + id.text + "\n" == head + (rest + id.text + "\n");
    }
  }
}
