/**
 The device's letter files and the RAM index over them
 (firmware/chaski/components/store/store.cpp, FileLetterStore).
 */
module LetterStore {
  import opened Basics
  import opened Records
  import opened Decimal
  import opened SeenRing

  datatype WireLetter = WireLetter(
    id: string, contactId: string, subject: string, date: int,
    trimmed: bool, truncated: bool, degraded: bool, body: string)

  datatype StoredLetter = StoredLetter(letter: WireLetter, unread: bool)

  // ---------------------------------------------------------------- one file

  /** store.cpp:63-76: the body goes last. */
  function LetterRecord(l: WireLetter, unread: bool): Record
  {
    [ Pair("id", l.id),
      Pair("contact_id", l.contactId),
      Pair("subject", l.subject),
      Pair("date", SignedText(l.date)),
      Pair("trimmed", Bit(l.trimmed)),
      Pair("truncated", Bit(l.truncated)),
      Pair("degraded", Bit(l.degraded)),
      Pair("unread", Bit(unread)),
      Pair("body", l.body) ]
  }

  function EncodeLetter(l: WireLetter, unread: bool): string
  {
    Encode(LetterRecord(l, unread))
  }

  function GetOr(r: Record, key: string, default: string): string
  {
    match Get(r, key) case Some(v) => v case None => default
  }

  function ReadI64(r: Record, key: string, default: int): int
  {
    match Get(r, key)
    case Some(v) => (match ParseI64(v) case Some(n) => n case None => default)
    case None => default
  }

  function ReadBool(r: Record, key: string, default: bool): bool
  {
    match Get(r, key) case Some(v) => if v == "1" then true else if v == "0" then false else default case None => default
  }

  /** store.cpp:78-92: only the id is required; anything else unreadable keeps its default. */
  function LetterOf(r: Record): Option<StoredLetter>
  {
    match Get(r, "id")
    case None => None
    case Some(id) =>
      if id == "" then None
      else Some(StoredLetter(
                  WireLetter(id, GetOr(r, "contact_id", ""), GetOr(r, "subject", ""), ReadI64(r, "date", 0),
                             ReadBool(r, "trimmed", false), ReadBool(r, "truncated", false),
                             ReadBool(r, "degraded", false), GetOr(r, "body", "")),
                  ReadBool(r, "unread", true)))
  }

  function DecodeLetter(text: string): Option<StoredLetter>
  {
    LetterOf(Decode(text))
  }

  predicate Dated(l: WireLetter)
  {
    -(MAX_I64 as int) - 1 <= l.date <= MAX_I64
  }

  lemma LetterKeysClean(l: WireLetter, unread: bool)
    ensures CleanKeys(LetterRecord(l, unread))
  {
    assert CleanKey("id") && CleanKey("contact_id") && CleanKey("subject") && CleanKey("date") && CleanKey("trimmed");
    assert CleanKey("truncated") && CleanKey("degraded") && CleanKey("unread") && CleanKey("body");
  }

  /** Where a key stands first, a lookup finds it. */
  lemma {:induction false} GetAt(r: Record, i: nat)
    requires i < |r| && forall j :: 0 <= j < i ==> r[j].key != r[i].key
    ensures Get(r, r[i].key) == Some(r[i].value)
    decreases i
  {
    if i > 0 {
      GetAt(r[1..], i - 1);
    }
  }

  /** No two fields of a letter share a key: they differ in length or in their first letter. */
  lemma LetterKeysDistinct(l: WireLetter, unread: bool, i: nat, j: nat)
    requires j < i < 9
    ensures LetterRecord(l, unread)[j].key != LetterRecord(l, unread)[i].key
  {
    var r := LetterRecord(l, unread);
    assert |r[0].key| == 2 && |r[1].key| == 10 && |r[2].key| == 7 && |r[3].key| == 4 && |r[4].key| == 7;
    assert |r[5].key| == 9 && |r[6].key| == 8 && |r[7].key| == 6 && |r[8].key| == 4;
    assert r[2].key[0] == 's' && r[4].key[0] == 't' && r[3].key[0] == 'd' && r[8].key[0] == 'b';
  }

  lemma LetterGets(l: WireLetter, unread: bool, i: nat)
    requires i < 9
    ensures var r := LetterRecord(l, unread); Get(r, r[i].key) == Some(r[i].value)
  {
    var r := LetterRecord(l, unread);
    forall j | 0 <= j < i
      ensures r[j].key != r[i].key
    {
      LetterKeysDistinct(l, unread, i, j);
    }
    GetAt(r, i);
  }

  /** A letter and its flag survive their file, whatever the texts hold. */
  lemma LetterRoundTrip(l: WireLetter, unread: bool)
    requires l.id != "" && Dated(l)
    ensures DecodeLetter(EncodeLetter(l, unread)) == Some(StoredLetter(l, unread))
  {
    LetterKeysClean(l, unread);
    RoundTripIffCleanKeys(LetterRecord(l, unread));
    LetterIsRead(l, unread, LetterRecord(l, unread));
  }

  lemma LetterIsRead(l: WireLetter, unread: bool, r: Record)
    requires l.id != "" && Dated(l) && r == LetterRecord(l, unread)
    ensures LetterOf(r) == Some(StoredLetter(l, unread))
  {
    SignedRoundTrip(l.date);
    LetterGets(l, unread, 0); LetterGets(l, unread, 1); LetterGets(l, unread, 2);
    LetterGets(l, unread, 3); LetterGets(l, unread, 4); LetterGets(l, unread, 5);
    LetterGets(l, unread, 6); LetterGets(l, unread, 7); LetterGets(l, unread, 8);
  }

  // ---------------------------------------------------------------- files and index

  type Files = map<Name, string>
  type Reader = string -> Option<StoredLetter>

  datatype Meta = Meta(id: Name, date: int, unread: bool)

  /** What a scan makes of one file: nothing, unless its record names the file (store.cpp:197-211). */
  function MetaFor(read: Reader, files: Files, name: Name): (r: Option<Meta>)
    requires name in files
    ensures r.Some? ==> r.value.id == name
  {
    if !NameIsSafe(name.text) then None
    else
      match read(files[name])
      case None => None
      case Some(sl) => if sl.letter.id != name.text then None else Some(Meta(name, sl.letter.date, sl.unread))
  }

  predicate OneEach(index: seq<Meta>)
  {
    forall i, j :: 0 <= i < j < |index| ==> index[i].id != index[j].id
  }

  /** The index holds one row for each readable letter file, saying what the file says. */
  ghost predicate Agrees(read: Reader, index: seq<Meta>, files: Files)
  {
    && OneEach(index)
    && (forall i :: 0 <= i < |index| ==> index[i].id in files && MetaFor(read, files, index[i].id) == Some(index[i]))
    && (forall name :: name in files && MetaFor(read, files, name).Some? ==> Lists(index, name))
  }

  predicate Lists(index: seq<Meta>, name: Name)
  {
    exists i :: 0 <= i < |index| && index[i].id == name
  }

  /** What writing a letter does to its file and to no other. */
  lemma WrittenMeta(read: Reader, files: Files, l: WireLetter, unread: bool, text: string, name: Name)
    requires NameIsSafe(l.id) && read(text) == Some(StoredLetter(l, unread))
    ensures var files' := files[Name(l.id) := text];
            && MetaFor(read, files', Name(l.id)) == Some(Meta(Name(l.id), l.date, unread))
            && (name in files && name != Name(l.id) ==> MetaFor(read, files', name) == MetaFor(read, files, name))
  {
  }

  lemma AgreesAfterReplace(read: Reader, index: seq<Meta>, files: Files, l: WireLetter, unread: bool, text: string, k: nat)
    requires Agrees(read, index, files) && NameIsSafe(l.id) && read(text) == Some(StoredLetter(l, unread))
    requires k < |index| && index[k].id == Name(l.id)
    ensures Agrees(read, index[k := Meta(Name(l.id), l.date, unread)], files[Name(l.id) := text])
  {
    var files' := files[Name(l.id) := text];
    var index' := index[k := Meta(Name(l.id), l.date, unread)];
    WrittenMeta(read, files, l, unread, text, Name(l.id));
    forall i | 0 <= i < |index'|
      ensures index'[i].id in files' && MetaFor(read, files', index'[i].id) == Some(index'[i])
    {
      if i != k {
        WrittenMeta(read, files, l, unread, text, index[i].id);
      }
    }
    forall name | name in files' && MetaFor(read, files', name).Some?
      ensures Lists(index', name)
    {
      WrittenMeta(read, files, l, unread, text, name);
      if name == Name(l.id) {
        assert index'[k].id == name;
      } else {
        var i :| 0 <= i < |index| && index[i].id == name;
        assert index'[i].id == name;
      }
    }
  }

  lemma AgreesAfterNew(read: Reader, index: seq<Meta>, files: Files, l: WireLetter, text: string)
    requires Agrees(read, index, files) && NameIsSafe(l.id) && read(text) == Some(StoredLetter(l, true))
    requires forall i :: 0 <= i < |index| ==> index[i].id != Name(l.id)
    ensures Agrees(read, index + [Meta(Name(l.id), l.date, true)], files[Name(l.id) := text])
  {
    var files' := files[Name(l.id) := text];
    var index' := index + [Meta(Name(l.id), l.date, true)];
    WrittenMeta(read, files, l, true, text, Name(l.id));
    forall i | 0 <= i < |index'|
      ensures index'[i].id in files' && MetaFor(read, files', index'[i].id) == Some(index'[i])
    {
      if i < |index| {
        WrittenMeta(read, files, l, true, text, index[i].id);
      }
    }
    forall name | name in files' && MetaFor(read, files', name).Some?
      ensures Lists(index', name)
    {
      WrittenMeta(read, files, l, true, text, name);
      if name == Name(l.id) {
        assert index'[|index|].id == name;
      } else {
        var i :| 0 <= i < |index| && index[i].id == name;
        assert index'[i].id == name;
      }
    }
  }

  /** Dropping a file with its row. */
  function Without(index: seq<Meta>, id: Name): (r: seq<Meta>)
    ensures forall m :: m in r <==> m in index && m.id != id
    ensures OneEach(index) ==> OneEach(r)
  {
    if index == [] then []
    else
      var front, last := Without(index[..|index| - 1], id), index[|index| - 1];
      assert forall m :: m in index <==> m in index[..|index| - 1] || m == last;
      assert OneEach(index) ==> OneEach(index[..|index| - 1]) && forall m :: m in index[..|index| - 1] ==> m.id != last.id;
      if last.id == id then front else front + [last]
  }

  lemma AgreesAfterRemove(read: Reader, index: seq<Meta>, files: Files, id: Name)
    requires Agrees(read, index, files)
    ensures Agrees(read, Without(index, id), files - {id})
  {
    var index', files' := Without(index, id), files - {id};
    forall i | 0 <= i < |index'|
      ensures index'[i].id in files' && MetaFor(read, files', index'[i].id) == Some(index'[i])
    {
      assert index'[i] in index;
    }
    forall name | name in files' && MetaFor(read, files', name).Some?
      ensures Lists(index', name)
    {
      assert MetaFor(read, files, name) == MetaFor(read, files', name);
      var i :| 0 <= i < |index| && index[i].id == name;
      assert index[i] in index';
    }
  }

  // ---------------------------------------------------------------- the order of the inbox

  /** Newest first, ties broken by id, so that the order is total (store.cpp:232-242). */
  predicate Newer(a: Meta, b: Meta)
  {
    a.date > b.date || (a.date == b.date && Less(b.id.text, a.id.text))
  }

  predicate NewestFirst(s: seq<Meta>)
  {
    forall i, j :: 0 <= i < j < |s| ==> !Newer(s[j], s[i])
  }

  lemma {:induction false} LessTransitive(a: string, b: string, c: string)
    requires !Less(b, a) && !Less(c, b)
    ensures !Less(c, a)
  {
    if c != "" && a != "" && b != "" && a[0] == b[0] && b[0] == c[0] {
      LessTransitive(a[1..], b[1..], c[1..]);
    }
  }

  lemma NotNewerTransitive(a: Meta, b: Meta, c: Meta)
    requires !Newer(b, a) && !Newer(c, b)
    ensures !Newer(c, a)
  {
    if a.date == b.date && b.date == c.date {
      LessTransitive(c.id.text, b.id.text, a.id.text);
    }
  }

  /** Where `m` goes among letters already in order. */
  method Place(s: seq<Meta>, m: Meta) returns (r: seq<Meta>)
    requires NewestFirst(s)
    ensures NewestFirst(r) && multiset(r) == multiset(s) + multiset{m}
  {
    var k := 0;
    while k < |s| && !Newer(m, s[k])
      invariant k <= |s|
      invariant forall i :: 0 <= i < k ==> !Newer(m, s[i])
    {
      k := k + 1;
    }
    r := s[..k] + [m] + s[k..];
    assert s == s[..k] + s[k..];
    forall i, j | 0 <= i < j < |r|
      ensures !Newer(r[j], r[i])
    {
      if i == k && j > k {
        NewerAsymmetric(m, s[k]);
        if j > k + 1 {
          NotNewerTransitive(m, s[k], s[j - 1]);
        }
      }
    }
  }

  lemma {:induction false} LessAsymmetric(a: string, b: string)
    requires Less(a, b)
    ensures !Less(b, a)
  {
    if a != "" && a[0] == b[0] {
      LessAsymmetric(a[1..], b[1..]);
    }
  }

  lemma NewerAsymmetric(a: Meta, b: Meta)
    requires Newer(a, b)
    ensures !Newer(b, a)
  {
    if a.date == b.date {
      LessAsymmetric(b.id.text, a.id.text);
    }
  }

  method Ordered(index: seq<Meta>) returns (r: seq<Meta>)
    ensures NewestFirst(r) && multiset(r) == multiset(index)
  {
    r := [];
    for i := 0 to |index|
      invariant NewestFirst(r) && multiset(r) == multiset(index[..i])
    {
      assert index[..i + 1] == index[..i] + [index[i]];
      r := Place(r, index[i]);
    }
    assert index[..|index|] == index;
  }

  const DEFAULT_LETTERS_KEEP: nat := 200

  /** The index over the part of a directory scanned so far. */
  ghost predicate AgreesOn(read: Reader, index: seq<Meta>, files: Files, seen: set<Name>)
    requires seen <= files.Keys
  {
    && OneEach(index)
    && (forall i :: 0 <= i < |index| ==> index[i].id in seen && MetaFor(read, files, index[i].id) == Some(index[i]))
    && (forall name :: name in seen && MetaFor(read, files, name).Some? ==> Lists(index, name))
  }

  lemma ScanOne(read: Reader, index: seq<Meta>, files: Files, seen: set<Name>, name: Name)
    requires seen <= files.Keys && AgreesOn(read, index, files, seen) && name in files && name !in seen
    ensures var m := MetaFor(read, files, name);
            AgreesOn(read, if m.Some? then index + [m.value] else index, files, seen + {name})
  {
    var m := MetaFor(read, files, name);
    if m.Some? {
      var index' := index + [m.value];
      assert index'[|index|].id == name;
      forall n | n in seen && MetaFor(read, files, n).Some?
        ensures Lists(index', n)
      {
        var i :| 0 <= i < |index| && index[i].id == n;
        assert index'[i].id == n;
      }
    }
  }

  /** store.cpp:197-211, over a directory listing in any order. */
  method Scan(read: Reader, files: Files, names: seq<Name>) returns (found: seq<Meta>)
    requires (forall n :: n in names <==> n in files) && Distinct(names)
    ensures Agrees(read, found, files)
  {
    found := [];
    ghost var seen: set<Name> := {};
    for i := 0 to |names|
      invariant forall n :: n in seen <==> n in names[..i]
      invariant seen <= files.Keys && AgreesOn(read, found, files, seen)
    {
      assert names[i] in names && names[i] !in names[..i];
      assert names[..i + 1] == names[..i] + [names[i]];
      ScanOne(read, found, files, seen, names[i]);
      var m := MetaFor(read, files, names[i]);
      if m.Some? {
        found := found + [m.value];
      }
      seen := seen + {names[i]};
    }
    assert names[..|names|] == names && seen == files.Keys;
  }

  class FileLetterStore {
    var files: Files          // flash
    var index: seq<Meta>      // RAM

    ghost predicate Valid()
      reads this
    {
      Agrees(DecodeLetter, index, files)
    }

    constructor (files: Files, names: seq<Name>)
      requires (forall n :: n in names <==> n in files) && Distinct(names)
      ensures this.files == files && Valid()
    {
      this.files := files;
      var found := Scan(DecodeLetter, files, names);
      this.index := found;
    }

    /** store.cpp:219-224: the row of an id, or one past the last. */
    method FindRow(id: Name) returns (k: nat)
      ensures k <= |index| && (k < |index| ==> index[k].id == id)
      ensures forall i :: 0 <= i < k ==> index[i].id != id
    {
      k := 0;
      while k < |index| && index[k].id != id
        invariant 0 <= k <= |index|
        invariant forall i :: 0 <= i < k ==> index[i].id != id
      {
        k := k + 1;
      }
    }

    /** store.cpp:105-119. A repeat keeps the unread flag it finds. */
    method Put(l: WireLetter, writes: bool) returns (ok: bool)
      requires Valid() && Dated(l)
      modifies this
      ensures Valid()
      ensures ok == (writes && NameIsSafe(l.id))
      ensures !ok ==> files == old(files) && index == old(index)
      ensures ok ==> exists unread ::
                && files == old(files)[Name(l.id) := EncodeLetter(l, unread)]
                && (unread <==> forall m :: m in old(index) && m.id == Name(l.id) ==> m.unread)
    {
      if !NameIsSafe(l.id) {
        return false;
      }
      var k := FindRow(Name(l.id));
      var unread := if k == |index| then true else index[k].unread;
      assert unread <==> forall m :: m in index && m.id == Name(l.id) ==> m.unread;
      if !writes {
        return false;
      }
      LetterRoundTrip(l, unread);
      if k < |index| {
        AgreesAfterReplace(DecodeLetter, index, files, l, unread, EncodeLetter(l, unread), k);
        index := index[k := Meta(Name(l.id), l.date, unread)];
      } else {
        AgreesAfterNew(DecodeLetter, index, files, l, EncodeLetter(l, true));
        index := index + [Meta(Name(l.id), l.date, true)];
      }
      files := files[Name(l.id) := EncodeLetter(l, unread)];
      return true;
    }

    /** store.cpp:136-145. */
    method MarkRead(id: Name, writes: bool) returns (ok: bool)
      requires Valid()
      modifies this
      ensures Valid() && (ok ==> Lists(index, id) && forall m :: m in index && m.id == id ==> !m.unread)
      ensures !ok ==> files == old(files) && index == old(index)
      ensures ok <==> old(Lists(index, id)) && (writes || exists m :: m in old(index) && m.id == id && !m.unread)
    {
      var k := FindRow(id);
      if k == |index| {
        return false;
      }
      SameRow(index, index[k]);
      assert Lists(index, id);
      if !index[k].unread {
        return true;
      }
      assert MetaFor(DecodeLetter, files, id) == Some(index[k]);
      var sl := DecodeLetter(files[id]).value;
      if !writes {
        return false;
      }
      DecodedDated(files[id]);
      LetterRoundTrip(sl.letter, false);
      AgreesAfterReplace(DecodeLetter, index, files, sl.letter, false, EncodeLetter(sl.letter, false), k);
      files := files[id := EncodeLetter(sl.letter, false)];
      index := index[k := Meta(id, sl.letter.date, false)];
      assert index[k].id == id;
      SameRow(index, index[k]);
      return true;
    }

    /** One file with its row, unless it will not go. */
    method RemoveOne(id: Name, goes: bool)
      requires Valid()
      modifies this
      ensures Valid()
      ensures files == if goes then old(files) - {id} else old(files)
      ensures forall m :: m in index <==> m in old(index) && !(goes && m.id == id)
    {
      if goes {
        AgreesAfterRemove(DecodeLetter, index, files, id);
        files := files - {id};
        index := Without(index, id);
      }
    }

    /** Remove files in turn, each with its row; one that will not go is passed over. */
    method RemoveEach(doomed: seq<Meta>, stuck: set<Name>) returns (removed: nat)
      requires Valid()
      modifies this
      ensures Valid()
      ensures files == old(files) - Going(doomed, stuck)
      ensures forall m :: m in index <==> m in old(index) && m.id !in Going(doomed, stuck)
    {
      removed := 0;
      for i := 0 to |doomed|
        invariant Valid()
        invariant files == old(files) - Going(doomed[..i], stuck)
        invariant forall m :: m in index <==> m in old(index) && m.id !in Going(doomed[..i], stuck)
      {
        var id := doomed[i].id;
        assert doomed[..i + 1] == doomed[..i] + [doomed[i]];
        GoingPush(doomed[..i], doomed[i], stuck);
        RemoveOne(id, id !in stuck);
        if id !in stuck {
          removed := removed + 1;
        }
      }
      assert doomed[..|doomed|] == doomed;
    }

    /**
     store.cpp:158-176. What is beyond the `keep` newest goes, file and row, unless its file will
     not be removed; nothing else changes.
     */
    method EvictBeyond(keep: nat, stuck: set<Name>) returns (removed: nat, ghost order: seq<Meta>)
      requires Valid()
      modifies this
      ensures Valid()
      ensures NewestFirst(order) && multiset(order) == multiset(old(index))
      ensures var k := if keep == 0 then DEFAULT_LETTERS_KEEP else keep;
              var gone := if |order| <= k then {} else Going(order[k..], stuck);
              && files == old(files) - gone
              && forall m :: m in index <==> m in old(index) && m.id !in gone
    {
      var k := if keep == 0 then DEFAULT_LETTERS_KEEP else keep;
      var ordered := Ordered(index);
      order := ordered;
      if |ordered| <= k {
        return 0, ordered;
      }
      removed := RemoveEach(ordered[k..], stuck);
    }
  }

  /** The ids a removal of these rows takes away. */
  function Going(doomed: seq<Meta>, stuck: set<Name>): set<Name>
  {
    set i | 0 <= i < |doomed| && doomed[i].id !in stuck :: doomed[i].id
  }

  lemma GoingPush(doomed: seq<Meta>, m: Meta, stuck: set<Name>)
    ensures Going(doomed + [m], stuck) == Going(doomed, stuck) + if m.id in stuck then {} else {m.id}
  {
    var more := doomed + [m];
    forall n | n in Going(doomed, stuck)
      ensures n in Going(more, stuck)
    {
      var i :| 0 <= i < |doomed| && doomed[i].id !in stuck && doomed[i].id == n;
      assert more[i].id == n;
    }
    assert more[|doomed|] == m;
  }

  lemma DecodedDated(text: string)
    ensures DecodeLetter(text).Some? ==> Dated(DecodeLetter(text).value.letter)
  {
  }

  /** In an index with one row per id, a row is known by its id. */
  lemma SameRow(index: seq<Meta>, m: Meta)
    requires OneEach(index) && m in index
    ensures forall x :: x in index && x.id == m.id ==> x == m
  {
  }

  /** Two indexes of the same files are the same rows: a rescan finds what RAM held. */
  lemma RescanAgrees(read: Reader, a: seq<Meta>, b: seq<Meta>, files: Files)
    requires Agrees(read, a, files) && Agrees(read, b, files)
    ensures multiset(a) == multiset(b)
  {
    RescanFinds(read, a, b, files);
    RescanFinds(read, b, a, files);
    OnceEach(a);
    OnceEach(b);
    forall m: Meta
      ensures multiset(a)[m] == multiset(b)[m]
    {
      assert m in a <==> m in b;
    }
  }

  lemma RescanFinds(read: Reader, a: seq<Meta>, b: seq<Meta>, files: Files)
    requires Agrees(read, a, files) && Agrees(read, b, files)
    ensures forall m :: m in a ==> m in b
  {
    forall m | m in a
      ensures m in b
    {
      var i :| 0 <= i < |b| && b[i].id == m.id;
      assert MetaFor(read, files, m.id) == Some(m) == Some(b[i]);
    }
  }

  lemma {:induction false} OnceEach(a: seq<Meta>)
    requires OneEach(a)
    ensures forall m :: multiset(a)[m] == if m in a then 1 else 0
  {
    if a != [] {
      var front, last := a[..|a| - 1], a[|a| - 1];
      assert a == front + [last];
      OnceEach(front);
    }
  }
}
