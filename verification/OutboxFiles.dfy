/**
 The outbox as files: one record per letter, named by its local id, and the entries in RAM
 (firmware/chaski/components/store/store.cpp, FileOutbox).
 */
module OutboxFiles {
  import opened Basics
  import opened Records
  import opened Decimal
  import SeenRing
  import opened LetterStore

  /** An entry; the status of a reject is its number in wire.h, five being "unknown". */
  datatype Sheet = Sheet(
    localId: string, contactId: string, subject: string, body: string, composedAt: int, rejected: bool, status: int)

  const UNKNOWN: int := 5

  predicate Writable(e: Sheet)
  {
    e.localId != "" && -(MAX_I64 as int) - 1 <= e.composedAt <= MAX_I64 && 0 <= e.status <= UNKNOWN
  }

  // ---------------------------------------------------------------- one file

  function SheetRecord(e: Sheet): Record
  {
    [ Pair("local_id", e.localId),
      Pair("contact_id", e.contactId),
      Pair("subject", e.subject),
      Pair("body", e.body),
      Pair("composed_at", SignedText(e.composedAt)),
      Pair("rejected", Bit(e.rejected)),
      Pair("reject_status", SignedText(e.status)) ]
  }

  function EncodeSheet(e: Sheet): string
  {
    Encode(SheetRecord(e))
  }

  /** A status out of range leaves the default standing. */
  function StatusOf(r: Record): int
  {
    var n := Truncated(ReadI64(r, "reject_status", UNKNOWN));
    if 0 <= n <= UNKNOWN then n else UNKNOWN
  }

  /** store.cpp:344-360. */
  function SheetOf(r: Record): Option<Sheet>
  {
    match Get(r, "local_id")
    case None => None
    case Some(id) =>
      if id == "" then None
      else Some(Sheet(id, GetOr(r, "contact_id", ""), GetOr(r, "subject", ""), GetOr(r, "body", ""),
                      ReadI64(r, "composed_at", 0), ReadBool(r, "rejected", false), StatusOf(r)))
  }

  function DecodeSheet(text: string): Option<Sheet>
  {
    SheetOf(Decode(text))
  }

  lemma SheetKeysClean(e: Sheet)
    ensures CleanKeys(SheetRecord(e))
  {
    assert CleanKey("local_id") && CleanKey("contact_id") && CleanKey("subject") && CleanKey("body");
    assert CleanKey("composed_at") && CleanKey("rejected") && CleanKey("reject_status");
  }

  lemma SheetKeysDistinct(e: Sheet, i: nat, j: nat)
    requires j < i < 7
    ensures SheetRecord(e)[j].key != SheetRecord(e)[i].key
  {
    var r := SheetRecord(e);
    assert |r[0].key| == 8 && |r[1].key| == 10 && |r[2].key| == 7 && |r[3].key| == 4 && |r[4].key| == 11;
    assert |r[5].key| == 8 && |r[6].key| == 13 && r[0].key[0] == 'l' && r[5].key[0] == 'r';
  }

  lemma SheetGets(e: Sheet, i: nat)
    requires i < 7
    ensures var r := SheetRecord(e); Get(r, r[i].key) == Some(r[i].value)
  {
    var r := SheetRecord(e);
    forall j | 0 <= j < i
      ensures r[j].key != r[i].key
    {
      SheetKeysDistinct(e, i, j);
    }
    GetAt(r, i);
  }

  /** What was written is read back, the child's words whatever they hold. */
  lemma SheetRoundTrip(e: Sheet)
    requires Writable(e)
    ensures DecodeSheet(EncodeSheet(e)) == Some(e)
  {
    SheetKeysClean(e);
    RoundTripIffCleanKeys(SheetRecord(e));
    SheetIsRead(e, SheetRecord(e));
  }

  lemma SheetTexts(e: Sheet, r: Record)
    requires r == SheetRecord(e)
    ensures Get(r, "local_id") == Some(e.localId) && Get(r, "contact_id") == Some(e.contactId)
    ensures Get(r, "subject") == Some(e.subject) && Get(r, "body") == Some(e.body)
  {
    SheetGets(e, 0); SheetGets(e, 1); SheetGets(e, 2); SheetGets(e, 3);
  }

  lemma SheetNumbers(e: Sheet, r: Record)
    requires r == SheetRecord(e)
    ensures Get(r, "composed_at") == Some(SignedText(e.composedAt)) && Get(r, "rejected") == Some(Bit(e.rejected))
    ensures Get(r, "reject_status") == Some(SignedText(e.status))
  {
    SheetGets(e, 4); SheetGets(e, 5); SheetGets(e, 6);
  }

  lemma SheetIsRead(e: Sheet, r: Record)
    requires Writable(e) && r == SheetRecord(e)
    ensures SheetOf(r) == Some(e)
  {
    SheetTexts(e, r);
    SheetNumbers(e, r);
    SheetValues(e, r);
  }

  lemma NumberIsRead(r: Record, key: string, n: int, default: int)
    requires Get(r, key) == Some(SignedText(n)) && -(MAX_I64 as int) - 1 <= n <= MAX_I64
    ensures ReadI64(r, key, default) == n
  {
    SignedRoundTrip(n);
  }

  lemma StatusIsRead(r: Record, n: int)
    requires ReadI64(r, "reject_status", UNKNOWN) == n && 0 <= n <= UNKNOWN
    ensures StatusOf(r) == n
  {
  }

  lemma SheetValues(e: Sheet, r: Record)
    requires Writable(e)
    requires Get(r, "composed_at") == Some(SignedText(e.composedAt)) && Get(r, "rejected") == Some(Bit(e.rejected))
    requires Get(r, "reject_status") == Some(SignedText(e.status))
    ensures ReadI64(r, "composed_at", 0) == e.composedAt && ReadBool(r, "rejected", false) == e.rejected && StatusOf(r) == e.status
  {
    NumberIsRead(r, "composed_at", e.composedAt, 0);
    NumberIsRead(r, "reject_status", e.status, UNKNOWN);
    StatusIsRead(r, e.status);
  }

  // ---------------------------------------------------------------- the directory

  type Entries = map<Name, Sheet>

  type Reader = string -> Option<Sheet>

  /** What a scan makes of one file: an entry is addressed by its name, so the two must agree. */
  function Entry(read: Reader, files: Files, name: Name): (r: Option<Sheet>)
  {
    if name !in files || !SeenRing.NameIsSafe(name.text) then None
    else match read(files[name])
         case Some(e) => if e.localId == name.text then Some(e) else None
         case None => None
  }

  /** RAM is what a scan of the directory gives. */
  ghost predicate Scanned(read: Reader, entries: Entries, files: Files)
  {
    forall name :: Entry(read, files, name) == if name in entries then Some(entries[name]) else None
  }

  /** Whatever a scan gives, it gives again. */
  lemma ScanIsUnique(read: Reader, a: Entries, b: Entries, files: Files)
    requires Scanned(read, a, files) && Scanned(read, b, files)
    ensures a == b
  {
    forall name
      ensures name in a <==> name in b
      ensures name in a ==> a[name] == b[name]
    {
      assert Entry(read, files, name) == if name in a then Some(a[name]) else None;
      assert Entry(read, files, name) == if name in b then Some(b[name]) else None;
    }
  }

  lemma AfterWrite(read: Reader, entries: Entries, files: Files, e: Sheet, text: string)
    requires Scanned(read, entries, files) && SeenRing.NameIsSafe(e.localId) && read(text) == Some(e)
    ensures Scanned(read, entries[Name(e.localId) := e], files[Name(e.localId) := text])
  {
    var files', entries' := files[Name(e.localId) := text], entries[Name(e.localId) := e];
    forall name
      ensures Entry(read, files', name) == if name in entries' then Some(entries'[name]) else None
    {
      if name != Name(e.localId) {
        assert Entry(read, files', name) == Entry(read, files, name);
      }
    }
  }

  lemma AfterRemove(read: Reader, entries: Entries, files: Files, name: Name)
    requires Scanned(read, entries, files)
    ensures Scanned(read, entries - {name}, files - {name})
  {
    forall n
      ensures Entry(read, files - {name}, n) == if n in entries - {name} then Some((entries - {name})[n]) else None
    {
      if n != name {
        assert Entry(read, files - {name}, n) == Entry(read, files, n);
      }
    }
  }

  lemma LocalIdIsSafe(n: nat)
    requires n <= MAX_U64
    ensures SeenRing.NameIsSafe(FormatLocalId(n))
  {
    var s := FormatLocalId(n);
    ValueOfText(n);
    if |ToText(n)| > 20 {
      TooLong(ToText(n));
    }
    assert forall i :: 0 <= i < |s| ==> IsDigit(s[i]);
  }

  /** store.cpp:367-378, over a directory listing in any order. */
  method ScanEntries(read: Reader, files: Files, names: seq<Name>) returns (entries: Entries)
    requires forall n :: n in names <==> n in files
    ensures Scanned(read, entries, files)
  {
    entries := map[];
    for i := 0 to |names|
      invariant forall n :: n in entries ==> Entry(read, files, n) == Some(entries[n])
      invariant forall k :: 0 <= k < i ==> names[k] in entries || Entry(read, files, names[k]) == None
    {
      var e := Entry(read, files, names[i]);
      if e.Some? {
        entries := entries[names[i] := e.value];
      }
    }
    forall n
      ensures Entry(read, files, n) == if n in entries then Some(entries[n]) else None
    {
      if n in files {
        assert n in names;
      }
    }
  }

  /** Whatever a file says, what is read from it can be written again. */
  lemma DecodedWritable(text: string)
    ensures DecodeSheet(text).Some? ==> Writable(DecodeSheet(text).value)
  {
  }

  lemma ScannedAreWritable(entries: Entries, files: Files)
    requires Scanned(DecodeSheet, entries, files)
    ensures forall name :: name in entries ==> name in files && entries[name].localId == name.text && Writable(entries[name])
  {
    forall name | name in entries
      ensures name in files && entries[name].localId == name.text && Writable(entries[name])
    {
      assert Entry(DecodeSheet, files, name) == Some(entries[name]);
      DecodedWritable(files[name]);
    }
  }

  class FileOutbox {
    const cap: nat
    var highWater: nat      // the counter file, and RAM's copy of it
    var files: Files        // flash
    var entries: Entries    // RAM

    /** A rescan finds exactly the entries in RAM. */
    ghost predicate Sound()
      reads this
    {
      && Scanned(DecodeSheet, entries, files) && highWater <= MAX_U64
      && forall name :: name in entries ==> entries[name].localId == name.text && Writable(entries[name])
    }

    /** And no id beyond the counter is taken. */
    ghost predicate Valid()
      reads this
    {
      Sound() && forall n: nat :: n > highWater ==> Name(FormatLocalId(n)) !in entries
    }

    /**
     Boot (store.cpp:248-253). Every readable entry is loaded, whatever its number; the counter was
     written before any entry, so as a rule none is numbered above it.
     */
    constructor (cap: nat, highWater: nat, files: Files, names: seq<Name>)
      requires highWater <= MAX_U64 && forall n :: n in names <==> n in files
      ensures Sound() && this.cap == cap && this.highWater == highWater && this.files == files
      ensures Valid() <==> forall n: nat :: n > highWater ==> Entry(DecodeSheet, files, Name(FormatLocalId(n))).None?
    {
      this.cap := cap;
      this.highWater := highWater;
      this.files := files;
      var found := ScanEntries(DecodeSheet, files, names);
      this.entries := found;
      ScannedAreWritable(found, files);
      assert forall name :: Entry(DecodeSheet, files, name).None? <==> name !in found;
    }

    /** store.cpp:260-288. */
    method Add(contactId: string, subject: string, body: string, composedAt: int, counterWrites: bool, entryWrites: bool)
      returns (id: Option<string>)
      requires Valid() && highWater < MAX_U64 && -(MAX_I64 as int) - 1 <= composedAt <= MAX_I64
      modifies this
      ensures Valid()
      ensures id.Some? <==> |Waiting(old(entries))| < cap && counterWrites && entryWrites
      ensures id.Some? ==> id.value == FormatLocalId(old(highWater) + 1) && Name(id.value) !in old(entries)
                           && entries == old(entries)[Name(id.value) := Sheet(id.value, contactId, subject, body, composedAt, false, UNKNOWN)]
      ensures id.None? ==> entries == old(entries) && files == old(files)
    {
      if |Waiting(entries)| >= cap || !counterWrites {
        return None;
      }
      highWater := highWater + 1;
      var local := FormatLocalId(highWater);
      var e := Sheet(local, contactId, subject, body, composedAt, false, UNKNOWN);
      if !entryWrites {
        return None;
      }
      LocalIdIsSafe(highWater);
      SheetRoundTrip(e);
      AfterWrite(DecodeSheet, entries, files, e, EncodeSheet(e));
      forall n: nat | n > highWater
        ensures Name(FormatLocalId(n)) != Name(local)
      {
        LocalIdsAreUnique(n, highWater);
      }
      files := files[Name(local) := EncodeSheet(e)];
      entries := entries[Name(local) := e];
      return Some(local);
    }

    /** store.cpp:302-311. A refused reject marks RAM alone, and says so. */
    method Resolve(name: Name, status: int, writes: bool) returns (ok: bool)
      requires Sound() && 0 <= status <= UNKNOWN
      modifies this`files, this`entries
      ensures ok <==> name !in old(entries) || writes
      ensures ok ==> Sound() && (old(Valid()) ==> Valid())
      ensures ok && name in old(entries) ==>
                entries == if status == 0 then old(entries) - {name}
                           else old(entries)[name := old(entries)[name].(rejected := true, status := status)]
      ensures name !in old(entries) || (!ok && status == 0) ==> entries == old(entries)
      ensures !ok || name !in old(entries) ==> files == old(files)
    {
      if name !in entries {
        return true;
      }
      if status == 0 {
        ok := Erase(name, writes);
        return;
      }
      ok := Reject(name, status, writes);
    }

    /** store.cpp:308-310: RAM first. */
    method Reject(name: Name, status: int, writes: bool) returns (ok: bool)
      requires Sound() && 0 <= status <= UNKNOWN && name in entries
      modifies this`files, this`entries
      ensures ok == writes
      ensures entries == old(entries)[name := old(entries)[name].(rejected := true, status := status)]
      ensures !ok ==> files == old(files)
      ensures ok ==> Sound() && (old(Valid()) ==> Valid())
    {
      var e := entries[name].(rejected := true, status := status);
      entries := entries[name := e];
      if !writes {
        return false;
      }
      assert Entry(DecodeSheet, files, name) == Some(old(entries)[name]);
      SheetRoundTrip(e);
      AfterWrite(DecodeSheet, old(entries), files, e, EncodeSheet(e));
      files := files[name := EncodeSheet(e)];
      return true;
    }

    /** store.cpp:395-403. */
    method Erase(name: Name, writes: bool) returns (ok: bool)
      requires Sound()
      modifies this`files, this`entries
      ensures Sound() && (old(Valid()) ==> Valid()) && ok == writes
      ensures entries == if ok then old(entries) - {name} else old(entries)
      ensures files == if ok then old(files) - {name} else old(files)
    {
      if !writes {
        return false;
      }
      AfterRemove(DecodeSheet, entries, files, name);
      files := files - {name};
      entries := entries - {name};
      return true;
    }
  }

  /** The entries still to be sent. */
  function Waiting(entries: Entries): set<Name>
  {
    set n | n in entries && !entries[n].rejected
  }
}
