/**
 The device's copy of the contact list and the child's decoration of it
 (firmware/chaski/components/ayllu/ayllu.cpp): two record files, read back as they were written.
 */
module ContactBook {
  import opened Basics
  import opened Records
  import opened Decimal

  // ---------------------------------------------------------------- keys

  datatype Key =
    | Version | ContactId | ContactName | ContactActive | ContactPinned | ContactOrder | ContactPortrait
    | OverlayId | OverlayNickname | OverlayPinned | OverlayOrder | OverlayPortrait

  function KeyText(k: Key): string
  {
    match k
    case Version => "version"
    case ContactId => "contact.id"
    case ContactName => "contact.name"
    case ContactActive => "contact.active"
    case ContactPinned => "contact.pinned"
    case ContactOrder => "contact.order"
    case ContactPortrait => "contact.portrait"
    case OverlayId => "overlay.id"
    case OverlayNickname => "overlay.nickname"
    case OverlayPinned => "overlay.pinned"
    case OverlayOrder => "overlay.order"
    case OverlayPortrait => "overlay.portrait"
  }

  /** What tells two keys apart: the length, the first letter, and the ninth. */
  function Mark(s: string): (int, char, char)
  {
    (|s|, if |s| > 0 then s[0] else ' ', if |s| > 8 then s[8] else ' ')
  }

  lemma MarkOf(k: Key)
    ensures Mark(KeyText(k)) ==
            match k
            case Version => (7, 'v', ' ')
            case ContactId => (10, 'c', 'i')
            case ContactName => (12, 'c', 'n')
            case ContactActive => (14, 'c', 'a')
            case ContactPinned => (14, 'c', 'p')
            case ContactOrder => (13, 'c', 'o')
            case ContactPortrait => (16, 'c', 'p')
            case OverlayId => (10, 'o', 'i')
            case OverlayNickname => (16, 'o', 'n')
            case OverlayPinned => (14, 'o', 'p')
            case OverlayOrder => (13, 'o', 'o')
            case OverlayPortrait => (16, 'o', 'p')
  {
  }

  lemma KeysDiffer(a: Key, b: Key)
    ensures KeyText(a) == KeyText(b) <==> a == b
  {
    MarkOf(a);
    MarkOf(b);
  }

  lemma KeyIsClean(k: Key)
    ensures CleanKey(KeyText(k))
  {
  }

  // ---------------------------------------------------------------- fields and records

  datatype Field = Field(key: Key, value: string)

  function AsRecord(fs: seq<Field>): (r: Record)
    ensures |r| == |fs|
  {
    if fs == [] then [] else AsRecord(fs[..|fs| - 1]) + [Pair(KeyText(fs[|fs| - 1].key), fs[|fs| - 1].value)]
  }

  lemma {:induction false} RecordIsClean(fs: seq<Field>)
    ensures CleanKeys(AsRecord(fs))
  {
    if fs != [] {
      RecordIsClean(fs[..|fs| - 1]);
      KeyIsClean(fs[|fs| - 1].key);
    }
  }

  function FlatMap<R, F>(enc: R -> seq<F>, rows: seq<R>): seq<F>
  {
    if rows == [] then [] else FlatMap(enc, rows[..|rows| - 1]) + enc(rows[|rows| - 1])
  }

  /** If reading one row's fields always adds that row, reading all of them gives all the rows. */
  lemma {:induction false} ReadAll<R(!new), F>(f: (seq<R>, F) -> seq<R>, enc: R -> seq<F>, good: R -> bool, rows: seq<R>)
    requires forall before, row {:trigger Fold(f, before, enc(row))} :: good(row) ==> Fold(f, before, enc(row)) == before + [row]
    requires forall i :: 0 <= i < |rows| ==> good(rows[i])
    ensures Fold(f, [], FlatMap(enc, rows)) == rows
  {
    if rows != [] {
      var front, row := rows[..|rows| - 1], rows[|rows| - 1];
      ReadAll(f, enc, good, front);
      FoldOn(f, [], FlatMap(enc, front), enc(row));
      assert rows == front + [row];
    }
  }

  // ---------------------------------------------------------------- values

  function ParseBit(s: string): Option<bool>
  {
    if s == "1" then Some(true) else if s == "0" then Some(false) else None
  }

  /** fsutil.cpp:225-230. */
  function ParseInt(s: string): (r: Option<int>)
  {
    match ParseI64(s) case Some(n) => Some(Truncated(n)) case None => None
  }

  lemma IntRoundTrip(n: int)
    requires IsInt32(n)
    ensures ParseInt(SignedText(n)) == Some(n)
  {
    SignedRoundTrip(n);
    assert Truncated(n) == n;
  }

  // ---------------------------------------------------------------- the child's decoration

  datatype Overlay = Overlay(nickname: Option<string>, pinned: Option<bool>, order: Option<int>, portrait: Option<string>)
  datatype OverlayRow = OverlayRow(id: string, overlay: Overlay)

  const PLAIN: Overlay := Overlay(None, None, None, None)

  predicate Storable(row: OverlayRow)
  {
    row.overlay.order.Some? ==> IsInt32(row.overlay.order.value)
  }

  function OptionalField(k: Key, v: Option<string>): seq<Field>
  {
    if v.Some? then [Field(k, v.value)] else []
  }

  /** ayllu.cpp:93-103: a field that is not set is not written. */
  function RowFields(row: OverlayRow): seq<Field>
  {
    var o := row.overlay;
    [Field(OverlayId, row.id)]
    + OptionalField(OverlayNickname, o.nickname)
    + OptionalField(OverlayPinned, PinnedText(o))
    + OptionalField(OverlayOrder, OrderText(o))
    + OptionalField(OverlayPortrait, o.portrait)
  }

  function OverlayFields(rows: seq<OverlayRow>): seq<Field>
  {
    FlatMap(RowFields, rows)
  }

  function Last(rows: seq<OverlayRow>, o: Overlay): seq<OverlayRow>
    requires rows != []
  {
    rows[..|rows| - 1] + [OverlayRow(rows[|rows| - 1].id, o)]
  }

  /** ayllu.cpp:107-125: one pair. */
  function OverlayPair(rows: seq<OverlayRow>, p: Pair): seq<OverlayRow>
  {
    if p.key == KeyText(OverlayId) then rows + [OverlayRow(p.value, PLAIN)]
    else if rows == [] then rows
    else
      var o := rows[|rows| - 1].overlay;
      if p.key == KeyText(OverlayNickname) then Last(rows, o.(nickname := Some(p.value)))
      else if p.key == KeyText(OverlayPinned) then (if ParseBit(p.value).Some? then Last(rows, o.(pinned := ParseBit(p.value))) else rows)
      else if p.key == KeyText(OverlayOrder) then (if ParseInt(p.value).Some? then Last(rows, o.(order := ParseInt(p.value))) else rows)
      else if p.key == KeyText(OverlayPortrait) then Last(rows, o.(portrait := Some(p.value)))
      else rows
  }

  function DecodeOverlays(text: string): seq<OverlayRow>
  {
    Fold(OverlayPair, [], Decode(text))
  }

  function EncodeOverlays(rows: seq<OverlayRow>): string
  {
    Encode(AsRecord(OverlayFields(rows)))
  }

  /** The same pair, its key known by name. */
  function OverlayField(rows: seq<OverlayRow>, f: Field): seq<OverlayRow>
  {
    if f.key == OverlayId then rows + [OverlayRow(f.value, PLAIN)]
    else if rows == [] then rows
    else
      var o := rows[|rows| - 1].overlay;
      match f.key
      case OverlayNickname => Last(rows, o.(nickname := Some(f.value)))
      case OverlayPinned => if ParseBit(f.value).Some? then Last(rows, o.(pinned := ParseBit(f.value))) else rows
      case OverlayOrder => if ParseInt(f.value).Some? then Last(rows, o.(order := ParseInt(f.value))) else rows
      case OverlayPortrait => Last(rows, o.(portrait := Some(f.value)))
      case _ => rows
  }

  lemma OverlayPairIsField(rows: seq<OverlayRow>, f: Field)
    ensures OverlayPair(rows, Pair(KeyText(f.key), f.value)) == OverlayField(rows, f)
  {
    KeysDiffer(f.key, OverlayId);
    KeysDiffer(f.key, OverlayNickname);
    KeysDiffer(f.key, OverlayPinned);
    KeysDiffer(f.key, OverlayOrder);
    KeysDiffer(f.key, OverlayPortrait);
  }

  lemma {:induction false} OverlayPairsAreFields(fs: seq<Field>)
    ensures Fold(OverlayPair, [], AsRecord(fs)) == Fold(OverlayField, [], fs)
  {
    if fs != [] {
      OverlayPairsAreFields(fs[..|fs| - 1]);
      OverlayPairIsField(Fold(OverlayField, [], fs[..|fs| - 1]), fs[|fs| - 1]);
    }
  }

  lemma FoldOptional(rows: seq<OverlayRow>, fs: seq<Field>, k: Key, v: Option<string>)
    ensures Fold(OverlayField, rows, fs + OptionalField(k, v)) ==
            var done := Fold(OverlayField, rows, fs); if v.Some? then OverlayField(done, Field(k, v.value)) else done
  {
    if v.Some? {
      assert (fs + [Field(k, v.value)])[..|fs|] == fs;
    } else {
      assert fs + [] == fs;
    }
  }

  lemma LastOf(rows: seq<OverlayRow>, row: OverlayRow, o: Overlay)
    ensures Last(rows + [row], o) == rows + [OverlayRow(row.id, o)]
  {
    assert (rows + [row])[..|rows|] == rows;
  }

  /** One more field of the row that is being read. */
  lemma ReadsField(rows: seq<OverlayRow>, id: string, fs: seq<Field>, k: Key, v: Option<string>, o: Overlay, o': Overlay)
    requires Fold(OverlayField, rows, fs) == rows + [OverlayRow(id, o)]
    requires v.None? ==> o' == o
    requires v.Some? ==> OverlayField(rows + [OverlayRow(id, o)], Field(k, v.value)) == rows + [OverlayRow(id, o')]
    ensures Fold(OverlayField, rows, fs + OptionalField(k, v)) == rows + [OverlayRow(id, o')]
  {
    FoldOptional(rows, fs, k, v);
  }

  lemma FieldEffects(rows: seq<OverlayRow>, id: string, o: Overlay, v: string)
    ensures var before := rows + [OverlayRow(id, o)];
            && OverlayField(before, Field(OverlayNickname, v)) == rows + [OverlayRow(id, o.(nickname := Some(v)))]
            && OverlayField(before, Field(OverlayPortrait, v)) == rows + [OverlayRow(id, o.(portrait := Some(v)))]
            && (ParseBit(v).Some? ==> OverlayField(before, Field(OverlayPinned, v)) == rows + [OverlayRow(id, o.(pinned := ParseBit(v)))])
            && (ParseInt(v).Some? ==> OverlayField(before, Field(OverlayOrder, v)) == rows + [OverlayRow(id, o.(order := ParseInt(v)))])
  {
    LastOf(rows, OverlayRow(id, o), o.(nickname := Some(v)));
    LastOf(rows, OverlayRow(id, o), o.(portrait := Some(v)));
    LastOf(rows, OverlayRow(id, o), o.(pinned := ParseBit(v)));
    LastOf(rows, OverlayRow(id, o), o.(order := ParseInt(v)));
  }

  function PinnedText(o: Overlay): Option<string>
  {
    if o.pinned.Some? then Some(Bit(o.pinned.value)) else None
  }

  function OrderText(o: Overlay): Option<string>
  {
    if o.order.Some? then Some(SignedText(o.order.value)) else None
  }

  lemma ReadsNickname(rows: seq<OverlayRow>, id: string, fs: seq<Field>, o: Overlay, v: Option<string>)
    requires Fold(OverlayField, rows, fs) == rows + [OverlayRow(id, o)] && o.nickname.None?
    ensures Fold(OverlayField, rows, fs + OptionalField(OverlayNickname, v)) == rows + [OverlayRow(id, o.(nickname := v))]
  {
    if v.Some? {
      FieldEffects(rows, id, o, v.value);
    }
    ReadsField(rows, id, fs, OverlayNickname, v, o, o.(nickname := v));
  }

  lemma ReadsPinned(rows: seq<OverlayRow>, id: string, fs: seq<Field>, o: Overlay, full: Overlay)
    requires Fold(OverlayField, rows, fs) == rows + [OverlayRow(id, o)] && o.pinned.None?
    ensures Fold(OverlayField, rows, fs + OptionalField(OverlayPinned, PinnedText(full))) == rows + [OverlayRow(id, o.(pinned := full.pinned))]
  {
    if full.pinned.Some? {
      assert ParseBit(Bit(full.pinned.value)) == full.pinned;
      FieldEffects(rows, id, o, Bit(full.pinned.value));
    }
    ReadsField(rows, id, fs, OverlayPinned, PinnedText(full), o, o.(pinned := full.pinned));
  }

  lemma ReadsOrder(rows: seq<OverlayRow>, id: string, fs: seq<Field>, o: Overlay, full: Overlay)
    requires Fold(OverlayField, rows, fs) == rows + [OverlayRow(id, o)] && o.order.None?
    requires full.order.Some? ==> IsInt32(full.order.value)
    ensures Fold(OverlayField, rows, fs + OptionalField(OverlayOrder, OrderText(full))) == rows + [OverlayRow(id, o.(order := full.order))]
  {
    if full.order.Some? {
      IntRoundTrip(full.order.value);
      FieldEffects(rows, id, o, SignedText(full.order.value));
    }
    ReadsField(rows, id, fs, OverlayOrder, OrderText(full), o, o.(order := full.order));
  }

  lemma ReadsPortrait(rows: seq<OverlayRow>, id: string, fs: seq<Field>, o: Overlay, v: Option<string>)
    requires Fold(OverlayField, rows, fs) == rows + [OverlayRow(id, o)] && o.portrait.None?
    ensures Fold(OverlayField, rows, fs + OptionalField(OverlayPortrait, v)) == rows + [OverlayRow(id, o.(portrait := v))]
  {
    if v.Some? {
      FieldEffects(rows, id, o, v.value);
    }
    ReadsField(rows, id, fs, OverlayPortrait, v, o, o.(portrait := v));
  }

  /** Reading one row's fields adds that row. */
  lemma RowReads(rows: seq<OverlayRow>, row: OverlayRow)
    requires Storable(row)
    ensures Fold(OverlayField, rows, RowFields(row)) == rows + [row]
  {
    var o := row.overlay;
    var f0 := [Field(OverlayId, row.id)];
    assert f0[..0] == [];
    var f1 := f0 + OptionalField(OverlayNickname, o.nickname);
    var f2 := f1 + OptionalField(OverlayPinned, PinnedText(o));
    var f3 := f2 + OptionalField(OverlayOrder, OrderText(o));
    var o1 := PLAIN.(nickname := o.nickname);
    var o2 := o1.(pinned := o.pinned);
    var o3 := o2.(order := o.order);
    ReadsNickname(rows, row.id, f0, PLAIN, o.nickname);
    ReadsPinned(rows, row.id, f1, o1, o);
    ReadsOrder(rows, row.id, f2, o2, o);
    ReadsPortrait(rows, row.id, f3, o3, o.portrait);
    assert o3.(portrait := o.portrait) == o;
  }

  lemma RowsRead(rows: seq<OverlayRow>)
    requires forall i :: 0 <= i < |rows| ==> Storable(rows[i])
    ensures Fold(OverlayField, [], OverlayFields(rows)) == rows
  {
    forall before, row | Storable(row)
      ensures Fold(OverlayField, before, RowFields(row)) == before + [row]
    {
      RowReads(before, row);
    }
    ReadAll(OverlayField, RowFields, Storable, rows);
  }

  /** The decoration file is read back exactly as it was written, unset fields included. */
  lemma OverlaysRoundTrip(rows: seq<OverlayRow>)
    requires forall i :: 0 <= i < |rows| ==> Storable(rows[i])
    ensures DecodeOverlays(EncodeOverlays(rows)) == rows
  {
    RecordIsClean(OverlayFields(rows));
    RoundTripIffCleanKeys(AsRecord(OverlayFields(rows)));
    OverlayPairsAreFields(OverlayFields(rows));
    RowsRead(rows);
  }

  // ---------------------------------------------------------------- the server's snapshot

  datatype Contact = Contact(id: string, name: string, active: bool, pinned: bool, order: int, portrait: string)
  datatype Snapshot = Snapshot(version: int, contacts: seq<Contact>)

  /** A contact of which only the id has been read; the wire's own defaults. */
  function Bare(id: string): Contact
  {
    Contact(id, "", false, false, 0, "")
  }

  predicate StorableContact(c: Contact)
  {
    IsInt32(c.order)
  }

  /** ayllu.cpp:54-61. */
  function ContactFields(c: Contact): seq<Field>
  {
    [Field(ContactId, c.id), Field(ContactName, c.name), Field(ContactActive, Bit(c.active)),
     Field(ContactPinned, Bit(c.pinned)), Field(ContactOrder, SignedText(c.order)), Field(ContactPortrait, c.portrait)]
  }

  function LastContact(cs: seq<Contact>, c: Contact): seq<Contact>
    requires cs != []
  {
    cs[..|cs| - 1] + [c]
  }

  function Or<T>(o: Option<T>, default: T): T
  {
    if o.Some? then o.value else default
  }

  /** ayllu.cpp:68-88: one pair. */
  function ContactPair(cs: seq<Contact>, p: Pair): seq<Contact>
  {
    if p.key == KeyText(ContactId) then cs + [Bare(p.value)]
    else if cs == [] then cs
    else
      var c := cs[|cs| - 1];
      if p.key == KeyText(ContactName) then LastContact(cs, c.(name := p.value))
      else if p.key == KeyText(ContactActive) then LastContact(cs, c.(active := Or(ParseBit(p.value), c.active)))
      else if p.key == KeyText(ContactPinned) then LastContact(cs, c.(pinned := Or(ParseBit(p.value), c.pinned)))
      else if p.key == KeyText(ContactOrder) then LastContact(cs, c.(order := Or(ParseInt(p.value), c.order)))
      else if p.key == KeyText(ContactPortrait) then LastContact(cs, c.(portrait := p.value))
      else cs
  }

  function ContactField(cs: seq<Contact>, f: Field): seq<Contact>
  {
    if f.key == ContactId then cs + [Bare(f.value)]
    else if cs == [] then cs
    else
      var c := cs[|cs| - 1];
      match f.key
      case ContactName => LastContact(cs, c.(name := f.value))
      case ContactActive => LastContact(cs, c.(active := Or(ParseBit(f.value), c.active)))
      case ContactPinned => LastContact(cs, c.(pinned := Or(ParseBit(f.value), c.pinned)))
      case ContactOrder => LastContact(cs, c.(order := Or(ParseInt(f.value), c.order)))
      case ContactPortrait => LastContact(cs, c.(portrait := f.value))
      case _ => cs
  }

  lemma ContactPairIsField(cs: seq<Contact>, f: Field)
    ensures ContactPair(cs, Pair(KeyText(f.key), f.value)) == ContactField(cs, f)
  {
    KeysDiffer(f.key, ContactId);
    KeysDiffer(f.key, ContactName);
    KeysDiffer(f.key, ContactActive);
    KeysDiffer(f.key, ContactPinned);
    KeysDiffer(f.key, ContactOrder);
    KeysDiffer(f.key, ContactPortrait);
  }

  lemma {:induction false} ContactPairsAreFields(fs: seq<Field>)
    ensures Fold(ContactPair, [], AsRecord(fs)) == Fold(ContactField, [], fs)
  {
    if fs != [] {
      ContactPairsAreFields(fs[..|fs| - 1]);
      ContactPairIsField(Fold(ContactField, [], fs[..|fs| - 1]), fs[|fs| - 1]);
    }
  }

  lemma LastContactOf(cs: seq<Contact>, a: Contact, b: Contact)
    ensures LastContact(cs + [a], b) == cs + [b]
  {
    assert (cs + [a])[..|cs|] == cs;
  }

  lemma FoldPush<R, F>(f: (R, F) -> R, r: R, s: seq<F>, x: F)
    ensures Fold(f, r, s + [x]) == f(Fold(f, r, s), x)
  {
    assert (s + [x])[..|s|] == s;
  }

  lemma FoldSix<R, F>(f: (R, F) -> R, r: R, a: F, b: F, c: F, d: F, e: F, g: F)
    ensures Fold(f, r, [a, b, c, d, e, g]) == f(f(f(f(f(f(r, a), b), c), d), e), g)
  {
    FoldPush(f, r, [], a);
    FoldPush(f, r, [a], b);
    FoldPush(f, r, [a, b], c);
    FoldPush(f, r, [a, b, c], d);
    FoldPush(f, r, [a, b, c, d], e);
    FoldPush(f, r, [a, b, c, d, e], g);
    assert [] + [a] == [a] && [a] + [b] == [a, b] && [a, b] + [c] == [a, b, c] && [a, b, c] + [d] == [a, b, c, d];
    assert [a, b, c, d] + [e] == [a, b, c, d, e] && [a, b, c, d, e] + [g] == [a, b, c, d, e, g];
  }

  lemma ContactReads(cs: seq<Contact>, c: Contact)
    requires StorableContact(c)
    ensures Fold(ContactField, cs, ContactFields(c)) == cs + [c]
  {
    FoldSix(ContactField, cs, Field(ContactId, c.id), Field(ContactName, c.name), Field(ContactActive, Bit(c.active)),
            Field(ContactPinned, Bit(c.pinned)), Field(ContactOrder, SignedText(c.order)), Field(ContactPortrait, c.portrait));
    var c0 := Bare(c.id);
    var c1 := c0.(name := c.name);
    var c2 := c1.(active := c.active);
    var c3 := c2.(pinned := c.pinned);
    var c4 := c3.(order := c.order);
    LastContactOf(cs, c0, c1);
    assert ParseBit(Bit(c.active)) == Some(c.active) && ParseBit(Bit(c.pinned)) == Some(c.pinned);
    LastContactOf(cs, c1, c2);
    LastContactOf(cs, c2, c3);
    IntRoundTrip(c.order);
    LastContactOf(cs, c3, c4);
    LastContactOf(cs, c4, c);
  }

  lemma ContactsRead(cs: seq<Contact>)
    requires forall i :: 0 <= i < |cs| ==> StorableContact(cs[i])
    ensures Fold(ContactField, [], FlatMap(ContactFields, cs)) == cs
  {
    forall before, c | StorableContact(c)
      ensures Fold(ContactField, before, ContactFields(c)) == before + [c]
    {
      ContactReads(before, c);
    }
    ReadAll(ContactField, ContactFields, StorableContact, cs);
  }

  /** The version goes first; reading it stops at the first key of that name. */
  function SnapshotFields(s: Snapshot): seq<Field>
  {
    [Field(Version, SignedText(s.version))] + FlatMap(ContactFields, s.contacts)
  }

  function DecodeSnapshot(text: string): Snapshot
  {
    var r := Decode(text);
    var v := Get(r, KeyText(Version));
    Snapshot(if v.Some? then Or(ParseInt(v.value), 0) else 0, Fold(ContactPair, [], r))
  }

  function EncodeSnapshot(s: Snapshot): string
  {
    Encode(AsRecord(SnapshotFields(s)))
  }

  lemma {:induction false} FirstOfRecord(fs: seq<Field>)
    requires fs != []
    ensures AsRecord(fs)[0] == Pair(KeyText(fs[0].key), fs[0].value)
  {
    if |fs| > 1 {
      FirstOfRecord(fs[..|fs| - 1]);
    }
  }

  lemma VersionIsNoContact(v: string, fs: seq<Field>)
    ensures Fold(ContactField, [], [Field(Version, v)] + fs) == Fold(ContactField, [], fs)
  {
    var none: seq<Contact> := [];
    var one := [Field(Version, v)];
    FoldOn(ContactField, none, one, fs);
    assert one[..0] == [];
    assert Fold(ContactField, none, one) == ContactField(Fold(ContactField, none, one[..0]), one[0]) == none;
  }

  /** The snapshot file too: membership and version survive a restart unchanged. */
  lemma SnapshotRoundTrip(s: Snapshot)
    requires IsInt32(s.version) && forall i :: 0 <= i < |s.contacts| ==> StorableContact(s.contacts[i])
    ensures DecodeSnapshot(EncodeSnapshot(s)) == s
  {
    var fs := SnapshotFields(s);
    var r := AsRecord(fs);
    RecordIsClean(fs);
    RoundTripIffCleanKeys(r);
    FirstOfRecord(fs);
    IntRoundTrip(s.version);
    assert Get(r, KeyText(Version)) == Some(SignedText(s.version));
    ContactPairsAreFields(fs);
    VersionIsNoContact(SignedText(s.version), FlatMap(ContactFields, s.contacts));
    ContactsRead(s.contacts);
  }

  // ---------------------------------------------------------------- the decoration store

  /** ayllu.cpp:223-228: the first row of an id. */
  function OverlayFor(rows: seq<OverlayRow>, id: string): Option<Overlay>
  {
    if rows == [] then None
    else
      var earlier := OverlayFor(rows[..|rows| - 1], id);
      if earlier.Some? then earlier else if rows[|rows| - 1].id == id then Some(rows[|rows| - 1].overlay) else None
  }

  predicate OneEach(rows: seq<OverlayRow>)
  {
    forall i, j :: 0 <= i < j < |rows| ==> rows[i].id != rows[j].id
  }

  /** With one row an id, a lookup is a matter of membership. */
  lemma {:induction false} LookupIs(rows: seq<OverlayRow>, id: string)
    requires OneEach(rows)
    ensures forall i :: 0 <= i < |rows| && rows[i].id == id ==> OverlayFor(rows, id) == Some(rows[i].overlay)
    ensures (forall i :: 0 <= i < |rows| ==> rows[i].id != id) ==> OverlayFor(rows, id) == None
  {
    if rows != [] {
      LookupIs(rows[..|rows| - 1], id);
      var front := rows[..|rows| - 1];
      assert forall i :: 0 <= i < |front| ==> front[i] == rows[i];
    }
  }

  predicate AllStorable(rows: seq<OverlayRow>)
  {
    forall i :: 0 <= i < |rows| ==> Storable(rows[i])
  }

  class OverlayStore {
    var rows: seq<OverlayRow>    // RAM
    var file: string             // ayllu_overlay

    /** Every lookup gives what a restart would give. */
    ghost predicate Valid()
      reads this
    {
      && OneEach(rows) && AllStorable(rows)
      && forall id :: OverlayFor(DecodeOverlays(file), id) == OverlayFor(rows, id)
    }

    /** ayllu.cpp:134-138: boot reads whatever the file holds; this store never wrote an id twice. */
    constructor (file: string)
      requires OneEach(DecodeOverlays(file))
      ensures Valid() && this.file == file && rows == DecodeOverlays(file)
    {
      this.file := file;
      this.rows := DecodeOverlays(file);
      DecodedStorable(Decode(file));
    }

    method Persist(writes: bool) returns (ok: bool)
      requires AllStorable(rows)
      modifies this`file
      ensures ok == writes && file == if ok then EncodeOverlays(rows) else old(file)
      ensures ok ==> DecodeOverlays(file) == rows
    {
      if writes {
        file := EncodeOverlays(rows);
        OverlaysRoundTrip(rows);
      }
      return writes;
    }

    method Find(id: string) returns (k: Option<nat>)
      ensures k.Some? ==> k.value < |rows| && rows[k.value].id == id
      ensures k.None? ==> forall i :: 0 <= i < |rows| ==> rows[i].id != id
    {
      for i := 0 to |rows|
        invariant forall j :: 0 <= j < i ==> rows[j].id != id
      {
        if rows[i].id == id {
          return Some(i);
        }
      }
      return None;
    }

    /** ayllu.cpp:193-207: write, or put everything back. */
    method SetOverlay(id: string, o: Overlay, writes: bool) returns (ok: bool)
      requires Valid() && Storable(OverlayRow(id, o))
      modifies this
      ensures Valid() && (ok <==> id != "" && writes)
      ensures !ok ==> rows == old(rows) && file == old(file)
      ensures ok ==> forall x :: OverlayFor(rows, x) == if x == id then Some(o) else old(OverlayFor(rows, x))
    {
      if id == "" {
        return false;
      }
      var found := Find(id);
      ghost var before := rows;
      if found.Some? {
        var k := found.value;
        var previous := rows[k].overlay;
        rows := rows[k := OverlayRow(id, o)];
        SetChangesOne(before, k, OverlayRow(id, o));
        ok := Persist(writes);
        if !ok {
          rows := rows[k := OverlayRow(id, previous)];
          assert rows == before;
        }
        return;
      }
      rows := rows + [OverlayRow(id, o)];
      AddChangesOne(before, OverlayRow(id, o));
      ok := Persist(writes);
      if !ok {
        rows := rows[..|rows| - 1];
        assert rows == before;
      }
    }

    /** ayllu.cpp:211-220: a failed write puts the row back at the end, which no lookup can tell. */
    method ClearOverlay(id: string, writes: bool) returns (ok: bool)
      requires Valid()
      modifies this
      ensures Valid() && (!ok ==> file == old(file) && forall x :: OverlayFor(rows, x) == old(OverlayFor(rows, x)))
      ensures ok ==> forall x :: OverlayFor(rows, x) == if x == id then None else old(OverlayFor(rows, x))
    {
      var found := Find(id);
      ghost var before := rows;
      if found.None? {
        LookupIs(rows, id);
        return true;
      }
      var k := found.value;
      var removed := rows[k];
      rows := Removed(rows, k);
      RemoveChangesOne(before, k);
      ok := Persist(writes);
      if !ok {
        AddChangesOne(rows, removed);
        LookupIs(before, id);
        rows := rows + [removed];
      }
    }
  }

  /** An order is read as a 32-bit number, whatever the file says. */
  lemma PairKeepsStorable(rows: seq<OverlayRow>, p: Pair)
    requires AllStorable(rows)
    ensures AllStorable(OverlayPair(rows, p))
  {
  }

  lemma {:induction false} DecodedStorable(r: Record)
    ensures AllStorable(Fold(OverlayPair, [], r))
  {
    if r != [] {
      DecodedStorable(r[..|r| - 1]);
      PairKeepsStorable(Fold(OverlayPair, [], r[..|r| - 1]), r[|r| - 1]);
    }
  }

  lemma SetChangesOne(rows: seq<OverlayRow>, k: nat, row: OverlayRow)
    requires OneEach(rows) && AllStorable(rows) && Storable(row) && k < |rows| && rows[k].id == row.id
    ensures var t := rows[k := row];
            OneEach(t) && AllStorable(t) && forall x :: OverlayFor(t, x) == if x == row.id then Some(row.overlay) else OverlayFor(rows, x)
  {
    var t := rows[k := row];
    forall x
      ensures OverlayFor(t, x) == if x == row.id then Some(row.overlay) else OverlayFor(rows, x)
    {
      LookupIs(rows, x);
      LookupIs(t, x);
      if i :| 0 <= i < |rows| && rows[i].id == x {
        assert t[i].id == x;
      }
    }
  }

  lemma AddChangesOne(rows: seq<OverlayRow>, row: OverlayRow)
    requires OneEach(rows) && AllStorable(rows) && Storable(row) && forall i :: 0 <= i < |rows| ==> rows[i].id != row.id
    ensures var t := rows + [row];
            OneEach(t) && AllStorable(t) && forall x :: OverlayFor(t, x) == if x == row.id then Some(row.overlay) else OverlayFor(rows, x)
  {
    var t := rows + [row];
    assert t[..|rows|] == rows;
    forall x
      ensures OverlayFor(t, x) == if x == row.id then Some(row.overlay) else OverlayFor(rows, x)
    {
      LookupIs(rows, x);
    }
  }

  function Removed(rows: seq<OverlayRow>, k: nat): seq<OverlayRow>
    requires k < |rows|
  {
    rows[..k] + rows[k + 1..]
  }

  /** Where a row goes when row `k` is taken out, and where it came from. */
  lemma RowLeft(rows: seq<OverlayRow>, k: nat, j: nat)
    requires k < |rows| && j < |rows| - 1
    ensures Removed(rows, k)[j] == rows[if j < k then j else j + 1]
  {
  }

  lemma RowsLeft(rows: seq<OverlayRow>, k: nat)
    requires OneEach(rows) && AllStorable(rows) && k < |rows|
    ensures var t := Removed(rows, k); OneEach(t) && AllStorable(t) && forall i :: 0 <= i < |t| ==> t[i].id != rows[k].id
  {
    var t := Removed(rows, k);
    forall i | 0 <= i < |t|
      ensures Storable(t[i]) && t[i].id != rows[k].id
    {
      RowLeft(rows, k, i);
    }
    forall i, j | 0 <= i < j < |t|
      ensures t[i].id != t[j].id
    {
      RowLeft(rows, k, i);
      RowLeft(rows, k, j);
    }
  }

  lemma LookupWithout(rows: seq<OverlayRow>, k: nat, x: string)
    requires OneEach(rows) && AllStorable(rows) && k < |rows|
    ensures OverlayFor(Removed(rows, k), x) == if x == rows[k].id then None else OverlayFor(rows, x)
  {
    var t := Removed(rows, k);
    RowsLeft(rows, k);
    LookupIs(rows, x);
    LookupIs(t, x);
    if x != rows[k].id {
      if i :| 0 <= i < |rows| && rows[i].id == x {
        var j := if i < k then i else i - 1;
        RowLeft(rows, k, j);
        assert t[j].id == x;
      } else {
        forall j | 0 <= j < |t|
          ensures t[j].id != x
        {
          RowLeft(rows, k, j);
        }
      }
    }
  }

  lemma RemoveChangesOne(rows: seq<OverlayRow>, k: nat)
    requires OneEach(rows) && AllStorable(rows) && k < |rows|
    ensures var t := Removed(rows, k);
            && OneEach(t) && AllStorable(t) && (forall i :: 0 <= i < |t| ==> t[i].id != rows[k].id)
            && forall x :: OverlayFor(t, x) == if x == rows[k].id then None else OverlayFor(rows, x)
  {
    RowsLeft(rows, k);
    forall x
      ensures OverlayFor(Removed(rows, k), x) == if x == rows[k].id then None else OverlayFor(rows, x)
    {
      LookupWithout(rows, k, x);
    }
  }
}
