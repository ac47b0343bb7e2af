/**
 The contact table and its mutations (internal/ayllu/store.go).
 */
module Ayllu {
  import opened Basics
  import opened Addresses

  // ---------------------------------------------------------------- the table

  /** Row ids stand for the "c_..." strings, in the order sort.Strings gives them; 0 stands for c_sys. */
  type Id = nat
  const SYS_ID: Id := 0

  datatype Looks = Looks(name: string, pinned: bool, order: int, portrait: string)
  datatype Contact = Contact(id: Id, address: Address, past: seq<Address>, active: bool, looks: Looks)

  type Table = map<Id, Contact>

  const SYS_CONTACT: Contact := Contact(SYS_ID, Address(SYSTEM_ADDRESS, SYS_KEY), [], true, Looks("Wasi", false, 0, ""))

  predicate HasKey(s: seq<Address>, key: Name)
  {
    exists k :: 0 <= k < |s| && s[k].key == key
  }

  /** store.go:174-193: a past address counts for reading, never for filing or sending. */
  predicate Matches(c: Contact, key: Name, activeOnly: bool)
  {
    if activeOnly then c.active && c.address.key == key
    else c.address.key == key || HasKey(c.past, key)
  }

  function Matching(t: Table, key: Name, activeOnly: bool): set<Id>
  {
    set id | id in t && Matches(t[id], key, activeOnly)
  }

  ghost function Least(s: set<Id>): (m: Id)
    requires s != {}
    ensures m in s && forall x :: x in s ==> m <= x
  {
    var x :| x in s;
    if s == {x} then x
    else
      var rest := Least(s - {x});
      assert forall y :: y in s ==> y == x || y in s - {x};
      if x < rest then x else rest
  }

  /** The contact an address stands for: c_sys, or the first matching row in id order. */
  ghost function Resolve(t: Table, key: Name, activeOnly: bool): (r: Option<Contact>)
  {
    if key == SYS_KEY then Some(SYS_CONTACT)
    else if Matching(t, key, activeOnly) == {} then None
    else Some(t[Least(Matching(t, key, activeOnly))])
  }

  /** What the active view finds, the full view finds too, though perhaps under another row. */
  lemma ActiveIsInFull(t: Table, key: Name)
    ensures Resolve(t, key, true).Some? ==> Resolve(t, key, false).Some?
    ensures Resolve(t, key, true).Some? ==> Resolve(t, key, true).value.active
  {
    assert Matching(t, key, true) <= Matching(t, key, false);
  }

  predicate Sorted(ids: seq<Id>)
  {
    forall i, j :: 0 <= i < j < |ids| ==> ids[i] < ids[j]
  }

  lemma InsertedIds(ids: seq<Id>, k: nat, id: Id)
    requires Sorted(ids) && k <= |ids|
    requires (forall i :: 0 <= i < k ==> ids[i] < id) && (k < |ids| ==> id < ids[k])
    ensures var r := ids[..k] + [id] + ids[k..]; Sorted(r) && forall x :: x in r <==> x in ids || x == id
  {
    var r := ids[..k] + [id] + ids[k..];
    forall i, j | 0 <= i < j < |r|
      ensures r[i] < r[j]
    {
      assert r[i] == if i < k then ids[i] else if i == k then id else ids[i - 1];
      assert r[j] == if j < k then ids[j] else if j == k then id else ids[j - 1];
    }
    assert ids == ids[..k] + ids[k..];
    forall x
      ensures x in r <==> x in ids || x == id
    {
      assert x in r <==> x in ids[..k] || x == id || x in ids[k..];
    }
  }

  method InsertId(ids: seq<Id>, id: Id) returns (r: seq<Id>)
    requires Sorted(ids) && id !in ids
    ensures Sorted(r) && forall x :: x in r <==> x in ids || x == id
  {
    var k := 0;
    while k < |ids| && ids[k] < id
      invariant k <= |ids| && forall i :: 0 <= i < k ==> ids[i] < id
    {
      k := k + 1;
    }
    r := ids[..k] + [id] + ids[k..];
    assert k < |ids| ==> id < ids[k] by {
      assert k < |ids| ==> ids[k] in ids;
    }
    InsertedIds(ids, k, id);
  }

  /** sortedIDsLocked. */
  method SortedIds(keys: set<Id>) returns (ids: seq<Id>)
    ensures Sorted(ids) && forall id :: id in ids <==> id in keys
  {
    ids := [];
    var rest := keys;
    while rest != {}
      invariant Sorted(ids) && rest <= keys
      invariant forall id :: id in ids <==> id in keys && id !in rest
      decreases rest
    {
      var id :| id in rest;
      ids := InsertId(ids, id);
      rest := rest - {id};
    }
  }

  /** store.go:167-195. */
  method ResolveLocked(t: Table, key: Name, activeOnly: bool) returns (r: Option<Contact>)
    ensures r == Resolve(t, key, activeOnly)
  {
    if key == SYS_KEY {
      return Some(SYS_CONTACT);
    }
    var ids := SortedIds(t.Keys);
    for i := 0 to |ids|
      invariant forall k :: 0 <= k < i ==> !Matches(t[ids[k]], key, activeOnly)
    {
      assert ids[i] in ids;
      if Matches(t[ids[i]], key, activeOnly) {
        ghost var all := Matching(t, key, activeOnly);
        assert ids[i] in all;
        assert forall id :: id in all ==> id in ids;
        assert Least(all) == ids[i];
        return Some(t[ids[i]]);
      }
    }
    forall id | id in t
      ensures !Matches(t[id], key, activeOnly)
    {
      assert id in ids;
    }
    return None;
  }

  // ---------------------------------------------------------------- one row's addresses

  lemma HasKeyPush(s: seq<Address>, a: Address, key: Name)
    ensures HasKey(s + [a], key) <==> HasKey(s, key) || a.key == key
  {
    var all := s + [a];
    assert all[|s|] == a && forall k :: 0 <= k < |s| ==> all[k] == s[k];
  }

  /** store.go:456-468: keep what was, without repeats and without the new address. */
  function RetainPast(past: seq<Address>, newKey: Name): (r: seq<Address>)
  {
    if past == [] then []
    else
      var front, last := RetainPast(past[..|past| - 1], newKey), past[|past| - 1];
      if last.text == "" || last.key == newKey || HasKey(front, last.key) then front else front + [last]
  }

  /** The history answers to exactly the keys it was given, less the new one and empty texts. */
  lemma {:induction false} RetainPastKeys(past: seq<Address>, newKey: Name, key: Name)
    requires forall i :: 0 <= i < |past| ==> Proper(past[i])
    ensures key != NO_KEY && key != newKey ==> (HasKey(RetainPast(past, newKey), key) <==> HasKey(past, key))
    ensures forall a :: a in RetainPast(past, newKey) ==> a in past
  {
    if past != [] {
      var front, last := past[..|past| - 1], past[|past| - 1];
      assert past == front + [last];
      RetainPastKeys(front, newKey, key);
      HasKeyPush(front, last, key);
      HasKeyPush(RetainPast(front, newKey), last, key);
    }
  }

  /** The source's loop, with its set of keys already seen. */
  method RetainPastLoop(past: seq<Address>, old': Address, newAddr: Address) returns (kept: seq<Address>)
    ensures kept == RetainPast(past + [old'], newAddr.key)
  {
    var all := past + [old'];
    kept := [];
    var seen := {newAddr.key};
    for i := 0 to |all|
      invariant kept == RetainPast(all[..i], newAddr.key)
      invariant forall key :: key in seen <==> key == newAddr.key || HasKey(kept, key)
    {
      assert all[..i + 1][..i] == all[..i];
      if all[i].text == "" || all[i].key in seen {
        continue;
      }
      forall key
        ensures HasKey(kept + [all[i]], key) <==> HasKey(kept, key) || all[i].key == key
      {
        HasKeyPush(kept, all[i], key);
      }
      seen := seen + {all[i].key};
      kept := kept + [all[i]];
    }
    assert all[..|all|] == all;
  }

  /** The keys a row answers to when read. */
  predicate Answers(c: Contact, key: Name)
  {
    Matches(c, key, false)
  }

  predicate ProperRow(c: Contact)
  {
    Proper(c.address) && forall i :: 0 <= i < |c.past| ==> Proper(c.past[i])
  }

  /** A row moved to a new address. */
  function Moved(c: Contact, addr: Address): Contact
  {
    c.(address := addr, past := RetainPast(c.past + [c.address], addr.key))
  }

  /** It still answers to every key it ever had, but for the empty one. */
  lemma MovedRowKeepsKeys(c: Contact, addr: Address, key: Name)
    requires ProperRow(c) && Proper(addr)
    ensures key != NO_KEY && Answers(c, key) ==> Answers(Moved(c, addr), key)
    ensures ProperRow(Moved(c, addr))
  {
    var all := c.past + [c.address];
    assert forall i :: 0 <= i < |all| ==> Proper(all[i]);
    HasKeyPush(c.past, c.address, key);
    RetainPastKeys(all, addr.key, key);
    var kept := RetainPast(all, addr.key);
    assert forall i :: 0 <= i < |kept| ==> kept[i] in all;
  }

  // ---------------------------------------------------------------- mutations

  datatype Mutation =
    | Add(address: Address, looks: Looks)
    | Deactivate(id: Id)
    | Reactivate(id: Id)
    | Readdress(id: Id, address: Address)
    | Cosmetic(id: Id, looks: Looks)

  datatype Error = SystemContact | UnknownContact | TableFull | NoAddress | SameAddress | NoFreshId

  /** The row a mutation wants written, or why it is refused. */
  datatype Plan = Write(row: Contact) | Refuse(error: Error)

  function Target(m: Mutation): Id
  {
    match m
    case Add(_, _) => SYS_ID + 1
    case Deactivate(id) => id
    case Reactivate(id) => id
    case Readdress(id, _) => id
    case Cosmetic(id, _) => id
  }

  /** store.go:364-482: the apply functions. `freshId` is what nextIDLocked draws, if it can. */
  ghost function PlanOf(t: Table, max: nat, m: Mutation, freshId: Option<Id>): (r: Plan)
  {
    if Target(m) == SYS_ID then Refuse(SystemContact)
    else if (m.Add? || m.Readdress?) && m.address.text != "" && m.address.key == SYS_KEY then Refuse(SystemContact)
    else
      match m
      case Add(addr, looks) =>
        if addr.text == "" then Refuse(NoAddress)
        else
          var same := Matching(t, addr.key, false);
          if same != {} then
            var c := t[Least(same)];
            var moved := if c.address.key == addr.key then c else Moved(c, addr);
            Write(moved.(active := true, looks := looks))
          else if |t| >= max then Refuse(TableFull)
          else if freshId.None? then Refuse(NoFreshId)
          else Write(Contact(freshId.value, addr, [], true, looks))
      case Deactivate(id) => if id !in t then Refuse(UnknownContact) else Write(t[id].(active := false))
      case Reactivate(id) => if id !in t then Refuse(UnknownContact) else Write(t[id].(active := true))
      case Readdress(id, addr) =>
        if id !in t then Refuse(UnknownContact)
        else if addr.text == "" then Refuse(NoAddress)
        else if t[id].address.key == addr.key then Refuse(SameAddress)
        else Write(Moved(t[id], addr))
      case Cosmetic(id, looks) => if id !in t then Refuse(UnknownContact) else Write(t[id].(looks := looks))
  }

  /** A line of ayllu-log.jsonl: what a notice is made from. */
  datatype Event = Event(version: nat, m: Mutation, id: Id)

  /** ayllu.toml and ayllu-log.jsonl. */
  datatype Store = Store(version: nat, table: Table, log: seq<Event>)

  /** What one call meets: the random id, and whether its two writes are refused. */
  datatype Luck = Luck(freshId: Option<Id>, tableWrites: bool, logWrites: bool)

  predicate FreshFor(t: Table, l: Luck)
  {
    l.freshId.Some? ==> l.freshId.value !in t && l.freshId.value != SYS_ID
  }

  /** store.go:272-340 as a value: the table write, then the log line. */
  ghost function Mutated(s: Store, max: nat, m: Mutation, l: Luck): Store
  {
    var p := PlanOf(s.table, max, m, l.freshId);
    if p.Refuse? || !l.tableWrites then s
    else
      var log := if m.Cosmetic? || !l.logWrites then s.log else s.log + [Event(s.version + 1, m, p.row.id)];
      Store(s.version + 1, s.table[p.row.id := p.row], log)
  }

  ghost predicate GoodTable(t: Table)
  {
    SYS_ID !in t && forall id :: id in t ==> t[id].id == id && ProperRow(t[id])
  }

  ghost predicate GoodStore(s: Store)
  {
    && GoodTable(s.table)
    && (forall i :: 0 <= i < |s.log| ==> s.log[i].version <= s.version && !s.log[i].m.Cosmetic?)
    && (forall i, j :: 0 <= i < j < |s.log| ==> s.log[i].version < s.log[j].version)
  }

  predicate ProperMutation(m: Mutation)
  {
    m.Add? || m.Readdress? ==> Proper(m.address)
  }

  /** What a planned row is: its id is in the table or new, and it answers to all its row answered to. */
  lemma PlannedRow(t: Table, max: nat, m: Mutation, l: Luck, key: Name)
    requires GoodTable(t) && FreshFor(t, l) && ProperMutation(m)
    ensures var p := PlanOf(t, max, m, l.freshId);
            p.Write? ==>
              && p.row.id != SYS_ID && ProperRow(p.row)
              && (p.row.id in t && key != NO_KEY && Answers(t[p.row.id], key) ==> Answers(p.row, key))
              && (p.row.id !in t ==> |t| < max)
  {
    var p := PlanOf(t, max, m, l.freshId);
    if p.Write? {
      if m.Add? && Matching(t, m.address.key, false) != {} {
        var c := t[Least(Matching(t, m.address.key, false))];
        MovedRowKeepsKeys(c, m.address, key);
      } else if m.Readdress? {
        MovedRowKeepsKeys(t[m.id], m.address, key);
      }
    }
  }

  lemma MutationKeepsGood(s: Store, max: nat, m: Mutation, l: Luck)
    requires GoodStore(s) && FreshFor(s.table, l) && ProperMutation(m)
    ensures GoodStore(Mutated(s, max, m, l))
  {
    PlannedRow(s.table, max, m, l, NO_KEY);
  }

  /** A key is readable when some row, or c_sys, answers to it. */
  ghost predicate Readable(t: Table, key: Name)
  {
    Resolve(t, key, false).Some?
  }

  lemma ReadableByKeys(t: Table, key: Name)
    ensures Readable(t, key) <==> key == SYS_KEY || exists id :: id in t && Answers(t[id], key)
  {
    if exists id :: id in t && Answers(t[id], key) {
      var id :| id in t && Answers(t[id], key);
      assert Matches(t[id], key, false);
      assert id in Matching(t, key, false);
    }
    if Matching(t, key, false) != {} {
      var id :| id in Matching(t, key, false);
      assert Answers(t[id], key);
    }
  }

  lemma MutationKeepsReadable(s: Store, max: nat, m: Mutation, l: Luck, key: Name)
    requires GoodStore(s) && FreshFor(s.table, l) && ProperMutation(m)
    requires key != NO_KEY && Readable(s.table, key)
    ensures Readable(Mutated(s, max, m, l).table, key)
  {
    var t := Mutated(s, max, m, l).table;
    PlannedRow(s.table, max, m, l, key);
    ReadableByKeys(s.table, key);
    ReadableByKeys(t, key);
    if key != SYS_KEY {
      var id :| id in s.table && Answers(s.table[id], key);
      assert id in t && Answers(t[id], key);
    }
  }

  // ---------------------------------------------------------------- every sequence of calls

  datatype Call = Call(m: Mutation, l: Luck)

  ghost predicate Calls(s: Store, max: nat, calls: seq<Call>, u: Store)
    decreases |calls|
  {
    if calls == [] then s == u
    else
      && FreshFor(s.table, calls[0].l) && ProperMutation(calls[0].m)
      && Calls(Mutated(s, max, calls[0].m, calls[0].l), max, calls[1..], u)
  }

  /**
   Resolution only grows. Over every sequence of mutations, refused writes included: no row
   disappears, the table never grows past its cap, and every non-empty address that once resolved
   in the full table still does.
   */
  lemma {:induction false} ResolutionOnlyGrows(s: Store, max: nat, calls: seq<Call>, u: Store)
    requires GoodStore(s) && Calls(s, max, calls, u)
    ensures GoodStore(u) && s.table.Keys <= u.table.Keys && s.version <= u.version
    ensures |u.table| <= if |s.table| <= max then max else |s.table|
    ensures forall key :: key != NO_KEY && Readable(s.table, key) ==> Readable(u.table, key)
    decreases |calls|
  {
    if calls != [] {
      var m, l := calls[0].m, calls[0].l;
      var s1 := Mutated(s, max, m, l);
      MutationKeepsGood(s, max, m, l);
      PlannedRow(s.table, max, m, l, NO_KEY);
      TableGrowth(s.table, max, m, l);
      forall key | key != NO_KEY && Readable(s.table, key)
        ensures Readable(s1.table, key)
      {
        MutationKeepsReadable(s, max, m, l, key);
      }
      ResolutionOnlyGrows(s1, max, calls[1..], u);
    }
  }

  lemma TableGrowth(t: Table, max: nat, m: Mutation, l: Luck)
    requires GoodTable(t) && FreshFor(t, l) && ProperMutation(m)
    ensures var p := PlanOf(t, max, m, l.freshId);
            p.Write? ==> var t' := t[p.row.id := p.row]; t.Keys <= t'.Keys && (|t'| == |t| || |t'| <= max)
  {
    var p := PlanOf(t, max, m, l.freshId);
    PlannedRow(t, max, m, l, NO_KEY);
    if p.Write? {
      var t' := t[p.row.id := p.row];
      assert t'.Keys == t.Keys + {p.row.id};
      assert |t'.Keys| == |t'| && |t.Keys| == |t|;
      if p.row.id in t {
        assert t'.Keys == t.Keys;
      }
    }
  }

  /** An address just added is one mail is accepted from. */
  lemma AddedIsActive(s: Store, max: nat, addr: Address, looks: Looks, l: Luck)
    requires GoodStore(s) && FreshFor(s.table, l) && Proper(addr)
    requires PlanOf(s.table, max, Add(addr, looks), l.freshId).Write? && l.tableWrites
    ensures var r := Resolve(Mutated(s, max, Add(addr, looks), l).table, addr.key, true);
            r.Some? && r.value.active && r.value.address.key == addr.key
  {
    var t := Mutated(s, max, Add(addr, looks), l).table;
    var row := PlanOf(s.table, max, Add(addr, looks), l.freshId).row;
    assert Matches(t[row.id], addr.key, true);
    assert row.id in Matching(t, addr.key, true);
  }

  // ---------------------------------------------------------------- the store object

  class FileStore {
    const max: nat
    var version: nat          // RAM
    var contacts: Table       // RAM
    var disk: (nat, Table)    // ayllu.toml
    var log: seq<Event>       // ayllu-log.jsonl

    /** RAM never runs ahead of the file. */
    ghost predicate Valid()
      reads this
    {
      disk == (version, contacts) && GoodStore(Store(version, contacts, log))
    }

    ghost function View(): Store
      reads this
    {
      Store(version, contacts, log)
    }

    constructor (max: nat, version: nat, contacts: Table, log: seq<Event>)
      requires GoodStore(Store(version, contacts, log))
      ensures Valid() && this.max == max && View() == Store(version, contacts, log)
    {
      this.max := max;
      this.version := version;
      this.contacts := contacts;
      this.disk := (version, contacts);
      this.log := log;
    }

    /** store.go:345-362: write the row into RAM, persist, and roll both back if that fails. */
    method CommitLocked(row: Contact, writes: bool) returns (ok: bool)
      requires disk == (version, contacts)
      modifies this`version, this`contacts, this`disk
      ensures ok == writes && disk == (version, contacts)
      ensures ok ==> version == old(version) + 1 && contacts == old(contacts)[row.id := row]
      ensures !ok ==> version == old(version) && contacts == old(contacts)
    {
      var had := row.id in contacts;
      var previous := if had then contacts[row.id] else row;
      var previousVersion := version;
      contacts := contacts[row.id := row];
      version := version + 1;
      if writes {
        disk := (version, contacts);
        return true;
      }
      if had {
        contacts := contacts[row.id := previous];
      } else {
        contacts := contacts - {row.id};
      }
      version := previousVersion;
      assert contacts == old(contacts);
      return false;
    }

    /** store.go:364-414. */
    method ApplyAdd(addr: Address, looks: Looks, freshId: Option<Id>) returns (p: Plan)
      requires Valid() && addr.key != SYS_KEY
      ensures p == PlanOf(contacts, max, Add(addr, looks), freshId)
    {
      if addr.text == "" {
        return Refuse(NoAddress);
      }
      var ids := SortedIds(contacts.Keys);
      for i := 0 to |ids|
        invariant forall k :: 0 <= k < i ==> !Matches(contacts[ids[k]], addr.key, false)
      {
        assert ids[i] in ids;
        var c := contacts[ids[i]];
        var current := c.address.key == addr.key;
        if !current && !HasKey(c.past, addr.key) {
          continue;
        }
        ghost var same := Matching(contacts, addr.key, false);
        assert ids[i] in same;
        assert forall id :: id in same ==> id in ids;
        assert Least(same) == ids[i];
        if !current {
          var past := RetainPastLoop(c.past, c.address, addr);
          c := c.(past := past, address := addr);
        }
        return Write(c.(active := true, looks := looks));
      }
      forall id | id in contacts
        ensures !Matches(contacts[id], addr.key, false)
      {
        assert id in ids;
      }
      assert Matching(contacts, addr.key, false) == {};
      if |contacts| >= max {
        return Refuse(TableFull);
      }
      if freshId.None? {
        return Refuse(NoFreshId);
      }
      return Write(Contact(freshId.value, addr, [], true, looks));
    }

    /** store.go:294-308 and 416-482: which apply function, and what it wants written. */
    method Apply(m: Mutation, freshId: Option<Id>) returns (p: Plan)
      requires Valid() && Target(m) != SYS_ID
      requires (m.Add? || m.Readdress?) && m.address.text != "" ==> m.address.key != SYS_KEY
      ensures p == PlanOf(contacts, max, m, freshId)
    {
      match m {
        case Add(addr, looks) =>
          if addr.text == "" {
            return Refuse(NoAddress);
          }
          p := ApplyAdd(addr, looks, freshId);
        case Deactivate(id) =>
          return if id !in contacts then Refuse(UnknownContact) else Write(contacts[id].(active := false));
        case Reactivate(id) =>
          return if id !in contacts then Refuse(UnknownContact) else Write(contacts[id].(active := true));
        case Readdress(id, addr) =>
          if id !in contacts {
            return Refuse(UnknownContact);
          } else if addr.text == "" {
            return Refuse(NoAddress);
          } else if contacts[id].address.key == addr.key {
            return Refuse(SameAddress);
          }
          var past := RetainPastLoop(contacts[id].past, contacts[id].address, addr);
          return Write(contacts[id].(address := addr, past := past));
        case Cosmetic(id, looks) =>
          return if id !in contacts then Refuse(UnknownContact) else Write(contacts[id].(looks := looks));
      }
    }

    /** store.go:272-340. */
    method Mutate(m: Mutation, l: Luck) returns (r: Option<Event>)
      requires Valid() && FreshFor(contacts, l) && ProperMutation(m)
      modifies this
      ensures Valid() && View() == Mutated(old(View()), max, m, l)
      ensures r.Some? <==> PlanOf(old(contacts), max, m, l.freshId).Write? && l.tableWrites && (l.logWrites || m.Cosmetic?)
      ensures r.Some? && !m.Cosmetic? ==> log == old(log) + [r.value]
    {
      MutationKeepsGood(View(), max, m, l);
      if Target(m) == SYS_ID {
        return None;
      }
      if (m.Add? || m.Readdress?) && m.address.text != "" && m.address.key == SYS_KEY {
        return None;
      }
      var p := Apply(m, l.freshId);
      if p.Refuse? {
        return None;
      }
      var ok := CommitLocked(p.row, l.tableWrites);
      if !ok {
        return None;
      }
      var event := Event(version, m, p.row.id);
      if !m.Cosmetic? {
        if !l.logWrites {
          return None;
        }
        log := log + [event];
      }
      return Some(event);
    }
  }
}
