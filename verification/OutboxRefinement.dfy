/**
 The outbox of files and names (OutboxFiles) stands for the outbox of numbers (SyncSystem): each
 change of its entries is the change the sync protocol speaks of.
 */
module OutboxRefinement {
  import opened Basics
  import opened Decimal
  import AckRing
  import OutboxFiles
  import SyncSystem

  /** The order of wire.h:30-37; "unknown" has no number here, the server never sends it. */
  function Number(status: AckRing.Status): (n: int)
    ensures 0 <= n < OutboxFiles.UNKNOWN
  {
    match status
    case Sent => 0
    case RejectedInactive => 1
    case RejectedUnknownContact => 2
    case Invalid => 3
    case RejectedUndeliverable => 4
  }

  function Status(n: int): Option<AckRing.Status>
  {
    if n == 1 then Some(AckRing.RejectedInactive)
    else if n == 2 then Some(AckRing.RejectedUnknownContact)
    else if n == 3 then Some(AckRing.Invalid)
    else if n == 4 then Some(AckRing.RejectedUndeliverable)
    else None
  }

  lemma StatusOfNumber(status: AckRing.Status)
    requires status != AckRing.Sent
    ensures Status(Number(status)) == Some(status)
  {
  }

  function AsEntry(e: OutboxFiles.Sheet): SyncSystem.Entry
  {
    SyncSystem.Entry(SyncSystem.Note(e.contactId, e.subject, e.body), if e.rejected then Status(e.status) else None)
  }

  function FileName(id: nat): Name
  {
    Name(FormatLocalId(id))
  }

  /** The entries under the ids given out so far. */
  function AsOutbox(entries: OutboxFiles.Entries, highWater: nat): map<nat, SyncSystem.Entry>
  {
    map id: nat | 0 <= id <= highWater && FileName(id) in entries :: AsEntry(entries[FileName(id)])
  }

  lemma NamesDiffer(a: nat, b: nat)
    requires a != b
    ensures FileName(a) != FileName(b)
  {
    if FormatLocalId(a) == FormatLocalId(b) {
      LocalIdsAreUnique(a, b);
    }
  }

  /** Writing the sheet of one id is writing its entry. */
  lemma WriteIsUpdate(entries: OutboxFiles.Entries, highWater: nat, id: nat, e: OutboxFiles.Sheet)
    requires id <= highWater
    ensures AsOutbox(entries[FileName(id) := e], highWater) == AsOutbox(entries, highWater)[id := AsEntry(e)]
  {
    forall x: nat | x != id
      ensures FileName(x) != FileName(id)
    {
      NamesDiffer(x, id);
    }
  }

  lemma EraseIsRemove(entries: OutboxFiles.Entries, highWater: nat, id: nat)
    ensures AsOutbox(entries - {FileName(id)}, highWater) == AsOutbox(entries, highWater) - {id}
  {
    forall x: nat | x != id
      ensures FileName(x) != FileName(id)
    {
      NamesDiffer(x, id);
    }
  }

  /** FileOutbox.Add, once it has succeeded, is AddCounter and AddEntry. */
  lemma AddRefines(entries: OutboxFiles.Entries, highWater: nat, contactId: string, subject: string, body: string, composedAt: int)
    requires FileName(highWater + 1) !in entries
    ensures var id := FormatLocalId(highWater + 1);
            var e := OutboxFiles.Sheet(id, contactId, subject, body, composedAt, false, OutboxFiles.UNKNOWN);
            AsOutbox(entries[Name(id) := e], highWater + 1)
            == AsOutbox(entries, highWater)[highWater + 1 := SyncSystem.Entry(SyncSystem.Note(contactId, subject, body), None)]
  {
    var id := FormatLocalId(highWater + 1);
    var e := OutboxFiles.Sheet(id, contactId, subject, body, composedAt, false, OutboxFiles.UNKNOWN);
    WriteIsUpdate(entries, highWater + 1, highWater + 1, e);
    assert AsOutbox(entries, highWater + 1) == AsOutbox(entries, highWater);
  }

  /** FileOutbox.Resolve, once it has succeeded, resolves the entry of that id. */
  lemma ResolveRefines(entries: OutboxFiles.Entries, highWater: nat, a: AckRing.Ack)
    requires a.id <= highWater && FileName(a.id) in entries
    ensures var name, n := FileName(a.id), Number(a.status);
            var after := if n == 0 then entries - {name} else entries[name := entries[name].(rejected := true, status := n)];
            AsOutbox(after, highWater) == SyncSystem.Resolved(AsOutbox(entries, highWater), a)
  {
    var name := FileName(a.id);
    if a.status == AckRing.Sent {
      EraseIsRemove(entries, highWater, a.id);
    } else {
      StatusOfNumber(a.status);
      WriteIsUpdate(entries, highWater, a.id, entries[name].(rejected := true, status := Number(a.status)));
    }
  }
}
