/**
 The outbound idempotency ring of the server (internal/state/state.go): the terminal
 outcome of each outbound letter, keyed by the device's local id.
 */
module AckRing {
  import opened Basics

  datatype Status =
    | Sent
    | RejectedInactive
    | RejectedUnknownContact
    | Invalid
    | RejectedUndeliverable

  datatype Ack = Ack(id: nat, status: Status)

  const ACK_RING_SIZE: nat := 4096

  /** What a newest-first scan finds for `id`. */
  function Lookup(ring: seq<Ack>, id: nat): (r: Option<Status>)
    ensures r.None? <==> forall k :: 0 <= k < |ring| ==> ring[k].id != id
    ensures r.Some? ==> Ack(id, r.value) in ring
  {
    if ring == [] then None
    else if ring[|ring| - 1].id == id then Some(ring[|ring| - 1].status)
    else Lookup(ring[..|ring| - 1], id)
  }

  /** Append, then drop the oldest entries past capacity. */
  function Record(ring: seq<Ack>, a: Ack): (r: seq<Ack>)
    ensures |r| <= ACK_RING_SIZE
  {
    LastN(ring + [a], ACK_RING_SIZE)
  }

  /** The newest entry decides: nothing recorded before it can be seen again. */
  lemma {:induction false} LookupSplit(older: seq<Ack>, newer: seq<Ack>, id: nat)
    ensures Lookup(older + newer, id) == if Lookup(newer, id).Some? then Lookup(newer, id) else Lookup(older, id)
  {
    if newer == [] {
      assert older + newer == older;
    } else {
      var n := |newer| - 1;
      assert (older + newer)[..|older| + n] == older + newer[..n];
      LookupSplit(older, newer[..n], id);
    }
  }

  /** Dropping the oldest entries can only forget an id, never bring an older answer back. */
  lemma LookupSuffix(ring: seq<Ack>, k: nat, id: nat)
    requires k <= |ring|
    ensures Lookup(ring[k..], id) == Lookup(ring, id) || Lookup(ring[k..], id).None?
  {
    assert ring[..k] + ring[k..] == ring;
    LookupSplit(ring[..k], ring[k..], id);
  }

  /** Recording answers its own id, and every other id keeps its answer or is forgotten. */
  lemma RecordLookup(ring: seq<Ack>, a: Ack, id: nat)
    ensures Lookup(Record(ring, a), a.id) == Some(a.status)
    ensures id != a.id ==> Lookup(Record(ring, a), id) == Lookup(ring, id) || Lookup(Record(ring, a), id).None?
  {
    var full := ring + [a];
    var r := Record(ring, a);
    assert r[|r| - 1] == a;
    LookupSuffix(full, |full| - |r|, id);
    assert full[..|full| - 1] == ring;
  }

  /** The ring object of state.json. */
  class Ring {
    var entries: seq<Ack>

    constructor ()
      ensures entries == []
    {
      entries := [];
    }

    /** state.go:101-108: scan from the newest entry down. */
    method Find(id: nat) returns (r: Option<Status>)
      ensures r == Lookup(entries, id)
    {
      var i := |entries|;
      assert entries[..i] == entries;
      while i > 0
        invariant 0 <= i <= |entries|
        invariant Lookup(entries, id) == Lookup(entries[..i], id)
      {
        i := i - 1;
        if entries[i].id == id {
          return Some(entries[i].status);
        }
        assert entries[..i + 1][..i] == entries[..i];
      }
      return None;
    }

    /** state.go:114-119: append, then cut the front once over capacity. */
    method Add(id: nat, status: Status)
      modifies this
      ensures entries == Record(old(entries), Ack(id, status))
    {
      entries := entries + [Ack(id, status)];
      var over := |entries| - ACK_RING_SIZE;
      if over > 0 {
        entries := entries[over..];
      }
    }
  }
}
