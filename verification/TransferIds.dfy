/** The table from transfer ids to transfers, as the driver updates it in place under its lock. */
module TransferIds {

  /** The first id that is never given to a transfer. */
  const PING_ID: nat := 0xffff

  class TransferRecord {
    var id: nat
    var claimed: bool

    constructor ()
      ensures !claimed
    {
      id, claimed := 0, false;
    }
  }

  class IdTable {
    var entries: map<nat, TransferRecord>
    var cursor: nat

    constructor ()
      ensures Valid() && entries == map[] && cursor == 0
    {
      entries, cursor := map[], 0;
    }

    /** Ids below the one kept for pings; the cursor is where the next search starts. */
    ghost predicate Valid()
      reads this
    {
      cursor <= PING_ID && forall id :: id in entries ==> id < PING_ID
    }

    /** `transfer_id_alloc`: the first free id from the cursor up, or else from zero; none is free only if all are taken. */
    method Alloc(t: TransferRecord) returns (id: int)
      requires Valid()
      modifies this, t`id
      ensures Valid() && t.claimed == old(t.claimed)
      ensures id < 0 ==> entries == old(entries) && cursor == old(cursor) && forall k :: 0 <= k < PING_ID ==> k in entries
      ensures id >= 0 ==> id < PING_ID && id !in old(entries)
      ensures id >= 0 ==> entries == old(entries)[id := t] && t.id == id && cursor == id + 1
      ensures id >= old(cursor) ==> forall k :: old(cursor) <= k < id ==> k in old(entries)
      ensures 0 <= id < old(cursor) ==>
                (forall k :: old(cursor) <= k < PING_ID ==> k in old(entries)) &&
                (forall k :: 0 <= k < id ==> k in old(entries))
    {
      var k := FirstFree(cursor, PING_ID);
      if k == PING_ID {
        k := FirstFree(0, cursor);
        if k == cursor { return -1; }
      }
      entries := entries[k := t];
      t.id := k;
      cursor := k + 1;
      id := k;
    }

    method FirstFree(from: nat, to: nat) returns (k: nat)
      requires from <= to
      ensures from <= k <= to && (k < to ==> k !in entries)
      ensures forall i :: from <= i < k ==> i in entries
    {
      k := from;
      while k < to && k in entries
        invariant from <= k <= to
        invariant forall i :: from <= i < k ==> i in entries
      {
        k := k + 1;
      }
    }

    /** `transfer_id_free`: an id given to another transfer since stays with it. */
    method Free(t: TransferRecord)
      requires Valid()
      modifies this
      ensures Valid() && cursor == old(cursor)
      ensures entries == map id | id in old(entries) && !(id == t.id && old(entries)[id] == t) :: old(entries)[id]
    {
      if t.id in entries && entries[t.id] == t { entries := entries - {t.id}; }
    }

    /** `transfer_id_claim_completion`: whoever finds the claim untaken gets the transfer, once; its id is free again. */
    method Claim(id: nat) returns (t: TransferRecord?)
      requires Valid()
      modifies this, if id in entries then {entries[id]} else {}
      ensures Valid() && cursor == old(cursor)
      ensures t != null <==> id in old(entries) && !old(entries[id].claimed)
      ensures t != null ==> t == old(entries)[id] && t.claimed && t.id == old(t.id) && entries == old(entries) - {id}
      ensures t == null ==> entries == old(entries)
      ensures t == null && id in entries ==> entries[id].claimed && entries[id].id == old(entries[id].id)
    {
      if id !in entries || entries[id].claimed { return null; }
      t := entries[id];
      t.claimed := true;
      entries := entries - {id};
    }
  }
}
