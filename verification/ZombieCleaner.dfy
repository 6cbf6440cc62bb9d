/** The zombie cleaner: which zombies it collects, and what draining a list of them gives back. */
module ZombieCleaner {

  import opened TransferIds
  import opened Options

  /** A parked transfer: its record, its descriptor pages, and the mapping it shares with other splits. */
  class Zombie {
    const record: TransferRecord
    const mapping: Option<nat>
    var pages: seq<nat>

    constructor (record: TransferRecord, mapping: Option<nat>, pages: seq<nat>)
      ensures this.record == record && this.mapping == mapping && this.pages == pages
    {
      this.record, this.mapping, this.pages := record, mapping, pages;
    }
  }

  // ---------------------------------------------------------------------------------------------
  // Collecting
  // ---------------------------------------------------------------------------------------------

  /** What the driver finds in a zombie. */
  datatype Parked = Parked(record: TransferRecord, id: nat, claimed: bool, mapping: Option<nat>, pages: seq<nat>)

  function Look(z: Zombie): (p: Parked)
    reads z, z.record
  {
    Parked(z.record, z.record.id, z.record.claimed, z.mapping, z.pages)
  }

  predicate Emptied(z: Zombie)
    reads z, z.record
  {
    z.record.claimed && z.pages == []
  }

  ghost function Records(list: seq<Zombie>): (r: set<TransferRecord>) {
    set z | z in list :: z.record
  }

  function Seen(list: seq<Zombie>): (r: seq<Parked>)
    reads list, Records(list)
  {
    seq(|list|, i requires 0 <= i < |list| reads list, Records(list) => Look(list[i]))
  }

  /** Those whose completion was claimed, or those whose was not, in order. */
  function Sift(list: seq<Zombie>, seen: seq<Parked>, claimed: bool): (r: seq<Zombie>)
    requires |list| == |seen|
  {
    if list == [] then []
    else
      var n := |list| - 1;
      var before := Sift(list[..n], seen[..n], claimed);
      if seen[n].claimed == claimed then before + [list[n]] else before
  }

  /** Nothing is lost between the zombies that stay and those that go. */
  lemma {:induction false} SiftSplits(list: seq<Zombie>, seen: seq<Parked>)
    requires |list| == |seen|
    ensures multiset(list) == multiset(Sift(list, seen, true)) + multiset(Sift(list, seen, false))
  {
    if list != [] {
      var n := |list| - 1;
      assert list == list[..n] + [list[n]];
      SiftSplits(list[..n], seen[..n]);
    }
  }

  // ---------------------------------------------------------------------------------------------
  // Giving back
  // ---------------------------------------------------------------------------------------------

  type Entries = map<nat, TransferRecord>

  /** The counts of the queue, the free pages, the references on each mapping, and the ids in use. */
  datatype Books = Books(waits: int, zombies: int, pool: seq<nat>, refs: map<nat, nat>, entries: Entries)

  /** `mx_sg_context_put`: the last reference unmaps. */
  function Put(refs: map<nat, nat>, m: Option<nat>): (refs': map<nat, nat>) {
    if m.None? || m.value !in refs then refs
    else if refs[m.value] <= 1 then refs - {m.value}
    else refs[m.value := refs[m.value] - 1]
  }

  /** `transfer_id_free`: only an entry that still leads to this record goes. */
  function FreeId(entries: Entries, p: Parked): (entries': Entries) {
    if p.id in entries && entries[p.id] == p.record then entries - {p.id} else entries
  }

  function DrainOne(b: Books, p: Parked): (b': Books) {
    Books(b.waits - (if p.claimed then 0 else 1), b.zombies - 1, b.pool + p.pages, Put(b.refs, p.mapping),
          FreeId(b.entries, p))
  }

  function DrainAll(b: Books, seen: seq<Parked>): (b': Books) {
    if seen == [] then b else DrainOne(DrainAll(b, seen[..|seen| - 1]), seen[|seen| - 1])
  }

  function Unclaimed(seen: seq<Parked>): (n: nat) {
    if seen == [] then 0 else Unclaimed(seen[..|seen| - 1]) + (if seen[|seen| - 1].claimed then 0 else 1)
  }

  function AllPages(seen: seq<Parked>): (r: seq<nat>) {
    if seen == [] then [] else AllPages(seen[..|seen| - 1]) + seen[|seen| - 1].pages
  }

  /** How many of them share a mapping. */
  function Uses(seen: seq<Parked>, m: nat): (n: nat) {
    if seen == [] then 0 else Uses(seen[..|seen| - 1], m) + (if seen[|seen| - 1].mapping == Some(m) then 1 else 0)
  }

  /** The wait count falls by the zombies nobody had claimed, the zombie count by all; all their pages come back, in order. */
  lemma {:induction false} DrainCounts(b: Books, seen: seq<Parked>)
    ensures DrainAll(b, seen).waits == b.waits - Unclaimed(seen)
    ensures DrainAll(b, seen).zombies == b.zombies - |seen|
    ensures DrainAll(b, seen).pool == b.pool + AllPages(seen)
  {
    if seen != [] { DrainCounts(b, seen[..|seen| - 1]); }
  }

  /** A mapping loses as many references as there were splits on it, and is undone exactly when they were its last. */
  lemma {:induction false} DrainPutsMappings(b: Books, seen: seq<Parked>, m: nat)
    requires m in b.refs && b.refs[m] > 0 && Uses(seen, m) <= b.refs[m]
    ensures m in DrainAll(b, seen).refs <==> Uses(seen, m) < b.refs[m]
    ensures m in DrainAll(b, seen).refs ==> DrainAll(b, seen).refs[m] == b.refs[m] - Uses(seen, m)
  {
    if seen != [] { DrainPutsMappings(b, seen[..|seen| - 1], m); }
  }

  /** An id stays, and leads where it led, exactly if it did not lead to one of them under that id. */
  lemma {:induction false} DrainFreesIds(b: Books, seen: seq<Parked>, id: nat)
    requires id in b.entries
    ensures id in DrainAll(b, seen).entries ==> DrainAll(b, seen).entries[id] == b.entries[id]
    ensures id in DrainAll(b, seen).entries <==> forall p :: p in seen ==> !(p.id == id && p.record == b.entries[id])
  {
    if seen != [] {
      var n := |seen| - 1;
      DrainFreesIds(b, seen[..n], id);
      assert seen == seen[..n] + [seen[n]];
    }
  }

  /** Each transfer is on the list once. */
  ghost predicate Distinct(list: seq<Zombie>) {
    forall i, j :: 0 <= i < j < |list| ==> list[i] != list[j] && list[i].record != list[j].record
  }

  class Cleaner {
    const table: IdTable
    var zombies: seq<Zombie>
    var waitCount: int
    var zombieCount: int
    var pool: seq<nat>
    var refs: map<nat, nat>

    constructor ()
      ensures table.Valid() && zombies == [] && Current() == Books(0, 0, [], map[], map[])
    {
      table := new IdTable();
      zombies, waitCount, zombieCount, pool, refs := [], 0, 0, [], map[];
    }

    function Current(): (b: Books)
      reads this, table
    {
      Books(waitCount, zombieCount, pool, refs, table.entries)
    }

    /** One pass over the zombie list: those whose completion was claimed go, and the others stay. */
    method Collect() returns (ready: seq<Zombie>)
      modifies this`zombies
      ensures ready == Sift(old(zombies), old(Seen(zombies)), true)
      ensures zombies == Sift(old(zombies), old(Seen(zombies)), false)
      ensures multiset(old(zombies)) == multiset(ready) + multiset(zombies)
    {
      var list, keep, i := zombies, [], 0;
      ghost var seen := Seen(list);
      ready := [];
      while i < |list|
        invariant 0 <= i <= |list| && list == old(zombies) == zombies
        invariant ready == Sift(list[..i], seen[..i], true) && keep == Sift(list[..i], seen[..i], false)
      {
        assert list[..i + 1][..i] == list[..i] && seen[..i + 1][..i] == seen[..i];
        if list[i].record.claimed { ready := ready + [list[i]]; } else { keep := keep + [list[i]]; }
        i := i + 1;
      }
      assert list[..i] == list && seen[..i] == seen;
      SiftSplits(list, seen);
      zombies := keep;
    }

    /** Claims the completion if nobody has, takes the zombie off the counts, and gives back what it held. */
    method DrainZombie(z: Zombie)
      requires table.Valid()
      modifies this`waitCount, this`zombieCount, this`pool, this`refs, table, z`pages, z.record`claimed
      ensures table.Valid() && Current() == DrainOne(old(Current()), old(Look(z)))
      ensures Emptied(z)
    {
      if !z.record.claimed { waitCount := waitCount - 1; }
      z.record.claimed := true;
      zombieCount := zombieCount - 1;
      pool := pool + z.pages;
      z.pages := [];
      PutMapping(z.mapping);
      table.Free(z.record);
      assert table.entries == FreeId(old(table.entries), old(Look(z)));
    }

    method PutMapping(m: Option<nat>)
      modifies this`refs
      ensures refs == Put(old(refs), m)
    {
      if m.Some? && m.value in refs {
        if refs[m.value] <= 1 { refs := refs - {m.value}; } else { refs := refs[m.value := refs[m.value] - 1]; }
      }
    }

    /** The zombies before the cursor are emptied, and those from it on are as they were. */
    ghost predicate DrainedUpTo(list: seq<Zombie>, seen: seq<Parked>, i: nat)
      requires i <= |list| == |seen|
      reads list, Records(list)
    {
      && (forall k :: 0 <= k < i ==> Emptied(list[k]))
      && (forall k {:trigger Look(list[k])} :: i <= k < |list| ==> Look(list[k]) == seen[k])
    }

    method DrainNext(list: seq<Zombie>, ghost seen: seq<Parked>, i: nat, z: Zombie)
      requires table.Valid() && Distinct(list) && i < |list| == |seen| && z == list[i] && DrainedUpTo(list, seen, i)
      modifies this`waitCount, this`zombieCount, this`pool, this`refs, table, z`pages, z.record`claimed
      ensures table.Valid() && DrainedUpTo(list, seen, i + 1) && Current() == DrainOne(old(Current()), seen[i])
    {
      DrainZombie(z);
    }

    /** `drain_zombie_list`: every zombie of the list is claimed and gives back what it held, once. */
    method Drain(list: seq<Zombie>)
      requires table.Valid() && Distinct(list)
      modifies this`waitCount, this`zombieCount, this`pool, this`refs, table
      modifies list, Records(list)`claimed
      ensures table.Valid() && Current() == DrainAll(old(Current()), old(Seen(list)))
      ensures forall k :: 0 <= k < |list| ==> Emptied(list[k])
    {
      ghost var seen := Seen(list);
      var i := 0;
      while i < |list|
        invariant 0 <= i <= |list| && table.Valid() && DrainedUpTo(list, seen, i)
        invariant Current() == DrainAll(old(Current()), seen[..i])
      {
        DrainNext(list, seen, i, list[i]);
        assert seen[..i + 1][..i] == seen[..i];
        i := i + 1;
      }
      assert seen[..i] == seen;
    }

    /** The end of `zombie_cleanup_handler`: zombies the device may still touch are left alone. */
    method Finish(reclaimSafe: bool)
      requires table.Valid() && Distinct(zombies)
      modifies this, table, zombies, Records(zombies)`claimed
      ensures table.Valid()
      ensures !reclaimSafe ==> zombies == old(zombies) && Current() == old(Current()) && Seen(zombies) == old(Seen(zombies))
      ensures reclaimSafe ==> zombies == [] && Current() == DrainAll(old(Current()), old(Seen(zombies)))
    {
      if reclaimSafe {
        var list := zombies;
        zombies := [];
        Drain(list);
      }
    }
  }
}
