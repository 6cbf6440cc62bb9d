/** The life of transfers between submitters, the submit and complete threads, the zombie cleaner, teardown
    and a device that answers each command once; one lock section or atomic operation a step. */
module TransferSteps {

  import TransferIds
  import opened Options

  /** How far the thread that owns a transfer has got with it. */
  datatype Stage =
    | Built        // allocated, not yet queued
    | Waiting      // queued, its waiter waits
    | Late         // the waiter gave up and did not find it on the submit list
    | Withdrawn    // the waiter took it back off the submit list
    | Finished     // the waiter saw its completion
    | Marked       // flagged as a zombie
    | Numbered     // and counted as one
    | Parked       // on the zombie list
    | Collected    // taken off it by the cleaner
    | Seized       // its completion claimed, by the cleaner if by nobody before
    | Uncounted    // no longer in the wait count
    | Drained      // nor in the zombie count
    | DescsFreed   // descriptor lists returned to the pool
    | MappingPut   // its reference on the shared mapping dropped
    | IdFreed      // its id given back; only the record itself is left

  datatype Claimer = Nobody | Handler | Cleaner

  /** `struct mx_transfer`, with the ownership stage. It is on the submit list, in the hands of the submit thread, which
      has counted it, or pushed to the device. */
  datatype Transfer = Transfer(id: nat, mapping: Option<nat>, stage: Stage, listed: bool, counted: bool, pushed: bool,
                               claimer: Claimer, done: bool, zombie: bool)

  /** `struct mx_sg_context`: its reference count, and whether its creator still has one. */
  datatype Mapping = Mapping(refs: nat, creator: bool)

  /** A command at the device: the id it will answer with, and the transfer it was built from. */
  datatype Command = Command(id: nat, issuer: nat)

  /** The complete thread inside the id lock: whom it claimed, and what it has done since: taken it off the wait count,
      looked whether it is a zombie, told the waiter if not. */
  datatype Claim = Claim(transfer: nat, uncounted: bool, saw: Option<bool>, told: bool)

  /** Where teardown has got to. The idle test reads the submit list, the wait count and the zombie count, one by one. */
  datatype Teardown = Teardown(closed: bool, listSeen: bool, waitsSeen: bool, idleSeen: bool, stopped: bool, gone: bool,
                               reclaimSafe: bool)

  datatype System = System(transfers: map<nat, Transfer>, mappings: map<nat, Mapping>, ids: map<nat, nat>,
                           sqLock: Option<nat>, idLock: Option<Claim>, waitCount: int, zombieCount: int,
                           atDevice: set<Command>, completions: seq<Command>, teardown: Teardown)

  /** What the thread that has a transfer, or the submit thread, does with it. */
  datatype Act =
    | Enqueue | Unlist | Push | SeeDone | Withdraw | Mark | Number | Park
    | Collect | Seize | Uncount | Discount | FreeDescs | PutMapping | FreeId

  /** What the teardown path, or the bus, does. */
  datatype Event = Close | SeeList | SeeWaits | SeeZombies | Stop | Unplug | DeclareSafe

  datatype Step =
    | Create(mapping: nat)
    | CreatorPut(mapping: nat)
    | Alloc(t: nat, id: nat, of: Option<nat>)
    | Own(t: nat, act: Act)
    | Free(t: nat)
    | Answer(c: Command)
    | Take
    | TakeOff
    | Check
    | Tell
    | Unlock
    | Tear(event: Event)

  /** Stages a transfer can be in once no submitter or waiter is left. */
  predicate Settled(x: Transfer) {
    x.stage in {Parked, Collected, Seized, Uncounted, Drained, DescsFreed, MappingPut, IdFreed}
  }

  /** Where each act finds a transfer. The cleaner collects what was claimed, and anything once that is safe. */
  predicate Ready(x: Transfer, act: Act, safe: bool) {
    match act
    case Enqueue => x.stage == Built
    case Unlist => x.listed
    case Push => x.counted
    case SeeDone => (x.stage == Waiting || x.stage == Late) && x.done
    case Withdraw => x.stage == Waiting
    case Mark => x.stage == Late
    case Number => x.stage == Marked
    case Park => x.stage == Numbered
    case Collect => x.stage == Parked && (x.claimer != Nobody || safe)
    case Seize => x.stage == Collected
    case Uncount => x.stage == Seized
    case Discount => x.stage == Uncounted
    case FreeDescs => x.stage == Built || x.stage == Withdrawn || x.stage == Finished || x.stage == Drained
    case PutMapping => x.stage == DescsFreed
    case FreeId => x.stage == MappingPut
  }

  /** And how it leaves it. A waiter that gives up takes the transfer back if it is still on the submit list;
      a collected transfer whose completion nobody claimed is claimed by the cleaner. */
  function After(x: Transfer, act: Act): (x': Transfer) {
    match act
    case Enqueue => x.(stage := Waiting, listed := true)
    case Unlist => x.(listed := false, counted := true)
    case Push => x.(counted := false, pushed := true)
    case SeeDone => x.(stage := Finished)
    case Withdraw => if x.listed then x.(listed := false, stage := Withdrawn) else x.(stage := Late)
    case Mark => x.(stage := Marked, zombie := true)
    case Number => x.(stage := Numbered)
    case Park => x.(stage := Parked)
    case Collect => x.(stage := Collected)
    case Seize => x.(stage := Seized, claimer := if x.claimer == Nobody then Cleaner else x.claimer)
    case Uncount => x.(stage := Uncounted)
    case Discount => x.(stage := Drained)
    case FreeDescs => x.(stage := DescsFreed)
    case PutMapping => x.(stage := MappingPut)
    case FreeId => x.(stage := IdFreed)
  }

  /** When teardown makes its moves: it closes once no submitter or waiter is left, and `mxdma_io_queue_idle` reads on
      only while it finds nothing. */
  predicate Happens(w: System, e: Event) {
    match e
    case Close => forall t :: t in w.transfers ==> Settled(w.transfers[t])
    case SeeList =>
      && w.teardown.closed && !w.teardown.reclaimSafe && w.sqLock.None?
      && forall t :: t in w.transfers ==> !w.transfers[t].listed
    case SeeWaits => w.teardown.listSeen && !w.teardown.reclaimSafe && w.waitCount == 0
    case SeeZombies => w.teardown.waitsSeen && !w.teardown.reclaimSafe && w.zombieCount == 0
    case Stop => w.sqLock.None? && w.idLock.None?
    case Unplug => true
    case DeclareSafe => w.teardown.closed && w.teardown.stopped && (w.teardown.gone || w.teardown.idleSeen)
  }

  /** The locks an act needs, the thread it is for, and the mapping it puts. */
  predicate Can(w: System, t: nat, act: Act) {
    && t in w.transfers && Ready(w.transfers[t], act, w.teardown.reclaimSafe)
    && (act == Enqueue || act == Withdraw ==> w.sqLock.None?) && (act == FreeId ==> w.idLock.None?)
    && (act == Unlist ==> w.sqLock.None? && !w.teardown.stopped) && (act == Push ==> w.sqLock == Some(t))
    && (act == PutMapping && w.transfers[t].mapping.Some? ==> w.transfers[t].mapping.value in w.mappings)
  }

  predicate Enabled(w: System, s: Step) {
    match s
    case Create(m) => m !in w.mappings && !w.teardown.closed
    case CreatorPut(m) => m in w.mappings && w.mappings[m].creator
    case Alloc(t, id, of) =>
      && !w.teardown.closed && t !in w.transfers && id !in w.ids && id < TransferIds.PING_ID
      && (of.Some? ==> of.value in w.mappings && w.mappings[of.value].creator)
    case Own(t, act) => Can(w, t, act)
    case Free(t) => t in w.transfers && w.transfers[t].stage == IdFreed
    case Answer(c) => !w.teardown.gone && c in w.atDevice
    case Take => !w.teardown.stopped && w.idLock.None? && |w.completions| > 0
    case TakeOff => w.idLock.Some? && !w.idLock.value.uncounted
    case Check =>
      w.idLock.Some? && w.idLock.value.uncounted && w.idLock.value.saw.None? && w.idLock.value.transfer in w.transfers
    case Tell =>
      w.idLock.Some? && w.idLock.value.saw.Some? && !w.idLock.value.told && w.idLock.value.transfer in w.transfers
    case Unlock => w.idLock.Some? && w.idLock.value.told
    case Tear(e) => Happens(w, e)
  }

  /** `mx_sg_context_get` and `mx_sg_context_put`: the last reference unmaps. */
  function Get(ms: map<nat, Mapping>, m: nat): (ms': map<nat, Mapping>)
    requires m in ms
  {
    ms[m := ms[m].(refs := ms[m].refs + 1)]
  }

  function Put(ms: map<nat, Mapping>, m: nat, creator: bool): (ms': map<nat, Mapping>)
    requires m in ms
  {
    if ms[m].refs <= 1 then ms - {m} else ms[m := Mapping(ms[m].refs - 1, creator)]
  }

  function MappingsAfter(ms: map<nat, Mapping>, x: Transfer, act: Act): (ms': map<nat, Mapping>)
    requires act == PutMapping && x.mapping.Some? ==> x.mapping.value in ms
  {
    if act == PutMapping && x.mapping.Some? then Put(ms, x.mapping.value, ms[x.mapping.value].creator) else ms
  }

  /** `transfer_id_free`: only an entry that still leads to this transfer goes. */
  function IdsAfter(ids: map<nat, nat>, t: nat, id: nat, act: Act): (ids': map<nat, nat>) {
    if act == FreeId && id in ids && ids[id] == t then ids - {id} else ids
  }

  function WaitsAfter(n: int, x: Transfer, act: Act): (n': int) {
    if act == Unlist then n + 1 else if act == Uncount && x.claimer == Cleaner then n - 1 else n
  }

  function ZombiesAfter(n: int, act: Act): (n': int) {
    if act == Number then n + 1 else if act == Discount then n - 1 else n
  }

  function CommandsAfter(cs: set<Command>, t: nat, x: Transfer, act: Act): (cs': set<Command>) {
    if act == Push then cs + {Command(x.id, t)} else cs
  }

  /** The submit thread holds the submit lock from taking a transfer off the list to pushing it. */
  function SqLockAfter(lock: Option<nat>, t: nat, act: Act): (lock': Option<nat>) {
    if act == Unlist then Some(t) else if act == Push then None else lock
  }

  function TornAfter(d: Teardown, e: Event): (d': Teardown) {
    match e
    case Close => d.(closed := true)
    case SeeList => d.(listSeen := true)
    case SeeWaits => d.(waitsSeen := true)
    case SeeZombies => d.(idleSeen := true)
    case Stop => d.(stopped := true)
    case Unplug => d.(gone := true)
    case DeclareSafe => d.(reclaimSafe := true)
  }

  /** `transfer_id_claim_completion` for the completion at the head of the queue; an unknown or claimed id is dropped. */
  function TakeCompletion(w: System): (w': System)
    requires |w.completions| > 0
  {
    var c := w.completions[0];
    var rest := w.(completions := w.completions[1..]);
    if c.id in w.ids && w.ids[c.id] in w.transfers && w.transfers[w.ids[c.id]].claimer == Nobody then
      var t := w.ids[c.id];
      rest.(transfers := w.transfers[t := w.transfers[t].(claimer := Handler)], ids := w.ids - {c.id},
            idLock := Some(Claim(t, false, None, false)))
    else rest
  }

  /** The complete thread tells the waiter, unless it saw a zombie. */
  function Told(x: Transfer, sawZombie: bool): (x': Transfer) {
    if sawZombie then x else x.(done := true)
  }

  function AfterOwn(w: System, t: nat, act: Act): (w': System)
    requires Can(w, t, act)
  {
    var x := w.transfers[t];
    System(w.transfers[t := After(x, act)], MappingsAfter(w.mappings, x, act), IdsAfter(w.ids, t, x.id, act),
           SqLockAfter(w.sqLock, t, act), w.idLock, WaitsAfter(w.waitCount, x, act), ZombiesAfter(w.zombieCount, act),
           CommandsAfter(w.atDevice, t, x, act), w.completions, w.teardown)
  }

  function Next(w: System, s: Step): (w': System)
    requires Enabled(w, s)
  {
    match s
    case Create(m) => w.(mappings := w.mappings[m := Mapping(1, true)])
    case CreatorPut(m) => w.(mappings := Put(w.mappings, m, false))
    case Alloc(t, id, of) =>
      w.(transfers := w.transfers[t := Transfer(id, of, Built, false, false, false, Nobody, false, false)],
         ids := w.ids[id := t], mappings := if of.Some? then Get(w.mappings, of.value) else w.mappings)
    case Own(t, act) => AfterOwn(w, t, act)
    case Free(t) => w.(transfers := w.transfers - {t})
    case Answer(c) => w.(atDevice := w.atDevice - {c}, completions := w.completions + [c])
    case Take => TakeCompletion(w)
    case TakeOff => w.(waitCount := w.waitCount - 1, idLock := Some(w.idLock.value.(uncounted := true)))
    case Check =>
      w.(idLock := Some(w.idLock.value.(saw := Some(w.transfers[w.idLock.value.transfer].zombie))))
    case Tell =>
      var t := w.idLock.value.transfer;
      w.(idLock := Some(w.idLock.value.(told := true)),
         transfers := w.transfers[t := Told(w.transfers[t], w.idLock.value.saw.value)])
    case Unlock => w.(idLock := None)
    case Tear(e) => w.(teardown := TornAfter(w.teardown, e))
  }

  ghost predicate Init(w: System) {
    w == System(map[], map[], map[], None, None, 0, 0, {}, [], Teardown(false, false, false, false, false, false, false))
  }

  ghost predicate Run(ws: seq<System>, steps: seq<Step>) {
    && |ws| == |steps| + 1 && Init(ws[0])
    && forall k :: 0 <= k < |steps| ==> Enabled(ws[k], steps[k]) && ws[k + 1] == Next(ws[k], steps[k])
  }

  /** A state some run leads to. */
  ghost predicate Reached(w: System) {
    exists ws, steps :: Run(ws, steps) && ws[|steps|] == w
  }
}
