/** What every run keeps: the counts are what they are named for, every completion claims its issuer, and
    nothing the device may still touch is released. */
module TransferSafety {

  import opened Counting
  import opened TransferSteps
  import opened Options

  /** Pushed and not yet claimed: the device owes a completion. */
  predicate IsOwed(x: Transfer) { x.pushed && x.claimer == Nobody }
  predicate IsZombie(x: Transfer) { x.stage in {Numbered, Parked, Collected, Seized, Uncounted} }
  predicate InTable(x: Transfer) { x.claimer != Handler && x.stage != IdFreed }
  predicate Released(x: Transfer) { x.stage in {DescsFreed, MappingPut, IdFreed} }

  /** In the wait count: owed, or counted by the submit thread and about to be pushed, or claimed by the cleaner and about
      to be taken off. */
  predicate IsAwaited(x: Transfer) {
    IsOwed(x) || x.counted || (x.stage == Seized && x.claimer == Cleaner)
  }

  function Awaited(): Transfer -> bool { (x: Transfer) => IsAwaited(x) }
  function Zombies(): Transfer -> bool { (x: Transfer) => IsZombie(x) }

  /** The mapping a transfer has a reference on. */
  function Held(x: Transfer): (m: Option<nat>) { if x.stage == MappingPut || x.stage == IdFreed then None else x.mapping }

  function Maps(m: nat): Transfer -> bool { (x: Transfer) => Held(x) == Some(m) }

  /** What a transfer's stage says about it. */
  predicate Consistent(x: Transfer, safe: bool) {
    && (x.listed ==> x.stage == Waiting && !x.counted && !x.pushed)
    && (x.counted ==> x.stage == Waiting && !x.pushed)
    && (x.claimer != Nobody ==> x.pushed)
    && (x.done ==> x.claimer == Handler)
    && (x.claimer == Cleaner ==> safe && (x.stage in {Seized, Uncounted, Drained} || Released(x)))
    && match x.stage
       case Built => !x.pushed
       case Waiting => x.listed || x.counted || x.pushed
       case Withdrawn => !x.pushed
       case Finished => x.done
       case Late => x.pushed
       case Marked => x.pushed
       case Numbered => x.pushed
       case Parked => x.pushed
       case Collected => x.pushed && (x.claimer != Nobody || safe)
       case Seized => x.claimer != Nobody
       case Uncounted => x.claimer != Nobody
       case Drained => x.claimer != Nobody
       case _ => !x.pushed || x.claimer != Nobody
  }

  ghost predicate AllConsistent(w: System) {
    forall t :: t in w.transfers ==> Consistent(w.transfers[t], w.teardown.reclaimSafe)
  }

  lemma ActKeepsConsistent(x: Transfer, act: Act, safe: bool)
    requires Consistent(x, safe) && Ready(x, act, safe) && (act == Withdraw ==> !x.counted)
    ensures Consistent(After(x, act), safe)
  {
  }

  /** The complete thread works on a transfer that is still there. */
  predicate LockHeldRight(w: System) {
    w.idLock.Some? ==>
      && !w.teardown.stopped && w.idLock.value.transfer in w.transfers
      && (w.idLock.value.told ==> w.idLock.value.saw.Some?) && (w.idLock.value.saw.Some? ==> w.idLock.value.uncounted)
      && var x := w.transfers[w.idLock.value.transfer]; x.claimer == Handler && x.stage != IdFreed
  }

  /** The submit thread holds its lock exactly while it has a transfer in hand. */
  ghost predicate SqLockRight(w: System) {
    && (w.sqLock.Some? ==> !w.teardown.stopped && w.sqLock.value in w.transfers)
    && (forall t :: t in w.transfers ==> (w.transfers[t].counted <==> w.sqLock == Some(t)))
  }

  /** The completion at the head of the queue leads to the transfer that issued it, which is owed one. */
  predicate TakesIssuer(w: System) {
    |w.completions| > 0 &&
    var c := w.completions[0];
    c.id in w.ids && w.ids[c.id] == c.issuer && c.issuer in w.transfers && w.transfers[c.issuer].id == c.id
    && IsOwed(w.transfers[c.issuer]) && InTable(w.transfers[c.issuer])
  }

  lemma OwnKeepsConsistent(w: System, t: nat, act: Act)
    requires AllConsistent(w) && SqLockRight(w) && Can(w, t, act)
    ensures AllConsistent(AfterOwn(w, t, act))
  {
    ActKeepsConsistent(w.transfers[t], act, w.teardown.reclaimSafe);
  }

  lemma ClaimKeepsConsistent(w: System, s: Step)
    requires AllConsistent(w) && LockHeldRight(w) && Enabled(w, s) && (s.Tell? || s.Take?) && (s.Take? ==> TakesIssuer(w))
    ensures AllConsistent(Next(w, s))
  {
  }

  lemma StepKeepsConsistent(w: System, s: Step)
    requires AllConsistent(w) && LockHeldRight(w) && SqLockRight(w) && Enabled(w, s) && (s.Take? ==> TakesIssuer(w))
    ensures AllConsistent(Next(w, s))
  {
    if s.Own? {
      OwnKeepsConsistent(w, s.t, s.act);
    } else if s.Tell? || s.Take? {
      ClaimKeepsConsistent(w, s);
    }
  }

  lemma StepKeepsLock(w: System, s: Step)
    requires LockHeldRight(w) && Enabled(w, s) && (s.Take? ==> TakesIssuer(w))
    ensures LockHeldRight(Next(w, s))
  {
    if s.Own? { OwnKeepsLock(w, s.t, s.act); }
  }

  lemma OwnKeepsLock(w: System, t: nat, act: Act)
    requires LockHeldRight(w) && Can(w, t, act)
    ensures LockHeldRight(AfterOwn(w, t, act))
  {
    ActKeepsClaimer(w.transfers[t], act);
  }

  lemma ActKeepsClaimer(x: Transfer, act: Act)
    ensures x.claimer == Handler ==> After(x, act).claimer == Handler
    ensures act != FreeId && x.stage != IdFreed ==> After(x, act).stage != IdFreed
  {
  }

  lemma OwnKeepsSqLock(w: System, t: nat, act: Act)
    requires AllConsistent(w) && SqLockRight(w) && Can(w, t, act)
    ensures SqLockRight(AfterOwn(w, t, act))
  {
    ActCounted(w.transfers[t], act);
  }

  lemma ActCounted(x: Transfer, act: Act)
    ensures After(x, act).counted == (act == Unlist || (x.counted && act != Push))
  {
  }

  lemma StepKeepsSqLock(w: System, s: Step)
    requires AllConsistent(w) && SqLockRight(w) && LockHeldRight(w) && Enabled(w, s) && (s.Take? ==> TakesIssuer(w))
    ensures SqLockRight(Next(w, s))
  {
    if s.Own? {
      OwnKeepsSqLock(w, s.t, s.act);
    } else if s.Free? {
      assert Consistent(w.transfers[s.t], w.teardown.reclaimSafe);
    }
  }

  // ---------------------------------------------------------------------------------------------
  // The id table
  // ---------------------------------------------------------------------------------------------

  /** An id leads to the transfer that has it, and every transfer not yet claimed or freed can be found. */
  ghost predicate Found(ts: map<nat, Transfer>, ids: map<nat, nat>) {
    && (forall id :: id in ids ==> ids[id] in ts && ts[ids[id]].id == id && InTable(ts[ids[id]]))
    && (forall t :: t in ts && InTable(ts[t]) ==> ts[t].id in ids && ids[ts[t].id] == t)
  }

  ghost predicate IdsRight(w: System) {
    Found(w.transfers, w.ids)
  }

  lemma FoundStill(ts: map<nat, Transfer>, ids: map<nat, nat>, t: nat, x: Transfer)
    requires Found(ts, ids) && t in ts && x.id == ts[t].id && InTable(x) == InTable(ts[t])
    ensures Found(ts[t := x], ids)
  {
  }

  lemma FoundNoMore(ts: map<nat, Transfer>, ids: map<nat, nat>, t: nat, x: Transfer)
    requires Found(ts, ids) && t in ts && x.id == ts[t].id && !InTable(x)
    ensures Found(ts[t := x], if x.id in ids && ids[x.id] == t then ids - {x.id} else ids)
  {
  }

  lemma ActKeepsId(x: Transfer, act: Act, safe: bool)
    requires Ready(x, act, safe) && Consistent(x, safe)
    ensures After(x, act).id == x.id && InTable(After(x, act)) == (InTable(x) && act != FreeId)
  {
  }

  lemma OwnKeepsIds(w: System, t: nat, act: Act)
    requires IdsRight(w) && AllConsistent(w) && Can(w, t, act)
    ensures IdsRight(AfterOwn(w, t, act))
  {
    ActKeepsId(w.transfers[t], act, w.teardown.reclaimSafe);
    if act == FreeId {
      FoundNoMore(w.transfers, w.ids, t, After(w.transfers[t], act));
    } else {
      FoundStill(w.transfers, w.ids, t, After(w.transfers[t], act));
    }
  }

  lemma StepKeepsIds(w: System, s: Step)
    requires IdsRight(w) && AllConsistent(w) && LockHeldRight(w) && Enabled(w, s) && (s.Take? ==> TakesIssuer(w))
    ensures IdsRight(Next(w, s))
  {
    if s.Own? {
      OwnKeepsIds(w, s.t, s.act);
    } else if s.Take? {
      var t := w.completions[0].issuer;
      FoundNoMore(w.transfers, w.ids, t, w.transfers[t].(claimer := Handler));
    } else if s.Tell? {
      var t := w.idLock.value.transfer;
      FoundStill(w.transfers, w.ids, t, Told(w.transfers[t], w.idLock.value.saw.value));
    }
  }

  // ---------------------------------------------------------------------------------------------
  // The counters
  // ---------------------------------------------------------------------------------------------

  /** `wait_count` is the number of pushed, unclaimed transfers, plus those that the submit thread, the complete thread or
      the cleaner is between counting and pushing, or claiming and uncounting; `zombie_wait_count` is the number of
      zombies parked and not drained. */
  ghost predicate CountsRight(w: System) {
    && w.waitCount == Count(w.transfers, Awaited()) + One(w.idLock.Some? && !w.idLock.value.uncounted)
    && w.zombieCount == Count(w.transfers, Zombies())
  }

  lemma ActCounts(x: Transfer, act: Act, safe: bool)
    requires Consistent(x, safe) && Ready(x, act, safe)
    ensures WaitsAfter(0, x, act) == One(IsAwaited(After(x, act))) - One(IsAwaited(x))
    ensures ZombiesAfter(0, act) == One(IsZombie(After(x, act))) - One(IsZombie(x))
  {
  }

  lemma StepKeepsCounts(w: System, s: Step)
    requires CountsRight(w) && AllConsistent(w) && LockHeldRight(w) && Enabled(w, s) && (s.Take? ==> TakesIssuer(w))
    ensures CountsRight(Next(w, s))
  {
    var w' := Next(w, s);
    if s.Own? {
      OwnKeepsCounts(w, s.t, s.act);
    } else if s.Alloc? {
      Recount(w.transfers, s.t, w'.transfers[s.t]);
    } else if s.Take? {
      TakeKeepsCounts(w);
    } else if s.Tell? {
      var t := w.idLock.value.transfer;
      Recount(w.transfers, t, w'.transfers[t]);
    } else if s.Free? {
      assert Consistent(w.transfers[s.t], w.teardown.reclaimSafe);
      CountRemove(w.transfers, s.t, Awaited());
      CountRemove(w.transfers, s.t, Zombies());
    }
  }

  lemma OwnKeepsCounts(w: System, t: nat, act: Act)
    requires CountsRight(w) && AllConsistent(w) && Can(w, t, act)
    ensures CountsRight(AfterOwn(w, t, act))
  {
    ActCounts(w.transfers[t], act, w.teardown.reclaimSafe);
    Recount(w.transfers, t, After(w.transfers[t], act));
  }

  lemma TakeKeepsCounts(w: System)
    requires CountsRight(w) && AllConsistent(w) && Enabled(w, Take) && TakesIssuer(w)
    ensures CountsRight(Next(w, Take))
  {
    var t := w.completions[0].issuer;
    assert Consistent(w.transfers[t], w.teardown.reclaimSafe);
    Recount(w.transfers, t, Next(w, Take).transfers[t]);
  }

  lemma Recount(ts: map<nat, Transfer>, t: nat, x: Transfer)
    ensures Count(ts[t := x], Awaited()) == Count(ts, Awaited()) - One(t in ts && IsAwaited(ts[t])) + One(IsAwaited(x))
    ensures Count(ts[t := x], Zombies()) == Count(ts, Zombies()) - One(t in ts && IsZombie(ts[t])) + One(IsZombie(x))
  {
    CountUpdate(ts, t, x, Awaited());
    CountUpdate(ts, t, x, Zombies());
  }

  // ---------------------------------------------------------------------------------------------
  // Commands at the device
  // ---------------------------------------------------------------------------------------------

  /** A command whose issuer is still owed its completion. */
  predicate Outstanding(ts: map<nat, Transfer>, c: Command) {
    c.issuer in ts && ts[c.issuer].id == c.id && IsOwed(ts[c.issuer])
  }

  ghost predicate OneForOne(ts: map<nat, Transfer>, device: set<Command>, answers: seq<Command>) {
    && (forall c :: c in device ==> Outstanding(ts, c))
    && (forall i :: 0 <= i < |answers| ==> Outstanding(ts, answers[i]) && answers[i] !in device)
    && (forall i, j :: 0 <= i < j < |answers| ==> answers[i] != answers[j])
    && (forall t :: t in ts && IsOwed(ts[t]) ==> Command(ts[t].id, t) in device || Command(ts[t].id, t) in answers)
  }

  /** Until reclaim is declared safe on a device that is gone, the commands at the device and the completions not
      yet taken are, one for one, the transfers that are owed a completion. */
  ghost predicate DeviceRight(w: System) {
    (w.teardown.reclaimSafe && !w.teardown.idleSeen) || OneForOne(w.transfers, w.atDevice, w.completions)
  }

  /** Teardown only goes forward: nobody submits after closing, nothing is owed after a wait count of zero was read then. */
  ghost predicate TeardownRight(w: System) {
    && (w.teardown.closed ==> forall t :: t in w.transfers ==> Settled(w.transfers[t]))
    && (w.teardown.listSeen ==> w.teardown.closed)
    && (w.teardown.waitsSeen ==> w.teardown.listSeen && forall t :: t in w.transfers ==> !IsOwed(w.transfers[t]))
    && (w.teardown.idleSeen ==> w.teardown.waitsSeen)
    && (w.teardown.reclaimSafe ==> w.teardown.closed && w.teardown.stopped && (w.teardown.gone || w.teardown.idleSeen))
  }

  lemma ActKeepsSettled(x: Transfer, act: Act, safe: bool)
    requires Consistent(x, safe) && Ready(x, act, safe) && Settled(x)
    ensures Settled(After(x, act)) && (IsOwed(After(x, act)) ==> IsOwed(x))
  {
  }

  lemma StepKeepsTeardown(w: System, s: Step)
    requires TeardownRight(w) && AllConsistent(w) && CountsRight(w)
    requires Enabled(w, s) && (s.Take? ==> TakesIssuer(w))
    ensures TeardownRight(Next(w, s))
  {
    if s.Own? {
      OwnKeepsTeardown(w, s.t, s.act);
    } else if s.Tear? {
      TearKeepsTeardown(w, s);
    }
  }

  lemma TearKeepsTeardown(w: System, s: Step)
    requires TeardownRight(w) && CountsRight(w) && Enabled(w, s) && s.Tear?
    ensures TeardownRight(Next(w, s))
  {
    if s.event == SeeWaits {
      NoWaitsOwesNothing(w);
    } else {
      LaterKeepsTeardown(w, s.event);
    }
  }

  lemma LaterKeepsTeardown(w: System, e: Event)
    requires TeardownRight(w) && Happens(w, e) && e != SeeWaits
    ensures TeardownRight(w.(teardown := TornAfter(w.teardown, e)))
  {
  }

  lemma OwnKeepsTeardown(w: System, t: nat, act: Act)
    requires TeardownRight(w) && AllConsistent(w) && Can(w, t, act)
    ensures TeardownRight(AfterOwn(w, t, act))
  {
    if w.teardown.closed { ActKeepsSettled(w.transfers[t], act, w.teardown.reclaimSafe); }
  }

  /** What a wait count of zero proves: the device owes nothing. */
  lemma NoWaitsOwesNothing(w: System)
    requires CountsRight(w) && w.waitCount == 0
    ensures forall t :: t in w.transfers ==> !IsOwed(w.transfers[t])
  {
    forall t | t in w.transfers ensures !IsOwed(w.transfers[t]) {
      CountAtLeast(w.transfers, t, Awaited());
    }
  }

  lemma OwedStill(ts: map<nat, Transfer>, device: set<Command>, answers: seq<Command>, t: nat, x: Transfer)
    requires OneForOne(ts, device, answers)
    requires if t in ts then x.id == ts[t].id && IsOwed(x) == IsOwed(ts[t]) else !IsOwed(x)
    ensures OneForOne(ts[t := x], device, answers)
  {
  }

  lemma OwedNow(ts: map<nat, Transfer>, device: set<Command>, answers: seq<Command>, t: nat, x: Transfer)
    requires OneForOne(ts, device, answers) && t in ts && x.id == ts[t].id && !IsOwed(ts[t]) && IsOwed(x)
    ensures OneForOne(ts[t := x], device + {Command(x.id, t)}, answers)
  {
    assert !Outstanding(ts, Command(x.id, t));
  }

  lemma OwedNoMore(ts: map<nat, Transfer>, device: set<Command>, answers: seq<Command>, x: Transfer)
    requires OneForOne(ts, device, answers) && answers != [] && answers[0].issuer in ts
    requires x.id == ts[answers[0].issuer].id && !IsOwed(x)
    ensures OneForOne(ts[answers[0].issuer := x], device, answers[1..])
  {
    assert answers == [answers[0]] + answers[1..];
  }

  lemma Answered(ts: map<nat, Transfer>, device: set<Command>, answers: seq<Command>, c: Command)
    requires OneForOne(ts, device, answers) && c in device
    ensures OneForOne(ts, device - {c}, answers + [c])
  {
    var answers' := answers + [c];
    forall t | t in ts && IsOwed(ts[t])
      ensures Command(ts[t].id, t) in device - {c} || Command(ts[t].id, t) in answers'
    {
      assert c == answers'[|answers|];
    }
  }

  lemma OwedForgotten(ts: map<nat, Transfer>, device: set<Command>, answers: seq<Command>, t: nat)
    requires OneForOne(ts, device, answers) && t in ts && !IsOwed(ts[t])
    ensures OneForOne(ts - {t}, device, answers)
  {
  }

  lemma OwnKeepsDevice(w: System, t: nat, act: Act)
    requires DeviceRight(w) && AllConsistent(w) && TeardownRight(w) && Can(w, t, act)
    ensures DeviceRight(AfterOwn(w, t, act))
  {
    var x, x' := w.transfers[t], After(w.transfers[t], act);
    ActOwes(x, act, w.teardown.reclaimSafe);
    if OneForOne(w.transfers, w.atDevice, w.completions) {
      if act == Push {
        OwedNow(w.transfers, w.atDevice, w.completions, t, x');
      } else if IsOwed(x') == IsOwed(x) {
        OwedStill(w.transfers, w.atDevice, w.completions, t, x');
      }
    }
  }

  /** Only a push makes a transfer owed, and only a safe claim of the cleaner's ends it short of a completion. */
  lemma ActOwes(x: Transfer, act: Act, safe: bool)
    requires Consistent(x, safe) && Ready(x, act, safe)
    ensures After(x, act).id == x.id
    ensures act == Push ==> !IsOwed(x) && IsOwed(After(x, act))
    ensures act != Push && IsOwed(After(x, act)) != IsOwed(x) ==> act == Seize && safe && IsOwed(x)
  {
  }

  lemma StepKeepsDevice(w: System, s: Step)
    requires DeviceRight(w) && AllConsistent(w) && TeardownRight(w) && LockHeldRight(w)
    requires Enabled(w, s) && (s.Take? ==> TakesIssuer(w))
    ensures DeviceRight(Next(w, s))
  {
    if s.Own? {
      OwnKeepsDevice(w, s.t, s.act);
    } else if OneForOne(w.transfers, w.atDevice, w.completions) {
      OthersKeepDevice(w, s);
    }
  }

  lemma OthersKeepDevice(w: System, s: Step)
    requires OneForOne(w.transfers, w.atDevice, w.completions) && AllConsistent(w) && LockHeldRight(w)
    requires Enabled(w, s) && !s.Own? && (s.Take? ==> TakesIssuer(w))
    ensures var w' := Next(w, s); OneForOne(w'.transfers, w'.atDevice, w'.completions)
  {
    var ts, device, answers := w.transfers, w.atDevice, w.completions;
    if s.Alloc? {
      OwedStill(ts, device, answers, s.t, Next(w, s).transfers[s.t]);
    } else if s.Answer? {
      Answered(ts, device, answers, s.c);
    } else if s.Take? {
      OwedNoMore(ts, device, answers, ts[answers[0].issuer].(claimer := Handler));
    } else if s.Tell? {
      var t := w.idLock.value.transfer;
      OwedStill(ts, device, answers, t, Told(ts[t], w.idLock.value.saw.value));
    } else if s.Free? {
      assert Consistent(ts[s.t], w.teardown.reclaimSafe);
      OwedForgotten(ts, device, answers, s.t);
    }
  }

  // ---------------------------------------------------------------------------------------------
  // Shared mappings
  // ---------------------------------------------------------------------------------------------

  /** A mapping has one reference for its creator and one for each split that has not put it. */
  ghost predicate Referenced(ts: map<nat, Transfer>, ms: map<nat, Mapping>) {
    && (forall m :: m in ms ==> ms[m].refs == One(ms[m].creator) + Count(ts, Maps(m)) && ms[m].refs > 0)
    && (forall t :: t in ts && Held(ts[t]).Some? ==> Held(ts[t]).value in ms)
  }

  ghost predicate MappingsRight(w: System) {
    Referenced(w.transfers, w.mappings)
  }

  lemma MapsUpdate(ts: map<nat, Transfer>, t: nat, x: Transfer)
    ensures forall m: nat ::
              Count(ts[t := x], Maps(m)) == Count(ts, Maps(m)) - One(t in ts && Maps(m)(ts[t])) + One(Maps(m)(x))
  {
    forall m: nat
      ensures Count(ts[t := x], Maps(m)) == Count(ts, Maps(m)) - One(t in ts && Maps(m)(ts[t])) + One(Maps(m)(x))
    {
      CountUpdate(ts, t, x, Maps(m));
    }
  }

  lemma SameReference(ts: map<nat, Transfer>, ms: map<nat, Mapping>, t: nat, x: Transfer)
    requires Referenced(ts, ms) && (if t in ts then Held(x) == Held(ts[t]) else Held(x) == None)
    ensures Referenced(ts[t := x], ms)
  {
    MapsUpdate(ts, t, x);
  }

  lemma ReferenceGot(ts: map<nat, Transfer>, ms: map<nat, Mapping>, t: nat, x: Transfer)
    requires Referenced(ts, ms) && t !in ts && Held(x).Some? && Held(x).value in ms
    ensures Referenced(ts[t := x], Get(ms, Held(x).value))
  {
    MapsUpdate(ts, t, x);
  }

  lemma ReferencePut(ts: map<nat, Transfer>, ms: map<nat, Mapping>, t: nat, x: Transfer)
    requires Referenced(ts, ms) && t in ts && Held(ts[t]).Some? && Held(x).None?
    ensures var m := Held(ts[t]).value; Referenced(ts[t := x], Put(ms, m, ms[m].creator))
  {
    var m, ts' := Held(ts[t]).value, ts[t := x];
    CountUpdate(ts, t, x, Maps(m));
    CountMember(ts, t, Maps(m));
    var ms' := Put(ms, m, ms[m].creator);
    if ms[m].refs == 1 { Unheld(ts', m); }
    forall k | k in ms'
      ensures ms'[k].refs == One(ms'[k].creator) + Count(ts', Maps(k)) && ms'[k].refs > 0
    {
      CountUpdate(ts, t, x, Maps(k));
    }
  }

  lemma Unheld(ts: map<nat, Transfer>, m: nat)
    requires Count(ts, Maps(m)) == 0
    ensures forall t :: t in ts ==> Held(ts[t]) != Some(m)
  {
    forall t | t in ts ensures Held(ts[t]) != Some(m) { CountAtLeast(ts, t, Maps(m)); }
  }

  lemma CreatorReferencePut(ts: map<nat, Transfer>, ms: map<nat, Mapping>, m: nat)
    requires Referenced(ts, ms) && m in ms && ms[m].creator
    ensures Referenced(ts, Put(ms, m, false))
  {
    if ms[m].refs == 1 { Unheld(ts, m); }
  }

  lemma ReferenceForgotten(ts: map<nat, Transfer>, ms: map<nat, Mapping>, t: nat)
    requires Referenced(ts, ms) && t in ts && Held(ts[t]).None?
    ensures Referenced(ts - {t}, ms)
  {
    forall m: nat ensures Count(ts - {t}, Maps(m)) == Count(ts, Maps(m)) { CountRemove(ts, t, Maps(m)); }
  }

  lemma NothingHolds(ts: map<nat, Transfer>, ms: map<nat, Mapping>, m: nat)
    requires Referenced(ts, ms) && m !in ms
    ensures Count(ts, Maps(m)) == 0
  {
    if Count(ts, Maps(m)) > 0 {
      var t := CountWitness(ts, Maps(m));
      assert false;
    }
  }

  lemma ActHeld(x: Transfer, act: Act, safe: bool)
    requires Ready(x, act, safe)
    ensures Held(After(x, act)) == if act == PutMapping then None else Held(x)
    ensures act == PutMapping ==> Held(x) == x.mapping
  {
  }

  lemma OwnKeepsMappings(w: System, t: nat, act: Act)
    requires MappingsRight(w) && Can(w, t, act)
    ensures MappingsRight(AfterOwn(w, t, act))
  {
    var x, x' := w.transfers[t], After(w.transfers[t], act);
    ActHeld(x, act, w.teardown.reclaimSafe);
    if act == PutMapping && x.mapping.Some? {
      ReferencePut(w.transfers, w.mappings, t, x');
    } else {
      SameReference(w.transfers, w.mappings, t, x');
    }
  }

  lemma StepKeepsMappings(w: System, s: Step)
    requires MappingsRight(w) && LockHeldRight(w) && Enabled(w, s) && (s.Take? ==> TakesIssuer(w))
    ensures MappingsRight(Next(w, s))
  {
    var ts, ms, w' := w.transfers, w.mappings, Next(w, s);
    if s.Own? {
      OwnKeepsMappings(w, s.t, s.act);
    } else if s.Create? {
      NothingHolds(ts, ms, s.mapping);
    } else if s.CreatorPut? {
      CreatorReferencePut(ts, ms, s.mapping);
    } else if s.Alloc? {
      if s.of.Some? { ReferenceGot(ts, ms, s.t, w'.transfers[s.t]); } else { SameReference(ts, ms, s.t, w'.transfers[s.t]); }
    } else if s.Free? {
      ReferenceForgotten(ts, ms, s.t);
    } else if s.Take? {
      var t := w.completions[0].issuer;
      SameReference(ts, ms, t, w'.transfers[t]);
    } else if s.Tell? {
      var t := w.idLock.value.transfer;
      SameReference(ts, ms, t, w'.transfers[t]);
    }
  }

  // ---------------------------------------------------------------------------------------------
  // Every run
  // ---------------------------------------------------------------------------------------------

  ghost predicate Safe(w: System) {
    && AllConsistent(w) && LockHeldRight(w) && SqLockRight(w) && IdsRight(w) && CountsRight(w)
    && TeardownRight(w) && DeviceRight(w) && MappingsRight(w)
  }

  lemma CompletionFindsIssuer(w: System)
    requires Safe(w) && Enabled(w, Take)
    ensures TakesIssuer(w)
  {
    assert Outstanding(w.transfers, w.completions[0]);
    assert Consistent(w.transfers[w.completions[0].issuer], w.teardown.reclaimSafe);
  }

  lemma InitSafe(w: System)
    requires Init(w)
    ensures Safe(w)
  {
    assert Matching(w.transfers, Awaited()) == {} && Matching(w.transfers, Zombies()) == {};
  }

  lemma StepKeepsSafe(w: System, s: Step)
    requires Safe(w) && Enabled(w, s)
    ensures Safe(Next(w, s))
  {
    if s.Take? { CompletionFindsIssuer(w); }
    StepKeepsConsistent(w, s);
    StepKeepsLock(w, s);
    StepKeepsSqLock(w, s);
    StepKeepsIds(w, s);
    StepKeepsCounts(w, s);
    StepKeepsTeardown(w, s);
    StepKeepsDevice(w, s);
    StepKeepsMappings(w, s);
  }

  lemma {:induction false} RunsAreSafe(ws: seq<System>, steps: seq<Step>, k: nat)
    requires Run(ws, steps) && k < |ws|
    ensures Safe(ws[k])
  {
    if k == 0 {
      InitSafe(ws[0]);
    } else {
      RunsAreSafe(ws, steps, k - 1);
      StepKeepsSafe(ws[k - 1], steps[k - 1]);
    }
  }

  lemma ReachedIsSafe(w: System)
    requires Reached(w)
    ensures Safe(w)
  {
    var ws, steps :| Run(ws, steps) && ws[|steps|] == w;
    RunsAreSafe(ws, steps, |steps|);
  }
}
