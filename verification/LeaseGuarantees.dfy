/** What the guards mean to the outside: who is alone on a quiescent device, what roles rest on, and what an
    exclusive lock on a liveness byte proves. Faults may happen as long as none breaks the guard in question. */
module LeaseGuarantees {

  import opened Counting
  import opened LeaseMachine
  import opened LeaseSections
  import opened LeaseWorld
  import opened LeaseReferences
  import opened LeaseActivity
  import opened LeaseFaults
  import opened Options

  // ---------------------------------------------------------------------------------------------
  // Exclusivity
  // ---------------------------------------------------------------------------------------------

  /** File `i` is the quiescent publisher, and any direct call, mapping or transfer, zombies included, is its own. */
  ghost predicate Alone(w: World, i: nat) {
    && i in w.ctxs && w.ctxs[i].holder.phase == Quiescent && w.ctxs[i].holder.profile.IsPublisher()
    && (forall j :: j in w.ctxs && Active(w.ctxs[j]) ==> j == i)
    && (forall t :: t in w.transfers ==> w.transfers[t].ctx == i)
  }

  /** The one quiescent holder is a publisher. */
  lemma TheQuiescentPublisher(w: World) returns (i: nat)
    requires Sound(w) && w.dev.sm.quiescent
    ensures i in w.ctxs && w.ctxs[i].holder.phase == Quiescent && w.ctxs[i].holder.profile.IsPublisher()
    ensures forall j :: j in w.ctxs && w.ctxs[j].holder.phase == Quiescent ==> j == i
  {
    var hs := Holdings(w);
    i := CountWitness(hs, IsQuiescent());
    InvKnows(w.dev.sm, hs, i);
    forall j | j in w.ctxs && w.ctxs[j].holder.phase == Quiescent ensures j == i { CountUnique(hs, i, j, IsQuiescent()); }
  }

  /** While the device is quiescent, a file that may act is the quiescent one. */
  lemma MayActIsQuiescent(w: World, j: nat)
    requires Sound(w) && w.dev.sm.quiescent && j in w.ctxs && MayAct(w.ctxs[j].holder)
    ensures w.ctxs[j].holder.phase == Quiescent
  {
    var i := TheQuiescentPublisher(w);
    InvKnows(w.dev.sm, Holdings(w), i);
    InvKnows(w.dev.sm, Holdings(w), j);
  }

  lemma TransferMeansActive(w: World, t: nat)
    requires Referenced(w) && t in w.transfers
    ensures w.transfers[t].ctx in w.ctxs && Active(w.ctxs[w.transfers[t].ctx])
  {
    assert t in Owned(w, w.transfers[t].ctx);
  }

  /** On a quiescent device the publisher is alone exactly while activity is with files that may have it. */
  lemma AloneIffAllowed(w: World) returns (i: nat)
    requires Sound(w) && w.dev.sm.quiescent
    ensures Alone(w, i) <==> ActivityAllowed(w)
  {
    i := TheQuiescentPublisher(w);
    if ActivityAllowed(w) {
      forall j | j in w.ctxs && Active(w.ctxs[j]) ensures j == i { MayActIsQuiescent(w, j); }
      forall t | t in w.transfers ensures w.transfers[t].ctx == i { TransferMeansActive(w, t); }
    }
  }

  /** In every run, up to the first fault that strands activity, a quiescent device is its publisher's alone. */
  lemma QuiescentIsAlone(ws: seq<World>, steps: seq<Step>, n: nat) returns (i: nat)
    requires Run(ws, steps) && n <= |steps| && NoneStrands(ws, steps, n) && ws[n].dev.sm.quiescent
    ensures Alone(ws[n], i)
  {
    RunsAreSound(ws, steps, n);
    AllowedWhileNoneStrands(ws, steps, n);
    i := AloneIffAllowed(ws[n]);
  }

  /** Candidates, prepared initializers and files that are neither leased nor legacy. */
  predicate Bystander(h: Holder) {
    h.phase == Candidate || h.phase == Prepared || (h.profile == NoProfile && !h.legacy)
  }

  /** Bystanders have no activity, in the same runs. */
  lemma BystandersAreInactive(ws: seq<World>, steps: seq<Step>, n: nat, i: nat)
    requires Run(ws, steps) && n <= |steps| && NoneStrands(ws, steps, n) && i in ws[n].ctxs && Bystander(ws[n].ctxs[i].holder)
    ensures !Active(ws[n].ctxs[i]) && forall t :: t in ws[n].transfers ==> ws[n].transfers[t].ctx != i
  {
    var w := ws[n];
    RunsAreSound(ws, steps, n);
    AllowedWhileNoneStrands(ws, steps, n);
    InvKnows(w.dev.sm, Holdings(w), i);
    forall t | t in w.transfers ensures w.transfers[t].ctx != i { TransferMeansActive(w, t); }
  }

  // ---------------------------------------------------------------------------------------------
  // Roles and fences
  // ---------------------------------------------------------------------------------------------

  /** A world some run leads to whose faults, if any, broke no guard. */
  ghost predicate ReachedGuarded(w: World) {
    exists ws, steps :: Run(ws, steps) && NoneBreaks(ws, steps, |steps|) && ws[|steps|] == w
  }

  lemma ReachedIsGuarded(w: World)
    requires ReachedGuarded(w)
    ensures Sound(w) && Guarded(w)
  {
    var ws, steps :| Run(ws, steps) && NoneBreaks(ws, steps, |steps|) && ws[|steps|] == w;
    RunsAreSound(ws, steps, |steps|);
    GuardedWhileNoneBreaks(ws, steps, |steps|);
  }

  /** All replies are delivered. */
  ghost predicate Delivered(steps: seq<Step>) {
    forall k :: 0 <= k < |steps| ==> !steps[k].Fault?
  }

  /** Runs whose replies are all delivered keep every guard. */
  lemma DeliveredRunsAreGuarded(ws: seq<World>, steps: seq<Step>, n: nat)
    requires Run(ws, steps) && n <= |steps| && Delivered(steps)
    ensures Guarded(ws[n])
  {
    GuardedWhileNoneBreaks(ws, steps, n);
  }

  /** Hub files sharing the device, and readiness itself, mean an anchored slot domain; coordinated roles mean
      readiness. */
  lemma RolesAreGrounded(w: World, i: nat)
    requires ReachedGuarded(w) && i in w.ctxs
    ensures var h := w.ctxs[i].holder;
            && (h.profile == HubWorkload || (h.profile == HubPublisher && h.phase != Quiescent) ==> w.dev.slotDomain.Some?)
            && (w.dev.sm.coordinatorReady ==> w.dev.slotDomain.Some?)
            && (h.profile == CoordinatorControl || h.profile == CoordinatorWorkload ==> w.dev.sm.coordinatorReady)
  {
    ReachedIsGuarded(w);
    InvKnows(w.dev.sm, Holdings(w), i);
  }

  lemma BindUnclean(dev: Device, ctx: Context, req: Request)
    requires req.BindReq? && req.identityHeld != EUCLEAN
    requires req.slotLock != Refused(EUCLEAN) && req.lifetimeLock != Refused(EUCLEAN)
    ensures BindSection(dev, ctx, req).err == EUCLEAN ==> BindsSlot(req.seen) && dev.slotDomain.None?
  {
  }

  /** Binding never meets an unanchored slot domain. */
  lemma BindIsNeverUnclean(w: World, s: Step)
    requires ReachedGuarded(w) && Enabled(w, s) && s.Section? && s.req.BindReq? && s.req.identityHeld != EUCLEAN
    requires s.req.slotLock != Refused(EUCLEAN) && s.req.lifetimeLock != Refused(EUCLEAN)
    ensures BindSection(w.dev, w.ctxs[s.id], s.req).err != EUCLEAN
  {
    RolesAreGrounded(w, s.id);
    ReachedIsGuarded(w);
    BindUnclean(w.dev, w.ctxs[s.id], s.req);
  }

  /** A byte that some file or some transfer in flight keeps under a shared lock. */
  ghost predicate Held(w: World, inode: nat, byte: nat) {
    || (exists i, f :: i in w.ctxs && w.ctxs[i].proofs.slotProof == Some(ByteLock(f, inode, byte)))
    || (exists i, f :: i in w.ctxs && w.ctxs[i].proofs.lifetimeProof == Some(ByteLock(f, inode, byte)))
    || (exists t, f :: t in w.transfers && w.transfers[t].slotProof == Some(ByteLock(f, inode, byte)))
    || (exists t, f :: t in w.transfers && w.transfers[t].lifetimeProof == Some(ByteLock(f, inode, byte)))
  }

  /** Whoever can lock a slot's liveness byte exclusively finds no call, mapping or transfer left under that slot. */
  lemma FencedSlotIsQuiet(w: World, slot: nat, i: nat)
    requires ReachedGuarded(w) && w.dev.slotDomain.Some? && !Held(w, w.dev.slotDomain.value, SlotLiveness(slot))
    requires i in w.ctxs && NeedsSlot(w.ctxs[i])
    ensures w.ctxs[i].proofs.slot == slot || w.ctxs[i].proofs.slotProof == None ==>
              w.ctxs[i].direct == 0 && w.ctxs[i].bars == 0
    ensures forall t :: t in w.transfers && w.transfers[t].ctx == i ==> w.transfers[t].slot != slot
  {
    ReachedIsGuarded(w);
    assert Covered(w.ctxs[i]) && Pinned(w.dev, w.ctxs[i].proofs);
    forall t | t in w.transfers && w.transfers[t].ctx == i ensures w.transfers[t].slot != slot {
      assert TransferCovered(w.ctxs[i], w.transfers[t]) && TransferPinned(w.dev, w.transfers[t]);
    }
  }

  /** The same for the liveness byte of a coordinated workload slot, which is in the state file. */
  lemma FencedWorkloadIsQuiet(w: World, slot: nat, i: nat)
    requires ReachedGuarded(w) && w.dev.state.Some? && !Held(w, w.dev.state.value.inode, WorkloadLiveness(slot))
    requires i in w.ctxs && NeedsLifetime(w.ctxs[i])
    ensures var p := w.ctxs[i].proofs;
            p.lifetimeProof == None || (p.tag != 0 && p.tag % (MAX_WORKLOAD_SLOT + 1) == slot) ==>
              w.ctxs[i].direct == 0 && w.ctxs[i].bars == 0
    ensures forall t :: t in w.transfers && w.transfers[t].ctx == i && w.transfers[t].tag != 0 ==>
              w.transfers[t].tag % (MAX_WORKLOAD_SLOT + 1) != slot
  {
    ReachedIsGuarded(w);
    assert Covered(w.ctxs[i]) && Pinned(w.dev, w.ctxs[i].proofs);
    forall t | t in w.transfers && w.transfers[t].ctx == i && w.transfers[t].tag != 0
      ensures w.transfers[t].tag % (MAX_WORKLOAD_SLOT + 1) != slot
    {
      assert TransferCovered(w.ctxs[i], w.transfers[t]) && TransferPinned(w.dev, w.transfers[t]);
    }
  }
}
