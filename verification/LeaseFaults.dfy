/** What replies that cannot be delivered do to a run: the undo of a transition is always safe for the counters,
    and for each guard exactly which faults break it, in one step and over every run. */
module LeaseFaults {

  import opened LeaseMachine
  import opened LeaseSections
  import opened LeaseWorld
  import opened LeaseReferences
  import opened LeaseAnchor
  import opened LeaseActivity
  import opened Options

  /** What a faulted transition leaves: its change in place, or the old words back; nobody else's. */
  ghost predicate UndoneOrCommitted(w: World, w': World, i: nat, call: Call)
    requires i in w.ctxs && call.TransitionCall?
  {
    && w'.ctxs.Keys == w.ctxs.Keys
    && (if w.dev.sm == call.newSm && w.ctxs[i].holder == call.newHolder
        then w'.dev.sm == call.oldSm && w'.ctxs[i].holder == call.oldHolder
        else w'.dev.sm == w.dev.sm && w'.ctxs[i].holder == w.ctxs[i].holder)
    && (forall j :: j in w.ctxs && j != i ==> w'.ctxs[j] == w.ctxs[j])
  }

  lemma UndoWords(w: World, s: Step)
    requires Enabled(w, s) && s.Fault? && w.calls[s.call].call.TransitionCall?
    ensures UndoneOrCommitted(w, Next(w, s), w.calls[s.call].ctx, w.calls[s.call].call)
  {
  }

  /** Whatever the others did between unlock and relock, even if they came back to the same words, a faulted
      transition stays committed or is put back word for word, touches no other file, and keeps every invariant. */
  lemma TransitionUndoIsSafe(w: World, s: Step)
    requires Reached(w) && Enabled(w, s) && s.Fault? && w.calls[s.call].call.TransitionCall?
    ensures Sound(Next(w, s)) && UndoneOrCommitted(w, Next(w, s), w.calls[s.call].ctx, w.calls[s.call].call)
  {
    UndoWords(w, s);
    ReachedIsSound(w);
    StepKeepsSound(w, s);
  }

  // ---------------------------------------------------------------------------------------------
  // What each guard loses, seen before the fault
  // ---------------------------------------------------------------------------------------------

  /** The transition is as it left machine and holder, so the undo puts the old words back. */
  predicate PutsBack(w: World, p: Pending)
    requires p.ctx in w.ctxs
  {
    p.call.TransitionCall? && w.dev.sm == p.call.newSm && w.ctxs[p.ctx].holder == p.call.newHolder
  }

  /** The undo removes the slot domain. */
  predicate DropsDomain(w: World, p: Pending) {
    p.call.AnchorCall? && p.call.first && w.dev.slotDomain == Some(p.call.inode)
  }

  /** The lease an undo is about to take from a file that is using it: an acquire whose lease is as it gave it, or a
      candidate's promotion that is as it left it. */
  predicate Strands(w: World, p: Pending)
    requires p.ctx in w.ctxs
  {
    && Active(w.ctxs[p.ctx])
    && ((p.call.AcquireCall? && w.ctxs[p.ctx].holder == p.call.holder) ||
        (PutsBack(w, p) && p.call.oldHolder.phase == Candidate))
  }

  /** The slot domain goes while a hub role or readiness rests on it, or such a role comes back after it went. */
  ghost predicate Uproots(w: World, p: Pending)
    requires p.ctx in w.ctxs
  {
    || (DropsDomain(w, p) && (w.dev.sm.coordinatorReady || exists i :: i in w.ctxs && NeedsDomain(w.ctxs[i].holder)))
    || (PutsBack(w, p) && w.dev.slotDomain.None? && (p.call.oldSm.coordinatorReady || NeedsDomain(p.call.oldHolder)))
  }

  ghost predicate SomeSlotPin(w: World) {
    || (exists i :: i in w.ctxs && w.ctxs[i].proofs.slotProof.Some?)
    || (exists t :: t in w.transfers && w.transfers[t].slotProof.Some?)
  }

  ghost predicate SomeWorkloadPin(w: World) {
    || (exists i :: i in w.ctxs && w.ctxs[i].proofs.lifetimeProof.Some? && w.ctxs[i].proofs.tag != 0)
    || (exists t :: t in w.transfers && w.transfers[t].lifetimeProof.Some? && w.transfers[t].tag != 0)
  }

  /** The inode of a pin goes, or pins come back whose inode is no longer the device's. */
  ghost predicate Unpins(w: World, p: Pending)
    requires p.ctx in w.ctxs
  {
    || (DropsDomain(w, p) && SomeSlotPin(w))
    || (LosesAnchor(w, p) && SomeWorkloadPin(w))
    || (p.call.UnbindCall? && SameFiles(w.ctxs[p.ctx].proofs, UNBOUND) && !Pinned(w.dev, p.call.saved))
  }

  /** A bind is taken back under a call or mapping that needs it. */
  predicate Uncovers(w: World, p: Pending)
    requires p.ctx in w.ctxs
  {
    && p.call.BindCall? && p.call.committed && SameFiles(w.ctxs[p.ctx].proofs, p.call.installed)
    && Exposed(w.ctxs[p.ctx]) && (NeedsSlot(w.ctxs[p.ctx]) || NeedsLifetime(w.ctxs[p.ctx]))
  }

  /** An acquire is taken back under a proof call that has read its profile. */
  ghost predicate Outdates(w: World, p: Pending)
    requires p.ctx in w.ctxs
  {
    && p.call.AcquireCall? && w.ctxs[p.ctx].holder == p.call.holder
    && exists c :: c in w.calls && w.calls[c].ctx == p.ctx && w.calls[c].call.Looked? && Binds(w.calls[c].call.profile)
  }

  /** The anchor goes while the slot domain stays. */
  predicate Separates(w: World, p: Pending)
    requires p.ctx in w.ctxs
  {
    LosesAnchor(w, p) && w.dev.slotDomain.Some?
  }

  ghost predicate Breaks(w: World, p: Pending)
    requires p.ctx in w.ctxs
  {
    Strands(w, p) || Uproots(w, p) || Unpins(w, p) || Uncovers(w, p) || Outdates(w, p) || Separates(w, p)
  }

  // ---------------------------------------------------------------------------------------------
  // Each is exact
  // ---------------------------------------------------------------------------------------------

  /** What a fault of call `c` makes of a world, part by part. */
  ghost predicate Faulted(w: World, c: nat, w': World) {
    && c in w.calls && w.calls[c].ctx in w.ctxs && CallSound(w.calls[c].call)
    && Knows(w.dev.sm, w.ctxs[w.calls[c].ctx].holder)
    && var p := w.calls[c];
       && w'.ctxs == w.ctxs[p.ctx := TakeBack(w.dev, w.ctxs[p.ctx], p.call).1]
       && w'.transfers == w.transfers && w'.calls == w.calls - {c}
       && w'.dev.sm == TakeBack(w.dev, w.ctxs[p.ctx], p.call).0.sm
       && w'.dev.slotDomain == (if DropsDomain(w, p) then None else w.dev.slotDomain)
       && w'.dev.state == (if LosesAnchor(w, p) then None else w.dev.state)
       && (LosesAnchor(w, p) ==> w.dev.state.Some?)
  }

  lemma TakeBackDomain(w: World, p: Pending)
    requires p.ctx in w.ctxs
    ensures TakeBack(w.dev, w.ctxs[p.ctx], p.call).0.slotDomain == if DropsDomain(w, p) then None else w.dev.slotDomain
  {
  }

  lemma FaultParts(w: World, s: Step)
    requires Sound(w) && Anchors(w) && Enabled(w, s) && s.Fault?
    ensures Faulted(w, s.call, Next(w, s))
  {
    FaultLosesAnchor(w, s);
    TakeBackDomain(w, w.calls[s.call]);
    InvKnows(w.dev.sm, Holdings(w), w.calls[s.call].ctx);
  }

  lemma TakeBackAllows(dev: Device, ctx: Context, call: Call)
    requires Knows(dev.sm, ctx.holder) && CallSound(call) && Allowed(ctx)
    ensures var now := TakeBack(dev, ctx, call).1;
            !Allowed(now) <==>
            && Active(ctx)
            && ((call.AcquireCall? && ctx.holder == call.holder) ||
                (call.TransitionCall? && dev.sm == call.newSm && ctx.holder == call.newHolder &&
                 call.oldHolder.phase == Candidate))
  {
    if call.TransitionCall? && ctx.holder == call.newHolder && dev.sm == call.newSm {
      assert WellFormed(call.oldHolder);
    }
  }

  lemma StrandsIff(w: World, c: nat, w': World)
    requires Faulted(w, c, w') && ActivityAllowed(w)
    ensures ActivityAllowed(w') <==> !Strands(w, w.calls[c])
  {
    var p := w.calls[c];
    TakeBackAllows(w.dev, w.ctxs[p.ctx], p.call);
    assert w'.ctxs[p.ctx] == TakeBack(w.dev, w.ctxs[p.ctx], p.call).1;
  }

  lemma TakeBackRoles(dev: Device, ctx: Context, call: Call)
    requires WellFormed(ctx.holder)
    ensures var r := TakeBack(dev, ctx, call);
            if call.TransitionCall? && dev.sm == call.newSm && ctx.holder == call.newHolder
            then r.0.sm == call.oldSm && r.1.holder == call.oldHolder
            else r.0.sm.coordinatorReady == dev.sm.coordinatorReady && (r.1.holder == ctx.holder || !NeedsDomain(r.1.holder))
    ensures call.AnchorCall? ==> TakeBack(dev, ctx, call).1 == ctx
  {
  }

  lemma UprootsIff(w: World, c: nat, w': World)
    requires Faulted(w, c, w') && RolesGrounded(w)
    ensures RolesGrounded(w') <==> !Uproots(w, w.calls[c])
  {
    var p := w.calls[c];
    TakeBackRoles(w.dev, w.ctxs[p.ctx], p.call);
    assert w'.ctxs[p.ctx].holder == TakeBack(w.dev, w.ctxs[p.ctx], p.call).1.holder;
    if DropsDomain(w, p) { assert w'.ctxs == w.ctxs; }
  }

  lemma TakeBackProofsOf(dev: Device, ctx: Context, call: Call)
    ensures var now := TakeBack(dev, ctx, call).1.proofs;
            now == if call.BindCall? && call.committed && SameFiles(ctx.proofs, call.installed) then UNBOUND
                   else if call.UnbindCall? && SameFiles(ctx.proofs, UNBOUND) then call.saved
                   else ctx.proofs
  {
  }

  /** With the same proofs all round, what is pinned depends on the two inodes alone. */
  lemma SameProofsPinned(w: World, w': World)
    requires ProofsPinned(w) && w'.transfers == w.transfers && w'.ctxs.Keys == w.ctxs.Keys
    requires forall i :: i in w.ctxs ==> w'.ctxs[i].proofs == w.ctxs[i].proofs
    requires w'.dev.slotDomain == w.dev.slotDomain || w'.dev.slotDomain == None
    requires w'.dev.state == w.dev.state || w'.dev.state == None
    ensures ProofsPinned(w') <==>
            (SomeSlotPin(w) ==> w'.dev.slotDomain == w.dev.slotDomain) && (SomeWorkloadPin(w) ==> w'.dev.state == w.dev.state)
  {
    if ProofsPinned(w') && SomeSlotPin(w) {
      if i :| i in w.ctxs && w.ctxs[i].proofs.slotProof.Some? {
        assert Pinned(w.dev, w.ctxs[i].proofs) && Pinned(w'.dev, w'.ctxs[i].proofs);
      } else {
        var t :| t in w.transfers && w.transfers[t].slotProof.Some?;
        assert TransferPinned(w.dev, w.transfers[t]) && TransferPinned(w'.dev, w'.transfers[t]);
      }
    }
    if ProofsPinned(w') && SomeWorkloadPin(w) {
      if i :| i in w.ctxs && w.ctxs[i].proofs.lifetimeProof.Some? && w.ctxs[i].proofs.tag != 0 {
        assert Pinned(w.dev, w.ctxs[i].proofs) && Pinned(w'.dev, w'.ctxs[i].proofs);
      } else {
        var t :| t in w.transfers && w.transfers[t].lifetimeProof.Some? && w.transfers[t].tag != 0;
        assert TransferPinned(w.dev, w.transfers[t]) && TransferPinned(w'.dev, w'.transfers[t]);
      }
    }
  }

  /** With the same inodes, what is pinned depends on the one file whose proofs changed. */
  lemma OtherProofsPinned(w: World, w': World, i: nat)
    requires ProofsPinned(w) && i in w.ctxs && i in w'.ctxs && w'.ctxs == w.ctxs[i := w'.ctxs[i]]
    requires w'.transfers == w.transfers && w'.dev.slotDomain == w.dev.slotDomain && w'.dev.state == w.dev.state
    ensures ProofsPinned(w') <==> Pinned(w.dev, w'.ctxs[i].proofs)
  {
    assert Pinned(w'.dev, w'.ctxs[i].proofs) == Pinned(w.dev, w'.ctxs[i].proofs);
  }

  lemma UnpinsIff(w: World, c: nat, w': World)
    requires Faulted(w, c, w') && ProofsPinned(w)
    ensures ProofsPinned(w') <==> !Unpins(w, w.calls[c])
  {
    var p := w.calls[c];
    TakeBackProofsOf(w.dev, w.ctxs[p.ctx], p.call);
    assert w'.ctxs[p.ctx].proofs == TakeBack(w.dev, w.ctxs[p.ctx], p.call).1.proofs;
    if p.call.BindCall? || p.call.UnbindCall? {
      OtherProofsPinned(w, w', p.ctx);
      assert Pinned(w.dev, w.ctxs[p.ctx].proofs);
    } else {
      SameProofsPinned(w, w');
    }
  }

  lemma TakeBackCovers(dev: Device, ctx: Context, call: Call)
    requires CallSound(call) && Covered(ctx)
    ensures var now := TakeBack(dev, ctx, call).1;
            && (Covered(now) <==> !(call.BindCall? && call.committed && SameFiles(ctx.proofs, call.installed)
                                    && Exposed(ctx) && (NeedsSlot(ctx) || NeedsLifetime(ctx))))
            && (NeedsSlot(now) ==> NeedsSlot(ctx)) && (NeedsLifetime(now) ==> NeedsLifetime(ctx))
  {
  }

  lemma UncoversIff(w: World, c: nat, w': World)
    requires Faulted(w, c, w') && ProofsCover(w)
    ensures ProofsCover(w') <==> !Uncovers(w, w.calls[c])
  {
    var p := w.calls[c];
    TakeBackCovers(w.dev, w.ctxs[p.ctx], p.call);
    assert w'.ctxs[p.ctx] == TakeBack(w.dev, w.ctxs[p.ctx], p.call).1;
  }

  lemma TakeBackProfile(dev: Device, ctx: Context, call: Call)
    requires CallSound(call) && WellFormed(ctx.holder)
    ensures TakeBack(dev, ctx, call).1.holder.profile ==
            if call.AcquireCall? && ctx.holder == call.holder then NoProfile else ctx.holder.profile
  {
  }

  lemma OutdatesIff(w: World, c: nat, w': World)
    requires Faulted(w, c, w') && LooksCurrent(w)
    ensures LooksCurrent(w') <==> !Outdates(w, w.calls[c])
  {
    var p := w.calls[c];
    TakeBackProfile(w.dev, w.ctxs[p.ctx], p.call);
    assert w'.ctxs[p.ctx] == TakeBack(w.dev, w.ctxs[p.ctx], p.call).1;
    if Outdates(w, p) {
      var l :| l in w.calls && w.calls[l].ctx == p.ctx && w.calls[l].call.Looked? && Binds(w.calls[l].call.profile);
      assert l in w'.calls && w'.calls[l] == w.calls[l];
    }
  }

  lemma SeparatesIff(w: World, c: nat, w': World)
    requires Faulted(w, c, w') && DomainsApart(w)
    ensures DomainsApart(w') <==> !Separates(w, w.calls[c])
  {
  }

  /** A fault leaves activity without permission exactly when it strands it. */
  lemma FaultStrandsActivityIff(w: World, s: Step)
    requires Sound(w) && Anchors(w) && ActivityAllowed(w) && Enabled(w, s) && s.Fault?
    ensures ActivityAllowed(Next(w, s)) <==> !Strands(w, w.calls[s.call])
  {
    FaultParts(w, s);
    StrandsIff(w, s.call, Next(w, s));
  }

  /** Guard by guard, a fault breaks it exactly under the condition named for it. */
  lemma FaultBreaksIff(w: World, s: Step)
    requires Sound(w) && Anchors(w) && Guarded(w) && Enabled(w, s) && s.Fault?
    ensures var p, w' := w.calls[s.call], Next(w, s);
            && (ActivityAllowed(w') <==> !Strands(w, p)) && (RolesGrounded(w') <==> !Uproots(w, p))
            && (ProofsPinned(w') <==> !Unpins(w, p)) && (ProofsCover(w') <==> !Uncovers(w, p))
            && (LooksCurrent(w') <==> !Outdates(w, p)) && (DomainsApart(w') <==> !Separates(w, p))
  {
    var c, w' := s.call, Next(w, s);
    FaultParts(w, s);
    StrandsIff(w, c, w');
    UprootsIff(w, c, w');
    UnpinsIff(w, c, w');
    UncoversIff(w, c, w');
    OutdatesIff(w, c, w');
    SeparatesIff(w, c, w');
  }

  // ---------------------------------------------------------------------------------------------
  // Over every run
  // ---------------------------------------------------------------------------------------------

  /** None of the first `n` steps is a fault that strands activity. */
  ghost predicate NoneStrands(ws: seq<World>, steps: seq<Step>, n: nat)
    requires Run(ws, steps) && n <= |steps|
  {
    forall k :: 0 <= k < n && steps[k].Fault? ==> !Strands(ws[k], ws[k].calls[steps[k].call])
  }

  lemma {:induction false} AllowedWhileNoneStrands(ws: seq<World>, steps: seq<Step>, n: nat)
    requires Run(ws, steps) && n <= |steps| && NoneStrands(ws, steps, n)
    ensures ActivityAllowed(ws[n])
  {
    if n > 0 {
      AllowedWhileNoneStrands(ws, steps, n - 1);
      RunsKeepAnchors(ws, steps, n - 1);
      if steps[n - 1].Fault? {
        FaultStrandsActivityIff(ws[n - 1], steps[n - 1]);
      } else {
        StepKeepsAllowed(ws[n - 1], steps[n - 1]);
      }
    }
  }

  /** In every run, faults included, activity stays with files that may have it exactly until a fault strands some. */
  lemma ActivityAllowedIffNoneStrands(ws: seq<World>, steps: seq<Step>, n: nat)
    requires Run(ws, steps) && n <= |steps|
    ensures NoneStrands(ws, steps, n) <==> forall k :: 0 <= k <= n ==> ActivityAllowed(ws[k])
  {
    if NoneStrands(ws, steps, n) {
      forall k | 0 <= k <= n ensures ActivityAllowed(ws[k]) { AllowedWhileNoneStrands(ws, steps, k); }
    }
    if forall k :: 0 <= k <= n ==> ActivityAllowed(ws[k]) {
      forall k | 0 <= k < n && steps[k].Fault? ensures !Strands(ws[k], ws[k].calls[steps[k].call]) {
        RunsKeepAnchors(ws, steps, k);
        FaultStrandsActivityIff(ws[k], steps[k]);
        assert ActivityAllowed(ws[k + 1]);
      }
    }
  }

  /** None of the first `n` steps is a fault that breaks a guard. */
  ghost predicate NoneBreaks(ws: seq<World>, steps: seq<Step>, n: nat)
    requires Run(ws, steps) && n <= |steps|
  {
    forall k :: 0 <= k < n && steps[k].Fault? ==> !Breaks(ws[k], ws[k].calls[steps[k].call])
  }

  lemma {:induction false} GuardedWhileNoneBreaks(ws: seq<World>, steps: seq<Step>, n: nat)
    requires Run(ws, steps) && n <= |steps| && NoneBreaks(ws, steps, n)
    ensures Guarded(ws[n])
  {
    if n > 0 {
      GuardedWhileNoneBreaks(ws, steps, n - 1);
      RunsKeepAnchors(ws, steps, n - 1);
      if steps[n - 1].Fault? {
        FaultBreaksIff(ws[n - 1], steps[n - 1]);
      } else {
        StepKeepsGuarded(ws[n - 1], steps[n - 1]);
      }
    }
  }

  /** In every run all guards hold exactly until a fault breaks one. */
  lemma GuardedIffNoneBreaks(ws: seq<World>, steps: seq<Step>, n: nat)
    requires Run(ws, steps) && n <= |steps|
    ensures NoneBreaks(ws, steps, n) <==> forall k :: 0 <= k <= n ==> Guarded(ws[k])
  {
    if NoneBreaks(ws, steps, n) {
      forall k | 0 <= k <= n ensures Guarded(ws[k]) { GuardedWhileNoneBreaks(ws, steps, k); }
    }
    if forall k :: 0 <= k <= n ==> Guarded(ws[k]) {
      forall k | 0 <= k < n && steps[k].Fault? ensures !Breaks(ws[k], ws[k].calls[steps[k].call]) {
        RunsKeepAnchors(ws, steps, k);
        FaultBreaksIff(ws[k], steps[k]);
        assert Guarded(ws[k + 1]);
      }
    }
  }
}
