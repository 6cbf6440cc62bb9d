/** The persistent anchor: which state file, identity, family and generation a device is tied to,
    and for how long. */
module LeaseAnchor {

  import opened Counting
  import opened LeaseMachine
  import opened LeaseSections
  import opened LeaseWorld
  import opened LeaseReferences
  import opened Options

  /** A call that set the anchor and may still have to take it away. */
  predicate Anchoring(p: Pending) {
    p.call.AcquireCall? && p.call.first
  }

  /** Leased files mean an anchor of their family, and an anchor excludes legacy use. */
  predicate Tied(dev: Device) {
    && (dev.sm.familyHolders > 0 ==> dev.state.Some? && dev.state.value.family == dev.sm.family)
    && (dev.state.Some? ==> dev.sm.legacyHolders == 0)
    && (dev.state.Some? <==> dev.generation != 0)
  }

  ghost predicate AnchoringCalls(w: World) {
    && (forall c :: c in w.calls && Anchoring(w.calls[c]) ==>
          && w.dev.state.Some? && w.calls[c].call.generation == w.dev.generation
          && w.calls[c].call.inode == w.dev.state.value.inode)
    && (forall c, d :: c in w.calls && d in w.calls && Anchoring(w.calls[c]) && Anchoring(w.calls[d]) ==> c == d)
  }

  ghost predicate Anchors(w: World) {
    Tied(w.dev) && AnchoringCalls(w)
  }

  lemma GenerationIsNeverZero(counter: nat)
    ensures NextGeneration(counter) != 0
  {
  }

  lemma ServeKeepsTied(dev: Device, ctx: Context, req: Request)
    requires Tied(dev) && Knows(dev.sm, ctx.holder)
    ensures Tied(Serve(dev, ctx, req).dev)
  {
    if req.AcquireReq? {
      AcquireKeepsTied(dev, ctx, req);
    } else if req.TransitionReq? {
      TransitionSectionWords(dev, ctx, req);
      TransitionReplaces(dev.sm, ctx.holder, req.op, ctx.direct, ctx.transfers, ctx.bars, dev.slotDomain.Some?);
    } else if req.DirectBegin? {
    } else {
      OtherSectionsWords(dev, ctx, req);
    }
  }

  lemma AcquireKeepsTied(dev: Device, ctx: Context, req: Request)
    requires Tied(dev) && Knows(dev.sm, ctx.holder) && req.AcquireReq?
    ensures Tied(AcquireSection(dev, ctx, req).dev)
  {
    GenerationIsNeverZero(dev.counter);
  }

  /** The anchor changes in a section only by being set, and then the section leaves a call that says so. */
  lemma ServeAnchor(dev: Device, ctx: Context, req: Request)
    ensures var r := Serve(dev, ctx, req);
            var anchoring := r.call.Some? && r.call.value.AcquireCall? && r.call.value.first;
            && (anchoring ==> dev.state.None? && r.dev.state.Some? && r.call.value.generation == r.dev.generation
                              && r.call.value.inode == r.dev.state.value.inode)
            && (!anchoring ==> r.dev.state == dev.state && r.dev.generation == dev.generation)
  {
  }

  lemma TakeBackKeepsTied(dev: Device, ctx: Context, call: Call)
    requires Tied(dev) && Knows(dev.sm, ctx.holder) && CallSound(call)
    ensures Tied(TakeBack(dev, ctx, call).0)
  {
    if call.AcquireCall? { ReleaseReplaces(dev.sm, ctx.holder); }
  }

  /** Whose words a step reads. */
  function Actor(w: World, s: Step): (id: nat)
    requires Enabled(w, s) && (s.Section? || s.Fault?)
    ensures id in w.ctxs
  {
    if s.Section? then s.id else w.calls[s.call].ctx
  }

  lemma ReleaseKeepsTied(dev: Device, h: Holder)
    requires Tied(dev)
    ensures Tied(dev.(sm := Release(dev.sm, h).sm))
  {
  }

  lemma StepKeepsTied(w: World, s: Step)
    requires Tied(w.dev) && CallsSound(w) && Enabled(w, s)
    requires s.Section? || s.Fault? ==> Knows(w.dev.sm, w.ctxs[Actor(w, s)].holder)
    ensures Tied(Next(w, s).dev)
  {
    if s.Section? {
      ServeKeepsTied(w.dev, w.ctxs[s.id], s.req);
    } else if s.Fault? {
      TakeBackKeepsTied(w.dev, w.ctxs[w.calls[s.call].ctx], w.calls[s.call].call);
    } else if s.RefPut? || s.Close? {
      ReleaseKeepsTied(w.dev, w.ctxs[s.id].holder);
    }
  }

  lemma StepKeepsAnchoringCalls(w: World, s: Step)
    requires Anchors(w) && Enabled(w, s)
    ensures AnchoringCalls(Next(w, s))
  {
    if s.Section? {
      ServeAnchor(w.dev, w.ctxs[s.id], s.req);
    }
  }

  lemma StepKeepsAnchors(w: World, s: Step)
    requires Sound(w) && Anchors(w) && Enabled(w, s)
    ensures Anchors(Next(w, s))
  {
    if s.Section? || s.Fault? { InvKnows(w.dev.sm, Holdings(w), Actor(w, s)); }
    StepKeepsTied(w, s);
    StepKeepsAnchoringCalls(w, s);
  }

  lemma {:induction false} RunsKeepAnchors(ws: seq<World>, steps: seq<Step>, k: nat)
    requires Run(ws, steps) && k < |ws|
    ensures Sound(ws[k]) && Anchors(ws[k])
  {
    RunsAreSound(ws, steps, k);
    if k > 0 {
      RunsKeepAnchors(ws, steps, k - 1);
      StepKeepsAnchors(ws[k - 1], steps[k - 1]);
    }
  }

  lemma ReachedKeepsAnchors(w: World)
    requires Reached(w)
    ensures Sound(w) && Anchors(w)
  {
    var ws, steps :| Run(ws, steps) && ws[|steps|] == w;
    RunsKeepAnchors(ws, steps, |steps|);
  }

  // ---------------------------------------------------------------------------------------------
  // Permanence
  // ---------------------------------------------------------------------------------------------

  /** Anchored, and the call that set the anchor has had its reply delivered. */
  ghost predicate Permanent(w: World) {
    w.dev.state.Some? && forall c :: c in w.calls ==> !Anchoring(w.calls[c])
  }

  /** Taking back an anchoring acquire empties the machine exactly when no other lease is held. */
  lemma TakenBackIdle(sm: Sm, hs: Holders, i: nat, given: Holder)
    requires Inv(sm, hs) && i in hs && given.profile != NoProfile
    ensures Idle(if hs[i] == given then Release(sm, hs[i]).sm else sm) <==> sm.familyHolders == One(hs[i] == given)
  {
    IdleIffNoLease(sm, hs);
    ReleaseKeeps(sm, hs, i);
    IdleIffNoLease(Release(sm, hs[i]).sm, hs[i := FRESH_HOLDER]);
    InvKnows(sm, hs, i);
  }

  /** The call that set the anchor, while there is no lease but the one it gave. */
  predicate LosesAnchor(w: World, p: Pending)
    requires p.ctx in w.ctxs
  {
    Anchoring(p) && w.dev.sm.familyHolders == One(w.ctxs[p.ctx].holder == p.call.holder)
  }

  lemma FaultLosesAnchor(w: World, s: Step)
    requires Sound(w) && Anchors(w) && Enabled(w, s) && s.Fault?
    ensures Next(w, s).dev.state == if LosesAnchor(w, w.calls[s.call]) then None else w.dev.state
  {
    var p := w.calls[s.call];
    if Anchoring(p) { TakenBackIdle(w.dev.sm, Holdings(w), p.ctx, p.call.holder); }
  }

  /** Exactly when an anchor is lost: the anchoring call's reply faults and there is no lease but the one it gave. */
  lemma AnchorLostIff(w: World, s: Step)
    requires Reached(w) && Enabled(w, s) && w.dev.state.Some?
    ensures Next(w, s).dev.state.None? <==> s.Fault? && LosesAnchor(w, w.calls[s.call])
  {
    ReachedKeepsAnchors(w);
    if s.Fault? { FaultLosesAnchor(w, s); } else { OthersKeepAnchor(w, s); }
  }

  lemma OthersKeepAnchor(w: World, s: Step)
    requires Enabled(w, s) && w.dev.state.Some? && !(s.Fault? && Anchoring(w.calls[s.call]))
    ensures Next(w, s).dev.state == w.dev.state && Next(w, s).dev.generation == w.dev.generation
  {
    if s.Section? { ServeAnchor(w.dev, w.ctxs[s.id], s.req); }
  }

  lemma PermanentStep(w: World, s: Step)
    requires Anchors(w) && Permanent(w) && Enabled(w, s)
    ensures var w' := Next(w, s);
            Permanent(w') && w'.dev.state == w.dev.state && w'.dev.generation == w.dev.generation
  {
    OthersKeepAnchor(w, s);
    if s.Section? { ServeAnchor(w.dev, w.ctxs[s.id], s.req); }
  }

  /** Delivering the anchoring call's reply makes the anchor permanent. */
  lemma DeliveryMakesPermanent(w: World, s: Step)
    requires Reached(w) && Enabled(w, s) && s.Deliver? && Anchoring(w.calls[s.call])
    ensures Permanent(Next(w, s))
  {
    ReachedKeepsAnchors(w);
  }

  /** From then on inode, identity, family and generation never change. */
  lemma {:induction false} AnchorIsPermanent(ws: seq<World>, steps: seq<Step>, j: nat, k: nat)
    requires Run(ws, steps) && j <= k < |ws| && Permanent(ws[j])
    ensures Permanent(ws[k]) && ws[k].dev.state == ws[j].dev.state && ws[k].dev.generation == ws[j].dev.generation
  {
    if j < k {
      AnchorIsPermanent(ws, steps, j, k - 1);
      RunsKeepAnchors(ws, steps, k - 1);
      PermanentStep(ws[k - 1], steps[k - 1]);
    }
  }

  /** An anchored device admits only its family; one without holders only its publisher, unless it is a
      coordinated device that finished its setup. */
  lemma OnlyTheFamilyIsAdmitted(dev: Device, ctx: Context, req: Request)
    requires dev.state.Some? && req.AcquireReq? && Serve(dev, ctx, req).err == Ok
    ensures req.profile.Family() == dev.state.value.family && req.inode == dev.state.value.inode
         && req.identity == dev.state.value.identity && req.generation == dev.generation
    ensures Idle(dev.sm) ==>
              req.profile.IsPublisher() || (dev.state.value.family == Coordinator && dev.sm.coordinatorReady)
  {
  }

  /** On an anchored device a direct call is admitted for leased files of the anchor's family and for no others. */
  lemma NoLegacyOnceAnchored(w: World, id: nat)
    requires Reached(w) && w.dev.state.Some? && id in w.ctxs
    ensures !w.ctxs[id].holder.legacy
    ensures DirectBeginSection(w.dev, w.ctxs[id]).err == Ok ==>
              w.ctxs[id].holder.profile.Family() == w.dev.state.value.family
  {
    ReachedKeepsAnchors(w);
    InvKnows(w.dev.sm, Holdings(w), id);
  }
}
