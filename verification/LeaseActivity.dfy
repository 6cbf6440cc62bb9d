/** Who may be active and under which proofs: what every step keeps except the undo of a call whose reply
    could not be delivered. */
module LeaseActivity {

  import opened Counting
  import opened LeaseMachine
  import opened LeaseSections
  import opened LeaseWorld
  import opened LeaseReferences
  import opened LeaseAnchor
  import opened Options

  predicate Active(ctx: Context) {
    ctx.direct > 0 || ctx.transfers > 0 || ctx.bars > 0
  }

  predicate MayAct(h: Holder) {
    h.legacy || h.phase == Quiescent || h.phase == Workload
  }

  predicate Allowed(ctx: Context) {
    Active(ctx) ==> MayAct(ctx.holder)
  }

  /** A file that can reach the hardware at this moment, by a call or through a mapping. */
  predicate Exposed(ctx: Context) {
    ctx.direct > 0 || ctx.bars > 0
  }

  predicate NeedsSlot(ctx: Context) {
    NeedsSlotProof(ctx.holder.profile, ctx.everBound)
  }

  predicate NeedsLifetime(ctx: Context) {
    NeedsLifetimeProof(ctx.holder.profile, ctx.everBound)
  }

  /** The calls and mappings of a file that needs proofs have them. */
  predicate Covered(ctx: Context) {
    Exposed(ctx) ==>
      (NeedsSlot(ctx) ==> ctx.proofs.slotProof.Some?) && (NeedsLifetime(ctx) ==> ctx.proofs.lifetimeProof.Some?)
  }

  /** What a transfer pinned when it was issued covers what its file needs, bound or not by now. */
  predicate TransferCovered(ctx: Context, t: Transfer) {
    (NeedsSlot(ctx) ==> t.slotProof.Some?) && (NeedsLifetime(ctx) ==> t.lifetimeProof.Some?)
  }

  /** A proof pins the very byte of the slot it is for, in the inode the device is anchored to. */
  predicate PinsSlot(dev: Device, slot: nat, pin: Option<Pin>) {
    pin.Some? ==>
      pin.value.ByteLock? && pin.value.byte == SlotLiveness(slot) && dev.slotDomain == Some(pin.value.inode)
  }

  predicate PinsLifetime(dev: Device, tag: nat, pin: Option<Pin>) {
    pin.Some? ==>
      if tag == 0 then pin.value.PipeEnd?
      else pin.value.ByteLock? && pin.value.byte == WorkloadLiveness(tag % (MAX_WORKLOAD_SLOT + 1))
           && dev.state.Some? && pin.value.inode == dev.state.value.inode
  }

  predicate Pinned(dev: Device, p: Proofs) {
    PinsSlot(dev, p.slot, p.slotProof) && PinsLifetime(dev, p.tag, p.lifetimeProof)
  }

  predicate TransferPinned(dev: Device, t: Transfer) {
    PinsSlot(dev, t.slot, t.slotProof) && PinsLifetime(dev, t.tag, t.lifetimeProof)
  }

  /** Hub roles that share the device need the slot domain. */
  predicate NeedsDomain(h: Holder) {
    h.profile.Family() == Hub && (h.phase == Workload || h.phase == Candidate)
  }

  predicate Binds(profile: Profile) {
    BindsSlot(profile) || BindsLifetime(profile)
  }

  // The guards, over all files, transfers and calls under way

  ghost predicate ActivityAllowed(w: World) {
    forall i :: i in w.ctxs ==> Allowed(w.ctxs[i])
  }

  ghost predicate RolesGrounded(w: World) {
    && (w.dev.sm.coordinatorReady ==> w.dev.slotDomain.Some?)
    && (forall i :: i in w.ctxs && NeedsDomain(w.ctxs[i].holder) ==> w.dev.slotDomain.Some?)
  }

  ghost predicate ProofsPinned(w: World) {
    && (forall i :: i in w.ctxs ==> Pinned(w.dev, w.ctxs[i].proofs))
    && (forall t :: t in w.transfers ==> TransferPinned(w.dev, w.transfers[t]))
  }

  ghost predicate ProofsCover(w: World) {
    && (forall i :: i in w.ctxs ==> Covered(w.ctxs[i]))
    && (forall t :: t in w.transfers && w.transfers[t].ctx in w.ctxs ==>
          TransferCovered(w.ctxs[w.transfers[t].ctx], w.transfers[t]))
  }

  /** A proof call under way knows its file's profile, if it is one that can bind. */
  ghost predicate LooksCurrent(w: World) {
    forall c :: c in w.calls && w.calls[c].call.Looked? && Binds(w.calls[c].call.profile) && w.calls[c].ctx in w.ctxs ==>
      w.ctxs[w.calls[c].ctx].holder.profile == w.calls[c].call.profile
  }

  /** The slot domain is another file than the state file, so liveness bytes of slots and of workloads never meet. */
  ghost predicate DomainsApart(w: World) {
    w.dev.slotDomain.Some? ==> w.dev.state.Some? && w.dev.slotDomain.value != w.dev.state.value.inode
  }

  ghost predicate Guarded(w: World) {
    ActivityAllowed(w) && RolesGrounded(w) && ProofsPinned(w) && ProofsCover(w) && LooksCurrent(w) && DomainsApart(w)
  }

  lemma InitGuarded(w: World)
    requires Init(w)
    ensures Guarded(w)
  {
  }

  // ---------------------------------------------------------------------------------------------
  // One section, seen from its own file
  // ---------------------------------------------------------------------------------------------

  /** Anchors and slot domains are only ever added by a section. */
  predicate Grows(dev: Device, dev': Device) {
    (dev.slotDomain.Some? ==> dev'.slotDomain == dev.slotDomain) && (dev.state.Some? ==> dev'.state == dev.state)
  }

  lemma ServeGrows(dev: Device, ctx: Context, req: Request)
    ensures Grows(dev, Serve(dev, ctx, req).dev)
  {
  }

  lemma ServeAllows(dev: Device, ctx: Context, req: Request)
    requires Knows(dev.sm, ctx.holder) && Allowed(ctx) && (req.DirectEnd? || req.BarMap? ==> ctx.direct > 0)
    ensures Allowed(Serve(dev, ctx, req).ctx)
  {
    if req.TransitionReq? { TransitionSectionWords(dev, ctx, req); }
  }

  /** Somebody already shares the device as a hub, so its slot domain is anchored. */
  predicate SharedHubGrounded(dev: Device) {
    dev.sm.familyHolders > 0 && !dev.sm.quiescent && dev.sm.family == Hub ==> dev.slotDomain.Some?
  }

  lemma AcquireGrounds(dev: Device, ctx: Context, req: Request)
    requires req.AcquireReq? && Knows(dev.sm, ctx.holder) && SharedHubGrounded(dev) && Tied(dev)
    requires Idle(dev.sm) <==> dev.sm.familyHolders == 0
    requires NeedsDomain(ctx.holder) ==> dev.slotDomain.Some?
    ensures var r := AcquireSection(dev, ctx, req);
            && (NeedsDomain(r.ctx.holder) ==> dev.slotDomain.Some?)
            && (r.dev.sm.coordinatorReady ==> dev.sm.coordinatorReady)
  {
    AcquireSectionWords(dev, ctx, req);
  }

  lemma TransitionGrounds(dev: Device, ctx: Context, req: Request)
    requires req.TransitionReq? && Knows(dev.sm, ctx.holder)
    requires (NeedsDomain(ctx.holder) ==> dev.slotDomain.Some?) && (dev.sm.coordinatorReady ==> dev.slotDomain.Some?)
    ensures var r := TransitionSection(dev, ctx, req);
            && (NeedsDomain(r.ctx.holder) ==> dev.slotDomain.Some?)
            && (r.dev.sm.coordinatorReady ==> dev.slotDomain.Some?)
  {
  }

  lemma ServePins(dev: Device, ctx: Context, req: Request)
    requires Pinned(dev, ctx.proofs)
    ensures var r := Serve(dev, ctx, req); Pinned(r.dev, r.ctx.proofs)
  {
    ServeGrows(dev, ctx, req);
  }

  lemma BindCovers(dev: Device, ctx: Context, req: Request)
    requires req.BindReq? && Covered(ctx) && (Binds(req.seen) ==> ctx.holder.profile == req.seen)
    ensures Covered(BindSection(dev, ctx, req).ctx)
  {
  }

  lemma ServeCovers(dev: Device, ctx: Context, req: Request)
    requires Knows(dev.sm, ctx.holder) && Allowed(ctx) && Covered(ctx)
    requires req.DirectEnd? || req.BarMap? ==> ctx.direct > 0
    requires req.BindReq? && Binds(req.seen) ==> ctx.holder.profile == req.seen
    ensures Covered(Serve(dev, ctx, req).ctx)
  {
    if req.BindReq? {
      BindCovers(dev, ctx, req);
    } else if req.TransitionReq? {
      TransitionSectionWords(dev, ctx, req);
    }
  }

  /** A transfer issued now pins what its file needs. */
  lemma IssuedTransferCovered(dev: Device, ctx: Context, id: nat)
    requires TransferGetSection(dev, ctx).err == Ok
    ensures var p := ctx.proofs;
            TransferCovered(TransferGetSection(dev, ctx).ctx, Transfer(id, p.slot, p.tag, p.slotProof, p.lifetimeProof))
  {
  }

  /** What a file needs proofs for changes only while it has no transfers. */
  lemma NeedsChangeOnlyAtRest(dev: Device, ctx: Context, req: Request)
    requires Allowed(ctx) && Knows(dev.sm, ctx.holder) && ctx.transfers > 0
    ensures var r := Serve(dev, ctx, req);
            NeedsSlot(r.ctx) == NeedsSlot(ctx) && NeedsLifetime(r.ctx) == NeedsLifetime(ctx)
  {
  }

  /** Only a file without a lease changes its profile in a section. */
  lemma ServeKeepsProfile(dev: Device, ctx: Context, req: Request)
    ensures var r := Serve(dev, ctx, req);
            ctx.holder.profile != NoProfile ==> r.ctx.holder.profile == ctx.holder.profile
  {
  }

  // ---------------------------------------------------------------------------------------------
  // Steps outside the sections
  // ---------------------------------------------------------------------------------------------

  /** The same lease and proofs, and no more activity. */
  predicate Rests(ctx: Context, ctx': Context) {
    && ctx'.holder == ctx.holder && ctx'.proofs == ctx.proofs && ctx'.everBound == ctx.everBound
    && ctx'.direct <= ctx.direct && ctx'.transfers <= ctx.transfers && ctx'.bars <= ctx.bars
  }

  ghost predicate AllRest(w: World, w': World) {
    && w'.dev == w.dev.(sm := w'.dev.sm, removed := w'.dev.removed)
    && w'.dev.sm.coordinatorReady == w.dev.sm.coordinatorReady
    && (forall i :: i in w'.ctxs ==>
          if i in w.ctxs then Rests(w.ctxs[i], w'.ctxs[i]) else w'.ctxs[i] == FRESH_CONTEXT)
    && (forall t :: t in w'.transfers ==> t in w.transfers && w'.transfers[t] == w.transfers[t])
  }

  /** Steps outside the sections only take activity away. */
  lemma QuietOnlyRests(w: World, s: Step)
    requires Enabled(w, s) && !s.Section? && !s.Fault?
    ensures AllRest(w, Next(w, s))
  {
  }

  lemma RestKeepsAllowed(w: World, w': World)
    requires AllRest(w, w')
    ensures ActivityAllowed(w) ==> ActivityAllowed(w')
    ensures RolesGrounded(w) ==> RolesGrounded(w')
  {
  }

  lemma RestKeepsPinned(w: World, w': World)
    requires AllRest(w, w')
    ensures ProofsPinned(w) ==> ProofsPinned(w')
  {
  }

  lemma RestKeepsCover(w: World, w': World)
    requires AllRest(w, w') && Referenced(w) && ProofsCover(w)
    ensures ProofsCover(w')
  {
    forall t | t in w'.transfers && w'.transfers[t].ctx in w'.ctxs
      ensures TransferCovered(w'.ctxs[w'.transfers[t].ctx], w'.transfers[t])
    {
      assert w.transfers[t].ctx in w.ctxs;
    }
  }

  lemma RestKeepsGuards(w: World, w': World)
    requires AllRest(w, w') && Referenced(w)
    ensures ActivityAllowed(w) ==> ActivityAllowed(w')
    ensures RolesGrounded(w) ==> RolesGrounded(w')
    ensures ProofsPinned(w) ==> ProofsPinned(w')
    ensures ProofsCover(w) ==> ProofsCover(w')
    ensures DomainsApart(w) ==> DomainsApart(w')
  {
    RestKeepsAllowed(w, w');
    RestKeepsPinned(w, w');
    if ProofsCover(w) { RestKeepsCover(w, w'); }
  }

  // ---------------------------------------------------------------------------------------------
  // Every step but a fault keeps each guard
  // ---------------------------------------------------------------------------------------------

  lemma StepKeepsAllowed(w: World, s: Step)
    requires Sound(w) && ActivityAllowed(w) && Enabled(w, s) && !s.Fault?
    ensures ActivityAllowed(Next(w, s))
  {
    if s.Section? {
      InvKnows(w.dev.sm, Holdings(w), s.id);
      ServeAllows(w.dev, w.ctxs[s.id], s.req);
    } else {
      QuietOnlyRests(w, s);
      RestKeepsGuards(w, Next(w, s));
    }
  }

  lemma HubIsGrounded(w: World)
    requires Sound(w) && RolesGrounded(w)
    ensures SharedHubGrounded(w.dev)
  {
    var sm, hs := w.dev.sm, Holdings(w);
    if sm.familyHolders > 0 && !sm.quiescent && sm.family == Hub {
      var i := CountWitness(hs, Leased());
      InvKnows(sm, hs, i);
      assert NeedsDomain(w.ctxs[i].holder);
    }
  }

  lemma OtherGrounds(dev: Device, ctx: Context, req: Request)
    requires !req.AcquireReq? && !req.TransitionReq?
    ensures var r := Serve(dev, ctx, req); r.dev.sm.coordinatorReady == dev.sm.coordinatorReady
    ensures NeedsDomain(Serve(dev, ctx, req).ctx.holder) ==> NeedsDomain(ctx.holder)
  {
    if req.DirectBegin? { DirectBeginWords(dev, ctx); } else { OtherSectionsWords(dev, ctx, req); }
  }

  lemma ServeGrounds(w: World, id: nat, req: Request)
    requires Sound(w) && Anchors(w) && RolesGrounded(w) && id in w.ctxs
    ensures var r := Serve(w.dev, w.ctxs[id], req);
            && (NeedsDomain(r.ctx.holder) ==> r.dev.slotDomain.Some?)
            && (r.dev.sm.coordinatorReady ==> r.dev.slotDomain.Some?)
  {
    var dev, ctx := w.dev, w.ctxs[id];
    InvKnows(dev.sm, Holdings(w), id);
    if req.AcquireReq? {
      HubIsGrounded(w);
      IdleIffNoLease(dev.sm, Holdings(w));
      AcquireGrounds(dev, ctx, req);
    } else if req.TransitionReq? {
      TransitionGrounds(dev, ctx, req);
    } else {
      OtherGrounds(dev, ctx, req);
    }
    ServeGrows(dev, ctx, req);
  }

  lemma StepKeepsGrounded(w: World, s: Step)
    requires Sound(w) && Anchors(w) && RolesGrounded(w) && Enabled(w, s) && !s.Fault?
    ensures RolesGrounded(Next(w, s))
  {
    if s.Section? {
      ServeGrounds(w, s.id, s.req);
      ServeGrows(w.dev, w.ctxs[s.id], s.req);
    } else {
      QuietOnlyRests(w, s);
      RestKeepsGuards(w, Next(w, s));
    }
  }

  lemma SectionKeepsPinned(w: World, s: Step)
    requires ProofsPinned(w) && Enabled(w, s) && s.Section?
    ensures ProofsPinned(Next(w, s))
  {
    ServePins(w.dev, w.ctxs[s.id], s.req);
    ServeGrows(w.dev, w.ctxs[s.id], s.req);
  }

  lemma StepKeepsPinned(w: World, s: Step)
    requires Sound(w) && ProofsPinned(w) && Enabled(w, s) && !s.Fault?
    ensures ProofsPinned(Next(w, s))
  {
    if s.Section? {
      SectionKeepsPinned(w, s);
    } else {
      QuietOnlyRests(w, s);
      RestKeepsGuards(w, Next(w, s));
    }
  }

  lemma OwnerKeepsNeeds(w: World, id: nat, req: Request, t: nat)
    requires Sound(w) && ActivityAllowed(w) && id in w.ctxs && t in w.transfers && w.transfers[t].ctx == id
    ensures var r := Serve(w.dev, w.ctxs[id], req);
            NeedsSlot(r.ctx) == NeedsSlot(w.ctxs[id]) && NeedsLifetime(r.ctx) == NeedsLifetime(w.ctxs[id])
  {
    assert t in Owned(w, id);
    InvKnows(w.dev.sm, Holdings(w), id);
    NeedsChangeOnlyAtRest(w.dev, w.ctxs[id], req);
  }

  /** A transfer under way is covered still, whether or not the section was of its own file. */
  lemma OldTransferCovered(w: World, id: nat, req: Request, t: nat)
    requires Sound(w) && ActivityAllowed(w) && ProofsCover(w) && id in w.ctxs
    requires t in w.transfers && w.transfers[t].ctx in w.ctxs
    ensures var ctxs := w.ctxs[id := Serve(w.dev, w.ctxs[id], req).ctx];
            TransferCovered(ctxs[w.transfers[t].ctx], w.transfers[t])
  {
    if w.transfers[t].ctx == id { OwnerKeepsNeeds(w, id, req, t); }
  }

  lemma NewTransferCovered(w: World, s: Step, t: nat)
    requires Enabled(w, s) && s.Section? && t !in w.transfers && t in Next(w, s).transfers
    ensures var w' := Next(w, s); w'.transfers[t].ctx == s.id && TransferCovered(w'.ctxs[s.id], w'.transfers[t])
  {
    IssuedTransferCovered(w.dev, w.ctxs[s.id], s.id);
  }

  lemma SectionKeepsTransferCovered(w: World, s: Step, t: nat)
    requires Sound(w) && ActivityAllowed(w) && ProofsCover(w) && Enabled(w, s) && s.Section?
    requires t in Next(w, s).transfers && Next(w, s).transfers[t].ctx in Next(w, s).ctxs
    ensures var w' := Next(w, s); TransferCovered(w'.ctxs[w'.transfers[t].ctx], w'.transfers[t])
  {
    if t !in w.transfers {
      NewTransferCovered(w, s, t);
    } else {
      SectionKeepsTransfers(w, s, t);
      OldTransferCovered(w, s.id, s.req, t);
    }
  }

  lemma SectionKeepsTransfers(w: World, s: Step, t: nat)
    requires Sound(w) && Enabled(w, s) && s.Section? && t in w.transfers
    ensures var w' := Next(w, s); t in w'.transfers && w'.transfers[t] == w.transfers[t]
    ensures Next(w, s).ctxs == w.ctxs[s.id := Serve(w.dev, w.ctxs[s.id], s.req).ctx] && w.transfers[t].ctx in w.ctxs
  {
  }

  lemma StepKeepsCover(w: World, s: Step)
    requires Sound(w) && ActivityAllowed(w) && ProofsCover(w) && LooksCurrent(w) && Enabled(w, s) && !s.Fault?
    ensures ProofsCover(Next(w, s))
  {
    var w' := Next(w, s);
    if s.Section? {
      InvKnows(w.dev.sm, Holdings(w), s.id);
      ServeCovers(w.dev, w.ctxs[s.id], s.req);
      forall t | t in w'.transfers && w'.transfers[t].ctx in w'.ctxs
        ensures TransferCovered(w'.ctxs[w'.transfers[t].ctx], w'.transfers[t])
      {
        SectionKeepsTransferCovered(w, s, t);
      }
    } else {
      QuietOnlyRests(w, s);
      RestKeepsGuards(w, w');
    }
  }

  lemma SectionKeepsLooks(w: World, s: Step)
    requires CallsSound(w) && LooksCurrent(w) && Enabled(w, s) && s.Section?
    ensures LooksCurrent(Next(w, s))
  {
    ServeKeepsProfile(w.dev, w.ctxs[s.id], s.req);
    ServeNeverLooks(w.dev, w.ctxs[s.id], s.req);
  }

  lemma ServeNeverLooks(dev: Device, ctx: Context, req: Request)
    ensures var r := Serve(dev, ctx, req); r.call.Some? ==> !r.call.value.Looked?
  {
  }

  lemma QuietKeepsLooks(w: World, s: Step)
    requires CallsSound(w) && LooksCurrent(w) && Enabled(w, s) && !s.Section? && !s.Fault?
    ensures LooksCurrent(Next(w, s))
  {
    var w' := Next(w, s);
    QuietOnlyRests(w, s);
    forall c | c in w'.calls && w'.calls[c].call.Looked? && Binds(w'.calls[c].call.profile) && w'.calls[c].ctx in w'.ctxs
      ensures w'.ctxs[w'.calls[c].ctx].holder.profile == w'.calls[c].call.profile
    {
      QuietKeepsCall(w, s, c);
    }
  }

  lemma QuietKeepsCall(w: World, s: Step, c: nat)
    requires Enabled(w, s) && !s.Section? && !s.Fault? && c in Next(w, s).calls
    ensures if c in w.calls then Next(w, s).calls[c] == w.calls[c]
            else s.Look? && Next(w, s).calls[c] == Pending(s.id, Looked(w.ctxs[s.id].holder.profile))
  {
  }

  lemma StepKeepsLooks(w: World, s: Step)
    requires CallsSound(w) && LooksCurrent(w) && Enabled(w, s) && !s.Fault?
    ensures LooksCurrent(Next(w, s))
  {
    if s.Section? { SectionKeepsLooks(w, s); } else { QuietKeepsLooks(w, s); }
  }

  lemma StepKeepsDomains(w: World, s: Step)
    requires Referenced(w) && DomainsApart(w) && Enabled(w, s) && !s.Fault?
    ensures DomainsApart(Next(w, s))
  {
    if s.Section? {
      ServeAnchor(w.dev, w.ctxs[s.id], s.req);
    } else {
      QuietOnlyRests(w, s);
      RestKeepsGuards(w, Next(w, s));
    }
  }

  lemma StepKeepsGuarded(w: World, s: Step)
    requires Sound(w) && Anchors(w) && Guarded(w) && Enabled(w, s) && !s.Fault?
    ensures Guarded(Next(w, s))
  {
    StepKeepsAllowed(w, s);
    StepKeepsGrounded(w, s);
    StepKeepsPinned(w, s);
    StepKeepsCover(w, s);
    StepKeepsLooks(w, s);
    StepKeepsDomains(w, s);
  }
}
