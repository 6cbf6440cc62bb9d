/** The critical sections of the device lease as the driver runs them: the device record and the file's
    context are updated in place under the lease lock. */
module LeaseMethods {

  import opened LeaseMachine
  import opened LeaseCode
  import opened LeaseSections
  import opened Options

  /** `struct mx_file_ctx` */
  class FileContext {
    const lease: HolderRecord
    var direct: nat
    var transfers: nat
    var bars: nat
    var open: bool
    var refs: nat
    var owed: nat
    var proofs: Proofs
    var everBound: bool

    constructor ()
      ensures Value() == FRESH_CONTEXT && fresh(lease)
    {
      lease := new HolderRecord();
      direct, transfers, bars := 0, 0, 0;
      open, refs, owed := true, 1, 0;
      proofs, everBound := UNBOUND, false;
    }

    function Value(): (ctx: Context)
      reads this, lease
    {
      Context(lease.Value(), direct, transfers, bars, open, refs, owed, proofs, everBound)
    }
  }

  /** `struct mx_device_lease` */
  class DeviceLease {
    const state: StateRecord
    const incarnation: nat
    var removed: bool
    var anchor: Option<Anchor>
    var generation: nat
    var counter: nat
    var slotDomain: Option<nat>

    constructor (incarnation: nat)
      ensures Value() == Device(incarnation, false, FRESH_SM, None, 0, 0, None) && fresh(state)
    {
      this.incarnation := incarnation;
      state := new StateRecord();
      removed, anchor, generation, counter, slotDomain := false, None, 0, 0, None;
    }

    function Value(): (dev: Device)
      reads this, state
    {
      Device(incarnation, removed, state.Value(), anchor, generation, counter, slotDomain)
    }

    /** `mx_lease_next_generation` */
    method NextNumber() returns (g: nat)
      modifies this`counter
      ensures g == counter == NextGeneration(old(counter)) && 0 < g < WORD64
    {
      counter := (counter + 1) % WORD64;
      if counter == 0 { counter := counter + 1; }
      g := counter;
    }

    method AcquireLocked(ctx: FileContext, req: Request) returns (err: Errno, call: Option<Call>)
      requires req.AcquireReq?
      modifies this, state, ctx, ctx.lease
      ensures Outcome(err, Value(), ctx.Value(), call) == AcquireSection(old(Value()), old(ctx.Value()), req)
    {
      call := None;
      if removed { return ENODEV, None; }
      if req.incarnation == 0 || req.incarnation != incarnation { return ESTALE, None; }
      var first := false;
      if anchor.None? {
        if req.generation != 0 { return ESTALE, None; }
        if !req.profile.IsPublisher() { return ENXIO, None; }
        first := true;
      } else if req.generation == 0 || req.generation != generation {
        return ESTALE, None;
      } else if anchor.value.inode != req.inode {
        return EXDEV, None;
      } else if anchor.value.identity != req.identity {
        return ESTALE, None;
      } else {
        err := ValidateAnchoredAcquire(state.Value(), anchor.value.family, req.profile);
        if err != Ok { return err, None; }
      }
      err := state.AcquireLease(ctx.lease, req.profile);
      if err != Ok { return err, None; }
      if first {
        anchor := Some(Anchor(req.inode, req.identity, req.profile.Family()));
        generation := NextNumber();
      }
      call := Some(AcquireCall(ctx.lease.Value(), first, generation, req.inode));
    }

    /** The end of `mx_lease_acquire` when its reply could not be copied out. */
    method TakeBackAcquire(ctx: FileContext, call: Call)
      requires call.AcquireCall?
      modifies this, state, ctx, ctx.lease
      ensures (Value(), ctx.Value()) == TakeBack(old(Value()), old(ctx.Value()), call)
    {
      if ctx.lease.Value() == call.holder { state.ReleaseLease(ctx.lease); }
      if call.first && anchor.Some? && generation == call.generation && anchor.value.inode == call.inode &&
         Idle(state.Value()) {
        anchor := None;
        generation := 0;
      }
    }

    method TransitionLocked(ctx: FileContext, req: Request) returns (err: Errno, call: Option<Call>)
      requires req.TransitionReq?
      modifies this, state, ctx, ctx.lease
      ensures Outcome(err, Value(), ctx.Value(), call) == TransitionSection(old(Value()), old(ctx.Value()), req)
    {
      call := None;
      if removed { return ENODEV, None; }
      if Stale(Value(), req.incarnation, req.generation) { return ESTALE, None; }
      var oldSm, oldHolder := state.Value(), ctx.lease.Value();
      err := state.TransitionLease(ctx.lease, req.op, ctx.direct, ctx.transfers, ctx.bars, slotDomain.Some?);
      if err != Ok { return err, None; }
      call := Some(TransitionCall(oldSm, state.Value(), oldHolder, ctx.lease.Value()));
    }

    /** The end of `mx_lease_transition` when its reply could not be copied out. */
    method TakeBackTransition(ctx: FileContext, call: Call)
      requires call.TransitionCall?
      modifies this, state, ctx, ctx.lease
      ensures (Value(), ctx.Value()) == TakeBack(old(Value()), old(ctx.Value()), call)
    {
      if state.Value() == call.newSm && ctx.lease.Value() == call.newHolder {
        var sm, h := call.oldSm, call.oldHolder;
        state.family, state.familyHolders, state.publishers := sm.family, sm.familyHolders, sm.publishers;
        state.workloads, state.legacyHolders := sm.workloads, sm.legacyHolders;
        state.quiescent, state.coordinatorReady := sm.quiescent, sm.coordinatorReady;
        ctx.lease.profile, ctx.lease.phase, ctx.lease.legacy := h.profile, h.phase, h.legacy;
      }
    }

    method AnchorLocked(ctx: FileContext, req: Request) returns (err: Errno, call: Option<Call>)
      requires req.AnchorReq?
      modifies this
      ensures Outcome(err, Value(), ctx.Value(), call) == AnchorSection(old(Value()), old(ctx.Value()), req)
    {
      if removed { return ENODEV, None; }
      if Stale(Value(), req.incarnation, req.generation) { return ESTALE, None; }
      var anchored := slotDomain.Some?;
      err := ValidateSlotDomainAnchor(ctx.lease.Value(), if anchor.Some? then anchor.value.family else NoFamily,
                                      anchor.Some?, ctx.direct, ctx.transfers, ctx.bars, anchored,
                                      anchored && slotDomain.value == req.inode);
      if err != Ok { return err, None; }
      if anchor.Some? && anchor.value.inode == req.inode { return EINVAL, None; }
      if !anchored {
        if req.lock.Refused? { return LockError(req.lock), None; }
        slotDomain := Some(req.inode);
      }
      return Ok, Some(AnchorCall(!anchored, req.inode));
    }

    /** The end of `mx_lease_anchor_slot_domain` when its reply could not be copied out. */
    method TakeBackAnchor(ctx: FileContext, call: Call)
      requires call.AnchorCall?
      modifies this`slotDomain
      ensures (Value(), ctx.Value()) == TakeBack(old(Value()), old(ctx.Value()), call)
    {
      if call.first && slotDomain.Some? && slotDomain.value == call.inode { slotDomain := None; }
    }

    method BindLocked(ctx: FileContext, req: Request) returns (err: Errno, call: Option<Call>)
      requires req.BindReq?
      modifies ctx
      ensures Outcome(err, Value(), ctx.Value(), call) == BindSection(Value(), old(ctx.Value()), req)
    {
      var p := ctx.proofs;
      err := BindShape(req.seen, req);
      if err != Ok { return err, None; }
      if !ProofRequestMatches(Value(), req) { return if removed then ENODEV else ESTALE, None; }
      if ctx.lease.phase != Workload { return EACCES, None; }
      if ctx.direct > 0 || ctx.transfers > 0 { return EBUSY, None; }
      var same := SameBinding(p, req);
      if (p.slotSource.Some? || p.slotProof.Some? || p.lifetimeProof.Some?) && !same { return EALREADY, None; }
      if !same && req.slotFile.Some? {
        if slotDomain.None? { return EUCLEAN, None; }
        if req.slotFile.value.inode != slotDomain.value { return EXDEV, None; }
        if req.identityHeld != Ok { return req.identityHeld, None; }
        if req.slotLock.Refused? { return LockError(req.slotLock), None; }
      }
      if req.tag != 0 {
        if req.lifetimeFile.value.inode != anchor.value.inode { return EXDEV, None; }
        if !same && req.lifetimeLock.Refused? { return LockError(req.lifetimeLock), None; }
      }
      if same { return Ok, Some(BindCall(false, UNBOUND)); }
      ctx.proofs := Installed(Value(), req);
      ctx.everBound := true;
      return Ok, Some(BindCall(true, ctx.proofs));
    }

    method UnbindLocked(ctx: FileContext, req: Request) returns (err: Errno, call: Option<Call>)
      requires req.UnbindReq?
      modifies ctx
      ensures Outcome(err, Value(), ctx.Value(), call) == UnbindSection(Value(), old(ctx.Value()), req)
    {
      var profile, p := ctx.lease.profile, ctx.proofs;
      if !ValidTag(req.seen, req.tag) { return EINVAL, None; }
      if !ProofRequestMatches(Value(), req) { return if removed then ENODEV else ESTALE, None; }
      if !BindsSlot(profile) && !BindsLifetime(profile) { return EPERM, None; }
      if p.slotProof.Some? && req.slot != p.slot { return ESTALE, None; }
      if p.slotProof.None? && req.slot != 0 { return EINVAL, None; }
      if req.tag != p.tag { return ESTALE, None; }
      if ctx.bars > 0 || ctx.direct > 0 { return EBUSY, None; }
      ctx.proofs := UNBOUND;
      return Ok, Some(UnbindCall(p));
    }

    /** The end of the two proof calls when their reply could not be copied out. */
    method TakeBackProofs(ctx: FileContext, call: Call)
      requires call.BindCall? || call.UnbindCall?
      modifies ctx
      ensures (Value(), ctx.Value()) == TakeBack(Value(), old(ctx.Value()), call)
    {
      if call.BindCall? {
        if call.committed && SameFiles(ctx.proofs, call.installed) { ctx.proofs := UNBOUND; }
      } else if SameFiles(ctx.proofs, UNBOUND) {
        ctx.proofs := call.saved;
      }
    }

    /** `mx_lease_direct_begin`: a call refused for its proofs gives its admission back. */
    method BeginDirect(ctx: FileContext) returns (err: Errno)
      modifies state, ctx, ctx.lease
      ensures Outcome(err, Value(), ctx.Value(), None) == DirectBeginSection(old(Value()), old(ctx.Value()))
    {
      if removed { return ENODEV; }
      var charged;
      err, charged := state.AdmitDirect(ctx.lease, anchor.Some?, ctx.direct);
      ctx.direct := charged;
      var admitted := err == Ok;
      if err == Ok {
        err := ValidateProofs(ctx.lease.profile, ctx.everBound, ctx.proofs.slotProof.Some?, ctx.proofs.lifetimeProof.Some?);
      }
      if err != Ok && admitted { ctx.direct := ctx.direct - 1; }
    }

    /** `mx_lease_transfer_get`: what the transfer pins is what the file has bound at that moment. */
    method GetTransfer(ctx: FileContext) returns (err: Errno, slotPin: Option<Pin>, lifetimePin: Option<Pin>)
      modifies ctx
      ensures Outcome(err, Value(), ctx.Value(), None) == TransferGetSection(Value(), old(ctx.Value()))
      ensures err == Ok ==> slotPin == ctx.proofs.slotProof && lifetimePin == ctx.proofs.lifetimeProof
    {
      slotPin, lifetimePin := None, None;
      if removed { return ENODEV, None, None; }
      if ctx.direct == 0 { return EACCES, None, None; }
      err := ValidateProofs(ctx.lease.profile, ctx.everBound, ctx.proofs.slotProof.Some?, ctx.proofs.lifetimeProof.Some?);
      if err != Ok { return err, None, None; }
      if ctx.transfers == U32_MAX { return EOVERFLOW, None, None; }
      ctx.refs := ctx.refs + 1;
      slotPin, lifetimePin := ctx.proofs.slotProof, ctx.proofs.lifetimeProof;
      ctx.transfers := ctx.transfers + 1;
    }
  }
}
