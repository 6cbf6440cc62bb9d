/** What each critical section of the device lease does to the device record and to the calling
    file's context, and how a call whose reply could not be delivered takes its change back. */
module LeaseSections {

  import opened LeaseMachine
  import opened Options

  /** An open file and the inode behind it. */
  datatype File = File(id: nat, inode: nat)

  /** What a bound proof pins: a shared byte lock on a description only the driver has, or a pipe's write end. */
  datatype Pin = ByteLock(file: nat, inode: nat, byte: nat) | PipeEnd(file: nat)

  datatype Proofs = Proofs(slotSource: Option<File>, slotProof: Option<Pin>,
                           lifetimeSource: Option<File>, lifetimeProof: Option<Pin>, tag: nat, slot: nat)

  const UNBOUND: Proofs := Proofs(None, None, None, None, 0, 0)

  /** `struct mx_file_ctx`: the lease holder, its activity, its references and its proofs.
      `owed` are references whose holder has left its critical section but not yet dropped them. */
  datatype Context = Context(holder: Holder, direct: nat, transfers: nat, bars: nat,
                             open: bool, refs: nat, owed: nat, proofs: Proofs, everBound: bool)

  const FRESH_CONTEXT: Context := Context(FRESH_HOLDER, 0, 0, 0, true, 1, 0, UNBOUND, false)

  datatype Anchor = Anchor(inode: nat, identity: nat, family: Family)

  /** `struct mx_device_lease` */
  datatype Device = Device(incarnation: nat, removed: bool, sm: Sm, state: Option<Anchor>,
                           generation: nat, counter: nat, slotDomain: Option<nat>)

  /** The outcome of asking the file-lock layer for a lock. */
  datatype Lock = Locked(file: nat) | Refused(err: Errno)

  datatype Request =
    | AcquireReq(incarnation: nat, generation: nat, profile: Profile, inode: nat, identity: nat)
    | TransitionReq(incarnation: nat, generation: nat, op: Operation)
    | AnchorReq(incarnation: nat, generation: nat, inode: nat, lock: Lock)
    | BindReq(seen: Profile, incarnation: nat, generation: nat, identity: nat, slotFile: Option<File>,
              lifetimeFile: Option<File>,
              slot: nat, tag: nat, identityHeld: Errno, slotLock: Lock, lifetimeLock: Lock)
    | UnbindReq(seen: Profile, incarnation: nat, generation: nat, identity: nat, slot: nat, tag: nat)
    | DirectBegin
    | DirectEnd
    | TransferGet(transfer: nat)
    | BarMap

  /** What a call remembers between leaving the lock and learning whether its reply arrived. */
  datatype Call =
    | AcquireCall(holder: Holder, first: bool, generation: nat, inode: nat)
    | TransitionCall(oldSm: Sm, newSm: Sm, oldHolder: Holder, newHolder: Holder)
    | AnchorCall(first: bool, inode: nat)
    | BindCall(committed: bool, installed: Proofs)
    | UnbindCall(saved: Proofs)
    | Looked(profile: Profile)

  datatype Outcome = Outcome(err: Errno, dev: Device, ctx: Context, call: Option<Call>)

  const WORD64: nat := 0x1_0000_0000_0000_0000
  const LIFETIME_OFD_FLAG: nat := 0x1_0000_0000
  const MAX_WORKLOAD_SLOT: nat := 4095
  const MAX_SLOT: nat := 63

  /** `mx_lease_next_generation`: a 64-bit counter that skips zero. */
  function NextGeneration(counter: nat): (g: nat) {
    if (counter + 1) % WORD64 == 0 then 1 else (counter + 1) % WORD64
  }

  function SlotLiveness(slot: nat): (byte: nat) {
    slot * 2 + 1
  }

  function WorkloadLiveness(slot: nat): (byte: nat) {
    8192 + slot * 2 + 1
  }

  function Fail(err: Errno, dev: Device, ctx: Context): (r: Outcome) {
    Outcome(err, dev, ctx, None)
  }

  predicate Stale(dev: Device, incarnation: nat, generation: nat) {
    incarnation == 0 || incarnation != dev.incarnation || generation == 0 || generation != dev.generation
  }

  /** `mx_lease_acquire`, from taking the lock to leaving it. */
  function AcquireSection(dev: Device, ctx: Context, req: Request): (r: Outcome)
    requires req.AcquireReq?
  {
    if dev.removed then Fail(ENODEV, dev, ctx)
    else if req.incarnation == 0 || req.incarnation != dev.incarnation then Fail(ESTALE, dev, ctx)
    else
      var err := AnchorAdmits(dev, req);
      if err != Ok then Fail(err, dev, ctx)
      else
        var reply := Acquire(dev.sm, ctx.holder, req.profile);
        if reply.err != Ok then Fail(reply.err, dev, ctx)
        else
          var first := dev.state.None?;
          var dev' := if first then Anchored(dev, req) else dev;
          Outcome(Ok, dev'.(sm := reply.sm), ctx.(holder := reply.holder),
                  Some(AcquireCall(reply.holder, first, dev'.generation, req.inode)))
  }

  function AnchorAdmits(dev: Device, req: Request): (err: Errno)
    requires req.AcquireReq?
  {
    match dev.state
    case None =>
      if req.generation != 0 then ESTALE
      else if !req.profile.IsPublisher() then ENXIO
      else Ok
    case Some(anchor) =>
      if req.generation == 0 || req.generation != dev.generation then ESTALE
      else if anchor.inode != req.inode then EXDEV
      else if anchor.identity != req.identity then ESTALE
      else ValidateAnchoredAcquire(dev.sm, anchor.family, req.profile)
  }

  function Anchored(dev: Device, req: Request): (dev': Device)
    requires req.AcquireReq?
  {
    dev.(state := Some(Anchor(req.inode, req.identity, req.profile.Family())),
         generation := NextGeneration(dev.counter), counter := NextGeneration(dev.counter))
  }

  /** `mx_lease_transition`, from taking the lock to leaving it. */
  function TransitionSection(dev: Device, ctx: Context, req: Request): (r: Outcome)
    requires req.TransitionReq?
  {
    if dev.removed then Fail(ENODEV, dev, ctx)
    else if Stale(dev, req.incarnation, req.generation) then Fail(ESTALE, dev, ctx)
    else
      var reply := Transition(dev.sm, ctx.holder, req.op, ctx.direct, ctx.transfers, ctx.bars, dev.slotDomain.Some?);
      if reply.err != Ok then Fail(reply.err, dev, ctx)
      else
        Outcome(Ok, dev.(sm := reply.sm), ctx.(holder := reply.holder),
                Some(TransitionCall(dev.sm, reply.sm, ctx.holder, reply.holder)))
  }

  /** `mx_lease_anchor_slot_domain`, from taking the lock to leaving it. */
  function AnchorSection(dev: Device, ctx: Context, req: Request): (r: Outcome)
    requires req.AnchorReq?
  {
    if dev.removed then Fail(ENODEV, dev, ctx)
    else if Stale(dev, req.incarnation, req.generation) then Fail(ESTALE, dev, ctx)
    else
      var family := if dev.state.Some? then dev.state.value.family else NoFamily;
      var err := ValidateSlotDomainAnchor(ctx.holder, family, dev.state.Some?, ctx.direct, ctx.transfers, ctx.bars,
                                          dev.slotDomain.Some?, dev.slotDomain == Some(req.inode));
      if err != Ok then Fail(err, dev, ctx)
      else if dev.state.Some? && dev.state.value.inode == req.inode then Fail(EINVAL, dev, ctx)
      else if dev.slotDomain.Some? then Outcome(Ok, dev, ctx, Some(AnchorCall(false, req.inode)))
      else if req.lock.Refused? then Fail(LockError(req.lock), dev, ctx)
      else Outcome(Ok, dev.(slotDomain := Some(req.inode)), ctx, Some(AnchorCall(true, req.inode)))
  }

  predicate BindsSlot(profile: Profile) {
    profile == HubWorkload || profile == CoordinatorControl
  }

  predicate BindsLifetime(profile: Profile) {
    profile == StandaloneWorkload || profile == CoordinatorWorkload
  }

  /** `mx_lease_sm_valid_lifetime_tag` */
  predicate ValidTag(profile: Profile, tag: nat) {
    tag == 0 || (profile == CoordinatorWorkload && LIFETIME_OFD_FLAG <= tag <= LIFETIME_OFD_FLAG + MAX_WORKLOAD_SLOT)
  }

  /** Which files and slots a profile may present. */
  function BindShape(profile: Profile, req: Request): (err: Errno)
    requires req.BindReq?
  {
    if !ValidTag(profile, req.tag) then EINVAL
    else if BindsSlot(profile) then
      if profile == CoordinatorControl && req.lifetimeFile.Some? then EINVAL
      else if req.slotFile.None? || req.slot > MAX_SLOT || (profile != CoordinatorControl && req.slot == 0) then EINVAL
      else Ok
    else if BindsLifetime(profile) then
      if req.slotFile.Some? || req.slot != 0 || req.lifetimeFile.None? then EINVAL else Ok
    else EPERM
  }

  predicate ProofRequestMatches(dev: Device, req: Request)
    requires req.BindReq? || req.UnbindReq?
  {
    !dev.removed && !Stale(dev, req.incarnation, req.generation) && dev.state.Some? && req.identity != 0
    && dev.state.value.identity == req.identity
  }

  predicate SameBinding(p: Proofs, req: Request)
    requires req.BindReq?
  {
    && p.slotSource == req.slotFile && p.slot == req.slot && p.tag == req.tag
    && if req.tag != 0 then p.lifetimeSource == req.lifetimeFile
       else p.lifetimeProof == if req.lifetimeFile.Some? then Some(PipeEnd(req.lifetimeFile.value.id)) else None
  }

  /** The proofs a bind that gets every lock installs. */
  function Installed(dev: Device, req: Request): (p: Proofs)
    requires req.BindReq? && dev.state.Some? && (req.slotFile.Some? ==> req.slotLock.Locked?)
    requires req.tag != 0 ==> req.lifetimeLock.Locked?
  {
    Proofs(req.slotFile,
           if req.slotFile.Some?
           then Some(ByteLock(req.slotLock.file, req.slotFile.value.inode, SlotLiveness(req.slot))) else None,
           if req.tag != 0 then req.lifetimeFile else None,
           if req.tag != 0
           then Some(ByteLock(req.lifetimeLock.file, dev.state.value.inode,
                              WorkloadLiveness(req.tag % (MAX_WORKLOAD_SLOT + 1))))
           else if req.lifetimeFile.Some? then Some(PipeEnd(req.lifetimeFile.value.id)) else None,
           req.tag, req.slot)
  }

  /** `mx_lease_bind_proofs`, from taking the lock to leaving it. */
  function BindSection(dev: Device, ctx: Context, req: Request): (r: Outcome)
    requires req.BindReq?
  {
    var p := ctx.proofs;
    var shape := BindShape(req.seen, req);
    if shape != Ok then Fail(shape, dev, ctx)
    else if !ProofRequestMatches(dev, req) then Fail(if dev.removed then ENODEV else ESTALE, dev, ctx)
    else if ctx.holder.phase != Workload then Fail(EACCES, dev, ctx)
    else if ctx.direct > 0 || ctx.transfers > 0 then Fail(EBUSY, dev, ctx)
    else if (p.slotSource.Some? || p.slotProof.Some? || p.lifetimeProof.Some?) && !SameBinding(p, req) then
      Fail(EALREADY, dev, ctx)
    else if SameBinding(p, req) then
      if req.tag != 0 && req.lifetimeFile.value.inode != dev.state.value.inode then Fail(EXDEV, dev, ctx)
      else Outcome(Ok, dev, ctx, Some(BindCall(false, UNBOUND)))
    else
      var err := BindLocks(dev, req);
      if err != Ok then Fail(err, dev, ctx)
      else
        var proofs := Installed(dev, req);
        Outcome(Ok, dev, ctx.(proofs := proofs, everBound := true), Some(BindCall(true, proofs)))
  }

  /** The inode checks and locks of a new binding, in the order they are made. */
  function BindLocks(dev: Device, req: Request): (err: Errno)
    requires req.BindReq? && dev.state.Some? && (req.tag != 0 ==> req.lifetimeFile.Some?)
    ensures err == Ok ==> (req.slotFile.Some? ==> req.slotLock.Locked? && dev.slotDomain == Some(req.slotFile.value.inode))
    ensures err == Ok && req.tag != 0 ==> req.lifetimeLock.Locked?
  {
    if req.slotFile.Some? && dev.slotDomain.None? then EUCLEAN
    else if req.slotFile.Some? && req.slotFile.value.inode != dev.slotDomain.value then EXDEV
    else if req.slotFile.Some? && req.identityHeld != Ok then req.identityHeld
    else if req.slotFile.Some? && req.slotLock.Refused? then LockError(req.slotLock)
    else if req.tag != 0 && req.lifetimeFile.value.inode != dev.state.value.inode then EXDEV
    else if req.tag != 0 && req.lifetimeLock.Refused? then LockError(req.lifetimeLock)
    else Ok
  }

  /** A refused lock is an error, whatever number came with it. */
  function LockError(lock: Lock): (err: Errno)
    requires lock.Refused?
    ensures err != Ok
  {
    if lock.err == Ok then EAGAIN else lock.err
  }

  /** `mx_lease_unbind_proofs`, from taking the lock to leaving it. */
  function UnbindSection(dev: Device, ctx: Context, req: Request): (r: Outcome)
    requires req.UnbindReq?
  {
    var profile := ctx.holder.profile;
    if !ValidTag(req.seen, req.tag) then Fail(EINVAL, dev, ctx)
    else if !ProofRequestMatches(dev, req) then Fail(if dev.removed then ENODEV else ESTALE, dev, ctx)
    else if !BindsSlot(profile) && !BindsLifetime(profile) then Fail(EPERM, dev, ctx)
    else if ctx.proofs.slotProof.Some? && req.slot != ctx.proofs.slot then Fail(ESTALE, dev, ctx)
    else if ctx.proofs.slotProof.None? && req.slot != 0 then Fail(EINVAL, dev, ctx)
    else if req.tag != ctx.proofs.tag then Fail(ESTALE, dev, ctx)
    else if ctx.bars > 0 || ctx.direct > 0 then Fail(EBUSY, dev, ctx)
    else Outcome(Ok, dev, ctx.(proofs := UNBOUND), Some(UnbindCall(ctx.proofs)))
  }

  function ProofError(ctx: Context, holder: Holder): (err: Errno) {
    ValidateProofs(holder.profile, ctx.everBound, ctx.proofs.slotProof.Some?, ctx.proofs.lifetimeProof.Some?)
  }

  /** `mx_lease_direct_begin`: admission, then the proof check. */
  function DirectBeginSection(dev: Device, ctx: Context): (r: Outcome) {
    if dev.removed then Fail(ENODEV, dev, ctx)
    else if ctx.direct == U32_MAX then Fail(EOVERFLOW, dev, ctx)
    else
      var reply := AuthorizeDirect(dev.sm, ctx.holder, dev.state.Some?);
      if reply.err != Ok then Fail(reply.err, dev, ctx)
      else
        var err := ProofError(ctx, reply.holder);
        Outcome(err, dev.(sm := reply.sm),
                ctx.(holder := reply.holder, direct := if err == Ok then ctx.direct + 1 else ctx.direct), None)
  }

  /** `mx_lease_transfer_get` */
  function TransferGetSection(dev: Device, ctx: Context): (r: Outcome) {
    if dev.removed then Fail(ENODEV, dev, ctx)
    else if ctx.direct == 0 then Fail(EACCES, dev, ctx)
    else if ProofError(ctx, ctx.holder) != Ok then Fail(ProofError(ctx, ctx.holder), dev, ctx)
    else if ctx.transfers == U32_MAX then Fail(EOVERFLOW, dev, ctx)
    else Outcome(Ok, dev, ctx.(refs := ctx.refs + 1, transfers := ctx.transfers + 1), None)
  }

  /** The accounting of `mx_bar_mmap`; its caller is inside a direct call. */
  function BarMapSection(dev: Device, ctx: Context): (r: Outcome) {
    if ctx.bars == U32_MAX then Fail(EOVERFLOW, dev, ctx)
    else Outcome(Ok, dev, ctx.(refs := ctx.refs + 1, bars := ctx.bars + 1), None)
  }

  /** `mx_lease_direct_end` */
  function DirectEndSection(dev: Device, ctx: Context): (r: Outcome) {
    Outcome(Ok, dev, ctx.(direct := Dec(ctx.direct)), None)
  }

  function Serve(dev: Device, ctx: Context, req: Request): (r: Outcome) {
    match req
    case AcquireReq(_, _, _, _, _) => AcquireSection(dev, ctx, req)
    case TransitionReq(_, _, _) => TransitionSection(dev, ctx, req)
    case AnchorReq(_, _, _, _) => AnchorSection(dev, ctx, req)
    case BindReq(_, _, _, _, _, _, _, _, _, _, _) => BindSection(dev, ctx, req)
    case UnbindReq(_, _, _, _, _, _) => UnbindSection(dev, ctx, req)
    case DirectBegin => DirectBeginSection(dev, ctx)
    case DirectEnd => DirectEndSection(dev, ctx)
    case TransferGet(_) => TransferGetSection(dev, ctx)
    case BarMap => BarMapSection(dev, ctx)
  }

  /** What a call does when its reply could not be copied out. */
  function TakeBack(dev: Device, ctx: Context, call: Call): (r: (Device, Context)) {
    match call
    case AcquireCall(holder, first, generation, inode) =>
      var reply := if ctx.holder == holder then Release(dev.sm, ctx.holder) else Reply(Ok, dev.sm, ctx.holder);
      var dev' := dev.(sm := reply.sm);
      (if first && dev.state.Some? && dev.generation == generation && dev.state.value.inode == inode && Idle(reply.sm)
       then dev'.(state := None, generation := 0) else dev',
       ctx.(holder := reply.holder))
    case TransitionCall(oldSm, newSm, oldHolder, newHolder) =>
      if dev.sm == newSm && ctx.holder == newHolder then (dev.(sm := oldSm), ctx.(holder := oldHolder)) else (dev, ctx)
    case AnchorCall(first, inode) =>
      (if first && dev.slotDomain == Some(inode) then dev.(slotDomain := None) else dev, ctx)
    case BindCall(committed, p) =>
      (dev, if committed && SameFiles(ctx.proofs, p) then ctx.(proofs := UNBOUND) else ctx)
    case UnbindCall(saved) =>
      (dev, if SameFiles(ctx.proofs, UNBOUND) then ctx.(proofs := saved) else ctx)
    case Looked(_) => (dev, ctx)
  }

  predicate SameFiles(p: Proofs, q: Proofs) {
    p.slotSource == q.slotSource && p.slotProof == q.slotProof && p.lifetimeSource == q.lifetimeSource
    && p.lifetimeProof == q.lifetimeProof
  }

  /** A section that fails leaves everything as it was and no call to take back. */
  lemma FailureChangesNothing(dev: Device, ctx: Context, req: Request)
    requires Serve(dev, ctx, req).err != Ok
    ensures Serve(dev, ctx, req) == Fail(Serve(dev, ctx, req).err, dev, ctx)
  {
    match req
    case AcquireReq(_, _, _, _, _) =>
    case TransitionReq(_, _, _) =>
    case AnchorReq(_, _, _, _) =>
    case BindReq(_, _, _, _, _, _, _, _, _, _, _) =>
    case UnbindReq(_, _, _, _, _, _) =>
    case DirectBegin => assert AuthorizeDirect(dev.sm, ctx.holder, dev.state.Some?).holder.profile == ctx.holder.profile;
    case DirectEnd =>
    case TransferGet(_) =>
    case BarMap =>
  }
}
