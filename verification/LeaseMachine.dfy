/** The lease state machine over any number of holders: family, publisher and workload counts,
    quiescence and the readiness of coordinated devices. */
module LeaseMachine {

  import opened Counting

  const U32_MAX: nat := 0xffff_ffff

  datatype Errno = Ok | EINVAL | EBUSY | EALREADY | EOVERFLOW | ENXIO | EPERM | EUCLEAN | EACCES | EXDEV
                 | ENODEV | ESTALE | EAGAIN

  datatype Family = NoFamily | Hub | Standalone | Coordinator

  datatype Profile = NoProfile | HubPublisher | HubWorkload | StandalonePublisher | StandaloneWorkload
                   | CoordinatorInitializer | CoordinatorControl | CoordinatorWorkload | UnknownProfile
  {
    /** `mx_lease_profile_is_publisher` */
    predicate IsPublisher() {
      this == HubPublisher || this == StandalonePublisher || this == CoordinatorInitializer
    }

    /** `mx_lease_profile_family` */
    function Family(): (f: Family) {
      match this
      case HubPublisher => Hub
      case HubWorkload => Hub
      case StandalonePublisher => Standalone
      case StandaloneWorkload => Standalone
      case CoordinatorInitializer => Coordinator
      case CoordinatorControl => Coordinator
      case CoordinatorWorkload => Coordinator
      case NoProfile => NoFamily
      case UnknownProfile => NoFamily
    }
  }

  datatype Phase = NoPhase | Quiescent | Candidate | Workload | Prepared

  datatype Operation = TryQuiescent | ActivateWorkload | ActivateReplacement | ActivateCoordinator | UnknownOperation

  /** `struct mx_lease_sm` */
  datatype Sm = Sm(family: Family, familyHolders: nat, publishers: nat, workloads: nat, legacyHolders: nat,
                   quiescent: bool, coordinatorReady: bool)

  /** `struct mx_lease_sm_holder` */
  datatype Holder = Holder(profile: Profile, phase: Phase, legacy: bool)

  /** What a call leaves behind. */
  datatype Reply = Reply(err: Errno, sm: Sm, holder: Holder)

  const FRESH_SM: Sm := Sm(NoFamily, 0, 0, 0, 0, false, false)
  const FRESH_HOLDER: Holder := Holder(NoProfile, NoPhase, false)

  /** `mx_lease_sm_idle` */
  predicate Idle(sm: Sm) {
    sm.familyHolders == 0 && sm.publishers == 0 && sm.workloads == 0 && !sm.quiescent
  }

  // ---------------------------------------------------------------------------------------------
  // The calls, as functions of the machine and the calling holder
  // ---------------------------------------------------------------------------------------------

  /** The phase a new holder would enter, or why it may not. */
  function AcquirePhase(sm: Sm, profile: Profile): (r: (Errno, Phase)) {
    match profile
    case CoordinatorInitializer =>
      if sm.publishers > 0 || sm.quiescent || sm.workloads > 0 then (EBUSY, NoPhase) else (Ok, Quiescent)
    case CoordinatorControl => if !sm.coordinatorReady then (ENXIO, NoPhase) else WorkloadPhase(sm)
    case CoordinatorWorkload => if !sm.coordinatorReady then (ENXIO, NoPhase) else WorkloadPhase(sm)
    case HubPublisher =>
      if sm.publishers > 0 || sm.quiescent then (EBUSY, NoPhase)
      else (Ok, if sm.workloads > 0 then Candidate else Quiescent)
    case StandalonePublisher =>
      if sm.publishers > 0 || sm.quiescent || sm.workloads > 0 then (EBUSY, NoPhase) else (Ok, Quiescent)
    case HubWorkload => WorkloadPhase(sm)
    case StandaloneWorkload => WorkloadPhase(sm)
    case NoProfile => (EINVAL, NoPhase)
    case UnknownProfile => (EINVAL, NoPhase)
  }

  function WorkloadPhase(sm: Sm): (r: (Errno, Phase)) {
    if sm.quiescent then (EBUSY, NoPhase)
    else if sm.workloads == U32_MAX then (EOVERFLOW, NoPhase)
    else (Ok, Workload)
  }

  /** `mx_lease_sm_acquire` */
  function Acquire(sm: Sm, h: Holder, profile: Profile): (r: Reply) {
    var family := profile.Family();
    if family == NoFamily then Reply(EINVAL, sm, h)
    else if h.legacy || sm.legacyHolders > 0 then Reply(EBUSY, sm, h)
    else if h.profile != NoProfile then Reply(if h.profile == profile then Ok else EALREADY, sm, h)
    else if sm.family != NoFamily && sm.family != family then Reply(EBUSY, sm, h)
    else if sm.familyHolders == U32_MAX then Reply(EOVERFLOW, sm, h)
    else
      var (err, phase) := AcquirePhase(sm, profile);
      if err != Ok then Reply(err, sm, h)
      else
        Reply(Ok,
              Sm(if sm.familyHolders == 0 then family else sm.family,
                 sm.familyHolders + 1,
                 sm.publishers + (if profile.IsPublisher() then 1 else 0),
                 sm.workloads + (if phase == Workload then 1 else 0),
                 sm.legacyHolders,
                 sm.quiescent || phase == Quiescent,
                 sm.coordinatorReady && profile != CoordinatorInitializer),
              Holder(profile, phase, h.legacy))
  }

  /** `mx_lease_sm_transition` */
  function Transition(sm: Sm, h: Holder, op: Operation, direct: nat, transfers: nat, bars: nat, anchored: bool)
    : (r: Reply)
  {
    var active := direct > 0 || transfers > 0 || bars > 0;
    if !h.profile.IsPublisher() || h.legacy then Reply(EPERM, sm, h)
    else if h.profile == CoordinatorInitializer then
      if op != ActivateCoordinator then Reply(EINVAL, sm, h)
      else if h.phase == Prepared then Reply(if sm.coordinatorReady then Ok else EUCLEAN, sm, h)
      else if h.phase != Quiescent then Reply(EINVAL, sm, h)
      else if !anchored then Reply(ENXIO, sm, h)
      else if active then Reply(EBUSY, sm, h)
      else if !sm.quiescent then Reply(EUCLEAN, sm, h)
      else Reply(Ok, sm.(quiescent := false, coordinatorReady := true), h.(phase := Prepared))
    else if h.profile == HubPublisher && (op == ActivateWorkload || op == ActivateReplacement) && !anchored then
      Reply(ENXIO, sm, h)
    else if op == ActivateWorkload && h.phase == Quiescent && active then Reply(EBUSY, sm, h)
    else
      match op
      case TryQuiescent =>
        if h.phase == Quiescent then Reply(Ok, sm, h)
        else if h.phase != Candidate then Reply(EINVAL, sm, h)
        else if sm.workloads > 0 || sm.quiescent then Reply(EBUSY, sm, h)
        else Reply(Ok, sm.(quiescent := true), h.(phase := Quiescent))
      case ActivateWorkload =>
        if h.phase == Workload then Reply(Ok, sm, h)
        else if h.phase != Quiescent then Reply(EINVAL, sm, h)
        else if sm.workloads == U32_MAX then Reply(EOVERFLOW, sm, h)
        else if !sm.quiescent then Reply(EUCLEAN, sm, h)
        else Reply(Ok, sm.(quiescent := false, workloads := sm.workloads + 1), h.(phase := Workload))
      case ActivateReplacement =>
        if h.profile != HubPublisher || h.phase != Candidate then Reply(EINVAL, sm, h)
        else if sm.workloads == U32_MAX then Reply(EOVERFLOW, sm, h)
        else Reply(Ok, sm.(workloads := sm.workloads + 1), h.(phase := Workload))
      case ActivateCoordinator => Reply(EINVAL, sm, h)
      case UnknownOperation => Reply(EINVAL, sm, h)
  }

  /** `mx_lease_sm_release` */
  function Release(sm: Sm, h: Holder): (r: Reply) {
    if h.legacy then
      Reply(Ok, sm.(legacyHolders := Dec(sm.legacyHolders)), h.(legacy := false))
    else if h.profile == NoProfile then Reply(Ok, sm, h)
    else
      var holders := Dec(sm.familyHolders);
      Reply(Ok,
            Sm(if holders == 0 then NoFamily else sm.family,
               holders,
               if h.profile.IsPublisher() then Dec(sm.publishers) else sm.publishers,
               if h.phase == Workload then Dec(sm.workloads) else sm.workloads,
               sm.legacyHolders,
               sm.quiescent && h.phase != Quiescent,
               sm.coordinatorReady),
            Holder(NoProfile, NoPhase, false))
  }

  function Dec(n: nat): nat {
    if n > 0 then n - 1 else 0
  }

  /** `mx_lease_sm_authorize_direct_anchored` */
  function AuthorizeDirect(sm: Sm, h: Holder, anchored: bool): (r: Reply) {
    if anchored && h.profile == NoProfile && !h.legacy then Reply(EBUSY, sm, h)
    else if h.profile != NoProfile then
      Reply(if h.phase == Quiescent || h.phase == Workload then Ok else EACCES, sm, h)
    else if h.legacy then Reply(Ok, sm, h)
    else if !Idle(sm) then Reply(EBUSY, sm, h)
    else if sm.legacyHolders == U32_MAX then Reply(EOVERFLOW, sm, h)
    else Reply(Ok, sm.(legacyHolders := sm.legacyHolders + 1), h.(legacy := true))
  }

  /** `mx_lease_sm_validate_anchored_acquire` */
  function ValidateAnchoredAcquire(sm: Sm, stateFamily: Family, profile: Profile): (r: Errno) {
    if stateFamily == NoFamily || stateFamily != profile.Family() then EBUSY
    else if Idle(sm) && !profile.IsPublisher() && !(stateFamily == Coordinator && sm.coordinatorReady) then ENXIO
    else Ok
  }

  /** `mx_lease_sm_validate_slot_domain_anchor` */
  function ValidateSlotDomainAnchor(h: Holder, stateFamily: Family, stateAnchored: bool,
                                    direct: nat, transfers: nat, bars: nat,
                                    domainAnchored: bool, sameInode: bool): (r: Errno)
  {
    var ready :=
      if h.profile == CoordinatorInitializer then h.phase == Quiescent && stateFamily == Coordinator
      else h.profile == HubPublisher && (h.phase == Quiescent || h.phase == Candidate) && stateFamily == Hub;
    if !ready || !stateAnchored then EACCES
    else if direct > 0 || transfers > 0 || bars > 0 then EBUSY
    else if domainAnchored && !sameInode then EXDEV
    else Ok
  }

  /** `mx_lease_sm_validate_proofs` */
  function ValidateProofs(profile: Profile, everBound: bool, slotBound: bool, lifetimeBound: bool): (r: Errno) {
    if NeedsSlotProof(profile, everBound) && !slotBound then EACCES
    else if NeedsLifetimeProof(profile, everBound) && !lifetimeBound then EACCES
    else Ok
  }

  predicate NeedsSlotProof(profile: Profile, everBound: bool) {
    profile == CoordinatorControl || (everBound && profile == HubWorkload)
  }

  predicate NeedsLifetimeProof(profile: Profile, everBound: bool) {
    profile == CoordinatorWorkload || (everBound && profile == StandaloneWorkload)
  }

  // ---------------------------------------------------------------------------------------------
  // Counting holders
  // ---------------------------------------------------------------------------------------------

  type Holders = map<nat, Holder>

  // The predicates that are counted, named so that every mention is the same function.
  function Leased(): Holder -> bool { (h: Holder) => h.profile != NoProfile }
  function Publishing(): Holder -> bool { (h: Holder) => h.profile.IsPublisher() }
  function Working(): Holder -> bool { (h: Holder) => h.phase == Workload }
  function IsLegacy(): Holder -> bool { (h: Holder) => h.legacy }
  function IsQuiescent(): Holder -> bool { (h: Holder) => h.phase == Quiescent }

  // ---------------------------------------------------------------------------------------------
  // The invariant
  // ---------------------------------------------------------------------------------------------

  /** Which phases a profile can be in, and that legacy use excludes a lease. */
  predicate WellFormed(h: Holder) {
    && (h.legacy ==> h.profile == NoProfile)
    && match h.profile
       case NoProfile => h.phase == NoPhase
       case HubPublisher => h.phase == Quiescent || h.phase == Candidate || h.phase == Workload
       case StandalonePublisher => h.phase == Quiescent || h.phase == Workload
       case CoordinatorInitializer => h.phase == Quiescent || h.phase == Prepared
       case UnknownProfile => false
       case _ => h.phase == Workload
  }

  /** The counters are the counts over holders. */
  ghost predicate CountersAgree(sm: Sm, hs: Holders) {
    && sm.familyHolders == Count(hs, Leased()) && sm.publishers == Count(hs, Publishing())
    && sm.workloads == Count(hs, Working()) && sm.legacyHolders == Count(hs, IsLegacy())
    && One(sm.quiescent) == Count(hs, IsQuiescent())
  }

  /** What the counters exclude. */
  predicate Exclusive(sm: Sm) {
    && sm.publishers <= 1
    && (sm.quiescent ==> sm.workloads == 0)
    && (sm.legacyHolders == 0 || sm.familyHolders == 0)
    && (sm.family == NoFamily <==> sm.familyHolders == 0)
  }

  /** Coordinated roles exist, and setup is over, only once the device is ready. */
  predicate ReadyEnough(sm: Sm, h: Holder) {
    h.phase == Prepared || h.profile == CoordinatorControl || h.profile == CoordinatorWorkload ==>
      sm.coordinatorReady
  }

  ghost predicate Inv(sm: Sm, hs: Holders) {
    && CountersAgree(sm, hs) && Exclusive(sm)
    && (forall i :: i in hs ==> WellFormed(hs[i]))
    && (forall i :: i in hs && hs[i].profile != NoProfile ==> hs[i].profile.Family() == sm.family)
    && (forall i :: i in hs ==> ReadyEnough(sm, hs[i]))
  }

  lemma InvInit()
    ensures Inv(FRESH_SM, map[])
  {
    assert Matching(map[], Leased()) == {} && Matching(map[], Publishing()) == {} && Matching(map[], Working()) == {};
    assert Matching(map[], IsLegacy()) == {} && Matching(map[], IsQuiescent()) == {};
  }

  lemma CountersUpdate(hs: Holders, i: nat, h: Holder)
    ensures Count(hs[i := h], Leased())
         == Count(hs, Leased()) - One(i in hs && Leased()(hs[i])) + One(Leased()(h))
    ensures Count(hs[i := h], Publishing())
         == Count(hs, Publishing()) - One(i in hs && Publishing()(hs[i])) + One(Publishing()(h))
    ensures Count(hs[i := h], Working())
         == Count(hs, Working()) - One(i in hs && Working()(hs[i])) + One(Working()(h))
    ensures Count(hs[i := h], IsLegacy())
         == Count(hs, IsLegacy()) - One(i in hs && IsLegacy()(hs[i])) + One(IsLegacy()(h))
    ensures Count(hs[i := h], IsQuiescent())
         == Count(hs, IsQuiescent()) - One(i in hs && IsQuiescent()(hs[i])) + One(IsQuiescent()(h))
  {
    CountUpdate(hs, i, h, Leased());
    CountUpdate(hs, i, h, Publishing());
    CountUpdate(hs, i, h, Working());
    CountUpdate(hs, i, h, IsLegacy());
    CountUpdate(hs, i, h, IsQuiescent());
  }

  /** The words before and after one holder's change: what every step, and every undo of one, has to respect. */
  predicate Replaces(before: Sm, after: Sm, h: Holder, now: Holder) {
    && Deltas(before, after, h, now) && Exclusive(after) && WellFormed(now) && ReadyEnough(after, now)
    && (now.profile != NoProfile ==> now.profile.Family() == after.family)
    && (before.family != after.family ==> before.familyHolders == One(Leased()(h)))
    && (before.coordinatorReady && !after.coordinatorReady ==>
          before.workloads == One(Working()(h)) && before.publishers == One(Publishing()(h)))
  }

  /** No transition admits or dismisses anyone. */
  predicate SameFamily(before: Sm, after: Sm) {
    && before.family == after.family && before.familyHolders == after.familyHolders
    && before.legacyHolders == after.legacyHolders
  }

  /** Each counter moves by what the one holder contributes to it. */
  predicate Deltas(before: Sm, after: Sm, h: Holder, now: Holder) {
    && after.familyHolders + One(Leased()(h)) == before.familyHolders + One(Leased()(now))
    && after.publishers + One(Publishing()(h)) == before.publishers + One(Publishing()(now))
    && after.workloads + One(Working()(h)) == before.workloads + One(Working()(now))
    && after.legacyHolders + One(IsLegacy()(h)) == before.legacyHolders + One(IsLegacy()(now))
    && One(after.quiescent) + One(IsQuiescent()(h)) == One(before.quiescent) + One(IsQuiescent()(now))
  }

  lemma ReplaceKeeps(before: Sm, after: Sm, hs: Holders, i: nat, now: Holder)
    requires Inv(before, hs) && i in hs && Replaces(before, after, hs[i], now)
    ensures Inv(after, hs[i := now])
  {
    CountersUpdate(hs, i, now);
    forall j | j in hs && j != i ensures ReadyEnough(after, hs[j]) {
      if before.coordinatorReady && !after.coordinatorReady {
        OthersAbsent(hs, i, j, Working());
        OthersAbsent(hs, i, j, Publishing());
      }
    }
    forall j | j in hs && j != i && hs[j].profile != NoProfile ensures hs[j].profile.Family() == after.family {
      if before.family != after.family { OthersAbsent(hs, i, j, Leased()); }
    }
  }

  /** What one holder knows of the machine. */
  predicate Knows(sm: Sm, h: Holder) {
    && Exclusive(sm) && WellFormed(h) && ReadyEnough(sm, h)
    && (h.profile != NoProfile ==> h.profile.Family() == sm.family)
    && One(Leased()(h)) <= sm.familyHolders && One(Publishing()(h)) <= sm.publishers
    && One(Working()(h)) <= sm.workloads && One(IsLegacy()(h)) <= sm.legacyHolders
    && One(IsQuiescent()(h)) <= One(sm.quiescent)
    && (h.phase == Candidate || h.phase == Prepared ==> !sm.quiescent)
  }

  lemma InvKnows(sm: Sm, hs: Holders, i: nat)
    requires Inv(sm, hs) && i in hs
    ensures Knows(sm, hs[i])
  {
    var h := hs[i];
    CountAtLeast(hs, i, Leased());
    CountAtLeast(hs, i, Publishing());
    CountAtLeast(hs, i, Working());
    CountAtLeast(hs, i, IsLegacy());
    CountAtLeast(hs, i, IsQuiescent());
    if sm.quiescent {
      var j := CountWitness(hs, IsQuiescent());
      if Publishing()(h) { CountUnique(hs, i, j, Publishing()); }
    }
  }

  /** Counting leases is enough to tell an idle machine. */
  lemma IdleIffNoLease(sm: Sm, hs: Holders)
    requires Inv(sm, hs)
    ensures Idle(sm) <==> sm.familyHolders == 0
  {
    if sm.familyHolders == 0 {
      NoneOf(hs, Leased(), Publishing());
      NoneOf(hs, Leased(), Working());
      NoneOf(hs, Leased(), IsQuiescent());
    }
  }

  // ---------------------------------------------------------------------------------------------
  // Every call keeps the invariant
  // ---------------------------------------------------------------------------------------------

  lemma AcquireReplaces(sm: Sm, h: Holder, profile: Profile)
    requires Knows(sm, h)
    ensures var r := Acquire(sm, h, profile);
            (r.err != Ok ==> r.sm == sm && r.holder == h) && (r.err == Ok ==> Replaces(sm, r.sm, h, r.holder))
  {
  }

  lemma TransitionReplaces(sm: Sm, h: Holder, op: Operation, direct: nat, transfers: nat, bars: nat, anchored: bool)
    requires Knows(sm, h)
    ensures var r := Transition(sm, h, op, direct, transfers, bars, anchored);
            && r.err != EUCLEAN && (r.err != Ok ==> r.sm == sm && r.holder == h)
            && Replaces(sm, r.sm, h, r.holder) && Replaces(r.sm, sm, r.holder, h) && SameFamily(sm, r.sm)
  {
  }

  lemma ReleaseReplaces(sm: Sm, h: Holder)
    requires Knows(sm, h)
    ensures var r := Release(sm, h); Replaces(sm, r.sm, h, r.holder) && r.holder == FRESH_HOLDER
  {
  }

  lemma AuthorizeReplaces(sm: Sm, h: Holder, anchored: bool)
    requires Knows(sm, h)
    ensures var r := AuthorizeDirect(sm, h, anchored);
            (r.err != Ok ==> r.sm == sm && r.holder == h) && Replaces(sm, r.sm, h, r.holder)
  {
  }

  lemma AcquireKeeps(sm: Sm, hs: Holders, i: nat, profile: Profile)
    requires Inv(sm, hs) && i in hs
    ensures var r := Acquire(sm, hs[i], profile);
            Inv(r.sm, hs[i := r.holder]) && (r.err != Ok ==> r.sm == sm && r.holder == hs[i])
  {
    var r := Acquire(sm, hs[i], profile);
    InvKnows(sm, hs, i);
    AcquireReplaces(sm, hs[i], profile);
    if r.err == Ok { ReplaceKeeps(sm, r.sm, hs, i, r.holder); } else { assert hs[i := hs[i]] == hs; }
  }

  /** The two ways a transition could find the machine contradicting its holder never happen. */
  lemma TransitionKeeps(sm: Sm, hs: Holders, i: nat, op: Operation, direct: nat, transfers: nat, bars: nat, anchored: bool)
    requires Inv(sm, hs) && i in hs
    ensures var r := Transition(sm, hs[i], op, direct, transfers, bars, anchored);
            && Inv(r.sm, hs[i := r.holder]) && r.err != EUCLEAN
            && (r.err != Ok ==> r.sm == sm && r.holder == hs[i])
            && Replaces(r.sm, sm, r.holder, hs[i])
  {
    var r := Transition(sm, hs[i], op, direct, transfers, bars, anchored);
    InvKnows(sm, hs, i);
    TransitionReplaces(sm, hs[i], op, direct, transfers, bars, anchored);
    ReplaceKeeps(sm, r.sm, hs, i, r.holder);
  }

  lemma ReleaseKeeps(sm: Sm, hs: Holders, i: nat)
    requires Inv(sm, hs) && i in hs
    ensures var r := Release(sm, hs[i]); Inv(r.sm, hs[i := r.holder]) && r.holder == FRESH_HOLDER
  {
    InvKnows(sm, hs, i);
    ReleaseReplaces(sm, hs[i]);
    ReplaceKeeps(sm, Release(sm, hs[i]).sm, hs, i, FRESH_HOLDER);
  }

  lemma AuthorizeKeeps(sm: Sm, hs: Holders, i: nat, anchored: bool)
    requires Inv(sm, hs) && i in hs
    ensures var r := AuthorizeDirect(sm, hs[i], anchored);
            Inv(r.sm, hs[i := r.holder]) && (r.err != Ok ==> r.sm == sm && r.holder == hs[i])
  {
    var r := AuthorizeDirect(sm, hs[i], anchored);
    InvKnows(sm, hs, i);
    AuthorizeReplaces(sm, hs[i], anchored);
    ReplaceKeeps(sm, r.sm, hs, i, r.holder);
  }

  /** A freshly opened file changes nothing that is counted. */
  lemma OpenKeeps(sm: Sm, hs: Holders, i: nat)
    requires Inv(sm, hs) && i !in hs
    ensures Inv(sm, hs[i := FRESH_HOLDER])
  {
    CountersUpdate(hs, i, FRESH_HOLDER);
  }

  /** A released, closed holder leaves the map unnoticed. */
  lemma ForgetKeeps(sm: Sm, hs: Holders, i: nat)
    requires Inv(sm, hs) && i in hs && hs[i] == FRESH_HOLDER
    ensures Inv(sm, hs - {i})
  {
    CountRemove(hs, i, Leased());
    CountRemove(hs, i, Publishing());
    CountRemove(hs, i, Working());
    CountRemove(hs, i, IsLegacy());
    CountRemove(hs, i, IsQuiescent());
  }
}
