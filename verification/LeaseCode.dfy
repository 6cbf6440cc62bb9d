/** The lease state machine as the driver runs it: two records updated in place. */
module LeaseCode {

  import opened LeaseMachine

  class HolderRecord {
    var profile: Profile
    var phase: Phase
    var legacy: bool

    constructor ()
      ensures Value() == FRESH_HOLDER
    {
      profile, phase, legacy := NoProfile, NoPhase, false;
    }

    function Value(): (h: Holder)
      reads this
    {
      Holder(profile, phase, legacy)
    }
  }

  class StateRecord {
    var family: Family
    var familyHolders: nat
    var publishers: nat
    var workloads: nat
    var legacyHolders: nat
    var quiescent: bool
    var coordinatorReady: bool

    constructor ()
      ensures Value() == FRESH_SM
    {
      family, familyHolders, publishers, workloads, legacyHolders := NoFamily, 0, 0, 0, 0;
      quiescent, coordinatorReady := false, false;
    }

    function Value(): (sm: Sm)
      reads this
    {
      Sm(family, familyHolders, publishers, workloads, legacyHolders, quiescent, coordinatorReady)
    }

    method AcquireLease(holder: HolderRecord, profile: Profile) returns (err: Errno)
      modifies this, holder
      ensures Reply(err, Value(), holder.Value()) == Acquire(old(Value()), old(holder.Value()), profile)
    {
      var wanted := profile.Family();
      if wanted == NoFamily { return EINVAL; }
      if holder.legacy || legacyHolders > 0 { return EBUSY; }
      if holder.profile != NoProfile { return if holder.profile == profile then Ok else EALREADY; }
      if family != NoFamily && family != wanted { return EBUSY; }
      if familyHolders == U32_MAX { return EOVERFLOW; }
      var phase: Phase;
      match profile {
        case CoordinatorInitializer =>
          if publishers > 0 || quiescent || workloads > 0 { return EBUSY; }
          phase := Quiescent;
        case CoordinatorControl | CoordinatorWorkload =>
          if !coordinatorReady { return ENXIO; }
          if quiescent || workloads == U32_MAX { return if quiescent then EBUSY else EOVERFLOW; }
          phase := Workload;
        case HubPublisher =>
          if publishers > 0 || quiescent { return EBUSY; }
          phase := if workloads > 0 then Candidate else Quiescent;
        case StandalonePublisher =>
          if publishers > 0 || quiescent || workloads > 0 { return EBUSY; }
          phase := Quiescent;
        case HubWorkload | StandaloneWorkload =>
          if quiescent || workloads == U32_MAX { return if quiescent then EBUSY else EOVERFLOW; }
          phase := Workload;
      }
      Admit(profile, phase);
      holder.profile := profile;
      holder.phase := phase;
      return Ok;
    }

    /** Counts a new holder of a lease. */
    method Admit(profile: Profile, phase: Phase)
      modifies this
      ensures var sm := old(Value());
              Value() == sm.(family := if sm.familyHolders == 0 then profile.Family() else sm.family,
                             familyHolders := sm.familyHolders + 1,
                             publishers := sm.publishers + (if profile.IsPublisher() then 1 else 0),
                             workloads := sm.workloads + (if phase == Workload then 1 else 0),
                             quiescent := sm.quiescent || phase == Quiescent,
                             coordinatorReady := sm.coordinatorReady && profile != CoordinatorInitializer)
    {
      if profile.IsPublisher() { publishers := publishers + 1; }
      if profile == CoordinatorInitializer { coordinatorReady := false; }
      if phase == Quiescent {
        quiescent := true;
      } else if phase == Workload {
        workloads := workloads + 1;
      }
      if familyHolders == 0 { family := profile.Family(); }
      familyHolders := familyHolders + 1;
    }

    method TransitionLease(holder: HolderRecord, op: Operation, direct: nat, transfers: nat, bars: nat, anchored: bool)
      returns (err: Errno)
      modifies this, holder
      ensures Reply(err, Value(), holder.Value())
           == Transition(old(Value()), old(holder.Value()), op, direct, transfers, bars, anchored)
    {
      if !holder.profile.IsPublisher() || holder.legacy { return EPERM; }
      if holder.profile == CoordinatorInitializer {
        if op != ActivateCoordinator { return EINVAL; }
        if holder.phase == Prepared { return if coordinatorReady then Ok else EUCLEAN; }
        if holder.phase != Quiescent { return EINVAL; }
        if !anchored { return ENXIO; }
        if direct > 0 || transfers > 0 || bars > 0 { return EBUSY; }
        if !quiescent { return EUCLEAN; }
        quiescent := false;
        coordinatorReady := true;
        holder.phase := Prepared;
        return Ok;
      }
      if holder.profile == HubPublisher && (op == ActivateWorkload || op == ActivateReplacement) && !anchored {
        return ENXIO;
      }
      if op == ActivateWorkload && holder.phase == Quiescent && (direct > 0 || transfers > 0 || bars > 0) {
        return EBUSY;
      }
      match op {
        case TryQuiescent =>
          if holder.phase == Quiescent { return Ok; }
          if holder.phase != Candidate { return EINVAL; }
          if workloads > 0 || quiescent { return EBUSY; }
          quiescent := true;
          holder.phase := Quiescent;
          return Ok;
        case ActivateWorkload =>
          if holder.phase == Workload { return Ok; }
          if holder.phase != Quiescent { return EINVAL; }
          if workloads == U32_MAX { return EOVERFLOW; }
          if !quiescent { return EUCLEAN; }
          quiescent := false;
          workloads := workloads + 1;
          holder.phase := Workload;
          return Ok;
        case ActivateReplacement =>
          if holder.profile != HubPublisher || holder.phase != Candidate { return EINVAL; }
          if workloads == U32_MAX { return EOVERFLOW; }
          workloads := workloads + 1;
          holder.phase := Workload;
          return Ok;
        case ActivateCoordinator | UnknownOperation => return EINVAL;
      }
    }

    method ReleaseLease(holder: HolderRecord)
      modifies this, holder
      ensures Reply(Ok, Value(), holder.Value()) == Release(old(Value()), old(holder.Value()))
    {
      if holder.legacy {
        if legacyHolders > 0 { legacyHolders := legacyHolders - 1; }
        holder.legacy := false;
        return;
      }
      if holder.profile == NoProfile { return; }
      if holder.phase == Workload && workloads > 0 {
        workloads := workloads - 1;
      } else if holder.phase == Quiescent {
        quiescent := false;
      }
      if holder.profile.IsPublisher() && publishers > 0 { publishers := publishers - 1; }
      if familyHolders > 0 { familyHolders := familyHolders - 1; }
      if familyHolders == 0 { family := NoFamily; }
      holder.profile := NoProfile;
      holder.phase := NoPhase;
    }

    /** `mx_lease_sm_admit_direct`: authorize, and charge the call to the file. */
    method AdmitDirect(holder: HolderRecord, anchored: bool, direct: nat) returns (err: Errno, charged: nat)
      modifies this, holder
      ensures direct == U32_MAX ==> err == EOVERFLOW && Value() == old(Value()) && holder.Value() == old(holder.Value())
      ensures direct != U32_MAX ==>
                Reply(err, Value(), holder.Value()) == AuthorizeDirect(old(Value()), old(holder.Value()), anchored)
      ensures charged == if err == Ok then direct + 1 else direct
    {
      charged := direct;
      if direct == U32_MAX { return EOVERFLOW, direct; }
      err := Authorize(holder, anchored);
      if err == Ok { charged := direct + 1; }
    }

    method Authorize(holder: HolderRecord, anchored: bool) returns (err: Errno)
      modifies this, holder
      ensures Reply(err, Value(), holder.Value()) == AuthorizeDirect(old(Value()), old(holder.Value()), anchored)
    {
      if anchored && holder.profile == NoProfile && !holder.legacy { return EBUSY; }
      if holder.profile != NoProfile {
        if holder.phase == Candidate { return EACCES; }
        return if holder.phase == Quiescent || holder.phase == Workload then Ok else EACCES;
      }
      if holder.legacy { return Ok; }
      if !Idle(Value()) { return EBUSY; }
      if legacyHolders == U32_MAX { return EOVERFLOW; }
      legacyHolders := legacyHolders + 1;
      holder.legacy := true;
      return Ok;
    }
  }
}
