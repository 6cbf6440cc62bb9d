/** The admin queue of a second-generation device: one command at a time, answered late or not at all, and a
    teardown that frees ring memory only when the device no longer knows it. */
module AdminQueue {

  import opened Options

  /** The input/output queues that exist: on the device, or as the driver recorded them. */
  datatype Queues = Queues(cq: Option<nat>, sq: Option<nat>)

  const NO_QUEUES: Queues := Queues(None, None)

  datatype Operation = CreateCq | CreateSq(cqId: nat) | DeleteSq(sqId: nat) | DeleteCq(cqId: nat)

  datatype Command = Command(cid: nat, op: Operation)

  datatype Completion = Completion(cid: nat, result: nat)

  const WORD16: nat := 0x1_0000

  /** What the device's firmware accepts; it stops on anything else. */
  predicate Legal(q: Queues, op: Operation) {
    match op
    case CreateCq => q == NO_QUEUES
    case CreateSq(id) => q.cq == Some(id) && q.sq.None?
    case DeleteSq(id) => q.sq == Some(id)
    case DeleteCq(id) => q.cq == Some(id) && q.sq.None?
  }

  /** The queues after an operation that answered with `id`. */
  function Performed(q: Queues, op: Operation, id: nat): (q': Queues) {
    match op
    case CreateCq => q.(cq := Some(id))
    case CreateSq(_) => q.(sq := Some(id))
    case DeleteSq(_) => q.(sq := None)
    case DeleteCq(_) => q.(cq := None)
  }

  /** A submission queue never outlives the completion queue it reports to. */
  lemma SqNeverWithoutCq(q: Queues, op: Operation, id: nat)
    requires Legal(q, op) && (q.sq.Some? ==> q.cq.Some?)
    ensures var q' := Performed(q, op, id); q'.sq.Some? ==> q'.cq.Some?
  {
  }

  /** How a call ends; `Waiting` is a poll that has not ended within the ticks it was watched for. */
  datatype Outcome = Done | Failed | Unplugged | Waiting

  class Driver {
    // The device
    var device: Queues
    var knowsAdminRing: bool
    var inbox: Option<Command>
    var posted: Option<Completion>
    var gone: bool

    // The driver's admin queue and what it recorded of the input/output queue
    var hasAdmin: bool
    var hasIo: bool
    var nextCid: nat
    var pending: bool
    var pendingCid: nat
    var pendingOp: Operation
    var desynced: bool
    var cqCreated: bool
    var cqId: nat
    var sqCreated: bool
    var sqId: nat

    // The teardown flags
    var programmed: bool
    var poisoned: bool
    var queuesInitialized: bool

    constructor ()
      ensures Valid() && Settled() && !programmed && !queuesInitialized && !gone && !poisoned && !hasAdmin
    {
      device, knowsAdminRing, inbox, posted, gone := NO_QUEUES, false, None, None, false;
      hasAdmin, hasIo, nextCid, pending, pendingCid, pendingOp, desynced := false, false, 0, false, 0, CreateCq, false;
      cqCreated, cqId, sqCreated, sqId := false, 0, false, 0;
      programmed, poisoned, queuesInitialized := false, false, false;
    }

    function Recorded(): (q: Queues)
      reads this
    {
      Queues(if cqCreated then Some(cqId) else None, if sqCreated then Some(sqId) else None)
    }

    /** At most one command is with the device, and it is the pending one: not yet performed, or performed and
        answered. With none pending the record is the device's real state, and it always is once the answer
        is recorded. */
    ghost predicate Synchronized()
      reads this
    {
      match (inbox, posted)
      case (None, None) => !pending && Recorded() == device
      case (Some(c), None) => pending && c == Command(pendingCid, pendingOp) && Recorded() == device && Legal(device, c.op)
      case (None, Some(p)) =>
        pending && p.cid == pendingCid && p.result < WORD16 && Performed(Recorded(), pendingOp, p.result) == device
      case (Some(_), Some(_)) => false
    }

    ghost predicate Valid()
      reads this
    {
      && Synchronized()
      && (device.sq.Some? ==> device.cq.Some?) && (sqCreated ==> cqCreated)
      && (desynced ==> pending && poisoned)
      && (device != NO_QUEUES || pending ==> knowsAdminRing && hasIo)
      && (knowsAdminRing ==> programmed) && (programmed ==> hasAdmin) && (hasIo ==> hasAdmin)
      && (queuesInitialized ==> hasAdmin && hasIo)
    }

    /** Between calls a pending command is one that timed out. */
    ghost predicate Settled()
      reads this
    {
      pending ==> desynced
    }

    /** The device, or the bus, between two polls: it may perform and answer what it was given, or be unplugged. */
    method Elapse()
      requires Valid()
      modifies this`device, this`inbox, this`posted, this`gone
      ensures Valid() && (old(gone) ==> gone)
    {
      if * {
        gone := true;
      } else if inbox.Some? && !gone {
        if * {
          var id: nat := *;
          id := id % WORD16;
          SqNeverWithoutCq(device, inbox.value.op, id);
          device := Performed(device, inbox.value.op, id);
          posted := Some(Completion(inbox.value.cid, id));
          inbox := None;
        }
      }
    }

    /** `record_admin_terminal` */
    method Record(op: Operation, result: nat)
      requires hasIo && result < WORD16
      modifies this`cqCreated, this`cqId, this`sqCreated, this`sqId
      ensures Recorded() == Performed(old(Recorded()), op, result)
    {
      match op {
        case CreateCq => cqCreated, cqId := true, result;
        case CreateSq(_) => sqCreated, sqId := true, result;
        case DeleteSq(_) => sqCreated := false;
        case DeleteCq(_) => cqCreated := false;
      }
    }

    /** Takes the answer to the pending command off the ring; no other answer can be on it. */
    method TakeAnswer() returns (result: nat)
      requires Valid() && posted.Some?
      modifies this`posted, this`pending, this`cqCreated, this`cqId, this`sqCreated, this`sqId, this`desynced
      ensures Valid() && !pending && !desynced && result == old(posted).value.result
      ensures Recorded() == Performed(old(Recorded()), pendingOp, result) == device
    {
      assert posted.value.cid == pendingCid;
      result := posted.value.result;
      posted := None;
      pending := false;
      desynced := false;
      Record(pendingOp, result);
    }

    /** `submit_sync_command`: on success the operation is done and recorded; otherwise it was never sent, or it is
        pending and the queue is out of step. */
    method Submit(op: Operation) returns (ok: bool, result: nat)
      requires Valid() && Settled() && hasAdmin && hasIo && knowsAdminRing && (!desynced ==> Legal(Recorded(), op))
      modifies this`device, this`inbox, this`posted, this`gone, this`cqCreated, this`cqId, this`sqCreated, this`sqId
      modifies this`nextCid, this`pending, this`pendingCid, this`pendingOp, this`desynced, this`poisoned
      ensures Valid() && Settled() && (old(gone) ==> gone)
      ensures ok ==> !pending && poisoned == old(poisoned) && Recorded() == Performed(old(Recorded()), op, result)
      ensures !ok ==> Recorded() == old(Recorded()) && (!desynced ==> poisoned == old(poisoned))
      ensures !ok && !old(desynced) && desynced ==> pending && pendingOp == op
    {
      if desynced { return false, 0; }
      BumpCid();
      var room := WaitForRoom();
      if !room { return false, 0; }
      ok, result := Exchange(op);
      if !ok { desynced, poisoned := true, true; }
    }

    /** Sends the command and waits for its answer; without one the command stays pending. */
    method Exchange(op: Operation) returns (ok: bool, result: nat)
      requires Valid() && !pending && hasIo && knowsAdminRing && Legal(Recorded(), op)
      modifies this`device, this`inbox, this`posted, this`gone, this`cqCreated, this`cqId, this`sqCreated, this`sqId
      modifies this`pending, this`pendingCid, this`pendingOp, this`desynced
      ensures Valid() && (old(gone) ==> gone) && pendingOp == op && !desynced && pending == !ok
      ensures Recorded() == if ok then Performed(old(Recorded()), op, result) else old(Recorded())
    {
      result := 0;
      Send(op);
      ok := AwaitAnswer();
      if ok { result := TakeAnswer(); }
    }

    /** Command ids are 16 bits wide and never zero. */
    method BumpCid()
      modifies this`nextCid
      ensures 0 < nextCid < WORD16
    {
      nextCid := (nextCid + 1) % WORD16;
      if nextCid == 0 { nextCid := 1; }
    }

    /** Puts the command on the ring and rings the doorbell. */
    method Send(op: Operation)
      requires Valid() && !pending && hasIo && knowsAdminRing && Legal(Recorded(), op)
      modifies this`inbox, this`pending, this`pendingCid, this`pendingOp
      ensures Valid() && pending && pendingOp == op
    {
      inbox := Some(Command(nextCid, op));
      pending, pendingCid, pendingOp := true, nextCid, op;
    }

    /** Polls for the answer to the command just sent. */
    method AwaitAnswer() returns (answered: bool)
      requires Valid()
      modifies this`device, this`inbox, this`posted, this`gone
      ensures Valid() && (old(gone) ==> gone) && answered == posted.Some?
    {
      var count := 0;
      while count < 500 && posted.None?
        invariant Valid() && (old(gone) ==> gone)
        decreases 500 - count
      {
        Elapse();
        count := count + 1;
      }
      answered := posted.Some?;
    }

    /** The wait for a free slot before anything is sent. */
    method WaitForRoom() returns (room: bool)
      requires Valid()
      modifies this`device, this`inbox, this`posted, this`gone
      ensures Valid() && (old(gone) ==> gone)
      ensures !pending ==> inbox == None && posted == None
    {
      var count := 0;
      room := *;
      while count < 500 && !room
        invariant Valid() && (old(gone) ==> gone)
        decreases 500 - count
      {
        Elapse();
        room := *;
        count := count + 1;
      }
    }

    /** `drain_pending_admin`, watched for `ticks` polls: however it went out of step, the queue is in step again
        once the late answer is recorded. */
    method DrainPending(ticks: nat) returns (r: Outcome)
      requires Valid() && Settled()
      modifies this`device, this`inbox, this`posted, this`gone, this`cqCreated, this`cqId, this`sqCreated, this`sqId
      modifies this`pending, this`desynced
      ensures Valid() && Settled() && (old(gone) ==> gone)
      ensures r == Done ==> !pending && !desynced
      ensures r == Unplugged ==> gone
      ensures r != Failed
    {
      if !hasAdmin { return Done; }
      if desynced && !pending { return Failed; }
      var left := ticks;
      while pending
        invariant Valid() && Settled() && (old(gone) ==> gone)
        decreases left + (if pending then 1 else 0)
      {
        if gone { return Unplugged; }
        if posted.None? {
          if left == 0 { return Waiting; }
          left := left - 1;
          Elapse();
        } else {
          var _ := TakeAnswer();
        }
      }
      return Done;
    }

    /** `disable_admin_queue`: called with nothing pending and no queue left, it is the end of what the device knows. */
    method Disable()
      requires Valid() && !pending && Recorded() == NO_QUEUES
      modifies this`knowsAdminRing, this`programmed
      ensures Valid() && !knowsAdminRing && !programmed
    {
      knowsAdminRing := false;
      programmed := false;
    }

    /** The device knows no host memory. */
    ghost predicate Forgotten()
      reads this
    {
      device == NO_QUEUES && inbox.None? && !knowsAdminRing
    }

    /** Deletes the submission queue, then the completion queue it reports to, as far as they are recorded. */
    method DeleteRecorded() returns (ok: bool)
      requires Valid() && Settled() && hasAdmin && hasIo && !pending && (Recorded() != NO_QUEUES ==> knowsAdminRing)
      modifies this`device, this`inbox, this`posted, this`gone, this`cqCreated, this`cqId, this`sqCreated, this`sqId
      modifies this`nextCid, this`pending, this`pendingCid, this`pendingOp, this`desynced, this`poisoned
      ensures Valid() && Settled() && (old(gone) ==> gone)
      ensures ok ==> !pending && Recorded() == NO_QUEUES && poisoned == old(poisoned)
    {
      ok := true;
      var result;
      if sqCreated { ok, result := Submit(DeleteSq(sqId)); }
      if ok && cqCreated { ok, result := Submit(DeleteCq(cqId)); }
    }

    /** `recover_mx_queue`, watched for `ticks` polls: when it succeeds the device knows nothing of the host. */
    method Recover(ticks: nat) returns (r: Outcome)
      requires Valid() && Settled()
      modifies this`device, this`inbox, this`posted, this`gone, this`cqCreated, this`cqId, this`sqCreated, this`sqId
      modifies this`nextCid, this`pending, this`pendingCid, this`pendingOp, this`desynced, this`poisoned
      modifies this`knowsAdminRing, this`programmed
      ensures Valid() && Settled() && (old(gone) ==> gone)
      ensures r == Done ==> Forgotten() && !pending && !programmed && (hasAdmin ==> !poisoned)
      ensures (r == Failed || (r != Done && old(poisoned)) ==> poisoned) && (r == Unplugged ==> gone)
    {
      if !hasAdmin { return Done; }
      r := DrainPending(ticks);
      if r != Done { return r; }
      poisoned := false;
      if !hasIo {
        Disable();
        return Done;
      }
      var ok := DeleteRecorded();
      if !ok {
        poisoned := true;
        return Failed;
      }
      Disable();
      return Done;
    }

    /** `configure_admin_queue`, once its rings could be allocated: from here on the device knows them. */
    method ConfigureAdmin()
      requires Valid() && !hasAdmin
      modifies this`hasAdmin, this`programmed, this`knowsAdminRing
      ensures Valid() && hasAdmin && programmed && knowsAdminRing
    {
      hasAdmin := true;
      programmed := true;
      knowsAdminRing := true;
    }

    /** `configure_io_queue`, with what the environment decides: whether rings can be allocated, whether the doorbell of
        an id lies inside the BAR, whether the threads start. However it fails, nothing is left unaccounted for. */
    method ConfigureIo(haveRings: bool, doorbells: nat, started: bool) returns (ok: bool)
      requires Valid() && Settled() && !pending && hasAdmin && !hasIo && knowsAdminRing && !queuesInitialized
      modifies this`device, this`inbox, this`posted, this`gone, this`cqCreated, this`cqId, this`sqCreated, this`sqId
      modifies this`nextCid, this`pending, this`pendingCid, this`pendingOp, this`desynced, this`poisoned, this`hasIo
      ensures Valid() && Settled()
      ensures ok ==> hasIo && !pending && device.cq.Some? && device.cq.value < doorbells
      ensures ok ==> device.sq == device.cq == Recorded().cq
      ensures !ok && !poisoned ==> !pending && device == NO_QUEUES
    {
      if !haveRings { return false; }
      hasIo := true;
      var id, sent;
      sent, id := Submit(CreateCq);
      if !sent { return false; }
      var other;
      sent, other := Submit(CreateSq(id));
      if !sent && desynced { return false; }
      if !sent || id != other || id >= doorbells || !started {
        ok := DeleteRecorded();
        if !ok { poisoned := true; }
        return false;
      }
      ok := true;
    }

    /** `init_mx_queue` and the flag its caller sets: with whatever outcome, teardown finds a state it can handle. */
    method Attach(haveAdminRings: bool, haveRings: bool, doorbells: nat, started: bool) returns (ok: bool)
      requires Valid() && Settled() && !pending && !hasAdmin && !queuesInitialized
      modifies this
      ensures Valid() && Settled() && queuesInitialized == ok
      ensures ok ==> !pending && device.cq.Some? && device.sq == device.cq
      ensures !ok && !poisoned ==> !pending && device == NO_QUEUES
    {
      if !haveAdminRings { return false; }
      ConfigureAdmin();
      ok := ConfigureIo(haveRings, doorbells, started);
      queuesInitialized := ok;
    }

    /** `release_io_queue`, once the queue threads are stopped. */
    method ReleaseIo() returns (ok: bool)
      requires Valid() && Settled() && queuesInitialized && !pending
      modifies this`device, this`inbox, this`posted, this`gone, this`cqCreated, this`cqId, this`sqCreated, this`sqId
      modifies this`nextCid, this`pending, this`pendingCid, this`pendingOp, this`desynced, this`poisoned
      modifies this`knowsAdminRing, this`programmed
      ensures Valid() && Settled() && (old(gone) ==> gone)
      ensures ok ==> Forgotten() && !pending && poisoned == old(poisoned)
    {
      ok := DeleteRecorded();
      if ok { Disable(); }
    }

    /** The protocol cannot be trusted until it is recovered. */
    method Poison()
      requires Valid()
      modifies this`poisoned
      ensures Valid() && poisoned
    {
      poisoned := true;
    }

    /** The queues are gone. */
    method Retire()
      requires Valid()
      modifies this`queuesInitialized
      ensures Valid() && !queuesInitialized
    {
      queuesInitialized := false;
    }

    /** Repeats recovery until it succeeds or the device is gone, watched for `tries` rounds. */
    method RecoverUntil(tries: nat, ticks: nat) returns (r: Outcome)
      requires Valid() && Settled()
      modifies this`device, this`inbox, this`posted, this`gone, this`cqCreated, this`cqId, this`sqCreated, this`sqId
      modifies this`nextCid, this`pending, this`pendingCid, this`pendingOp, this`desynced, this`poisoned
      modifies this`knowsAdminRing, this`programmed
      ensures Valid() && Settled() && (old(gone) ==> gone)
      ensures r == Done ==> Forgotten() && !pending && !programmed && (hasAdmin ==> !poisoned)
      ensures r == Unplugged ==> gone
      ensures r != Failed
    {
      var left := tries;
      while left > 0
        invariant Valid() && Settled() && (old(gone) ==> gone)
      {
        if gone { return Unplugged; }
        r := Recover(ticks);
        if r == Done { return Done; }
        Elapse();
        left := left - 1;
      }
      return Waiting;
    }
  }
}
