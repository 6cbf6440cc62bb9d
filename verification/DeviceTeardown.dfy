/** Taking a device down: the admin queue's driver and the transfers of all its files together. Memory is declared safe
    to reclaim only when the device is gone, or owes nothing and knows no host memory. */
module DeviceTeardown {

  import opened AdminQueue
  import opened Options
  import T = TransferSteps
  import S = TransferSafety

  /** Nothing was ever submitted. */
  predicate Untouched(w: T.System) {
    w.transfers == map[] && w.waitCount == 0 && w.zombieCount == 0 && w.sqLock.None? && w.idLock.None?
  }

  lemma ReachedStep(w: T.System, s: T.Step)
    requires T.Reached(w) && T.Enabled(w, s)
    ensures T.Reached(T.Next(w, s))
  {
    var ws, steps :| T.Run(ws, steps) && ws[|steps|] == w;
    var ws', steps' := ws + [T.Next(w, s)], steps + [s];
    assert T.Run(ws', steps') && ws'[|steps'|] == T.Next(w, s);
  }

  const BEFORE: T.Teardown := T.Teardown(false, false, false, false, false, false, false)
  const START: T.System := T.System(map[], map[], map[], None, None, 0, 0, {}, [], BEFORE)

  lemma StartIsReached()
    ensures T.Reached(START)
  {
    var steps: seq<T.Step> := [];
    assert T.Run([START], steps) && [START][|steps|] == START;
  }

  /** After closing, the submit list is empty and the submit thread has nothing in hand. */
  lemma ClosedListIsEmpty(w: T.System)
    requires T.Reached(w) && w.teardown.closed
    ensures w.sqLock.None? && forall t :: t in w.transfers ==> !w.transfers[t].listed
  {
    S.ReachedIsSafe(w);
    forall t | t in w.transfers ensures !w.transfers[t].listed && !w.transfers[t].counted {
      assert S.Consistent(w.transfers[t], w.teardown.reclaimSafe) && T.Settled(w.transfers[t]);
    }
  }

  /** What reclaiming rests on. */
  lemma SafeMeansSafe(w: T.System)
    requires T.Reached(w)
    ensures w.teardown.idleSeen ==> w.teardown.closed && forall t :: t in w.transfers ==> !S.IsOwed(w.transfers[t])
    ensures w.teardown.reclaimSafe ==> w.teardown.closed && w.teardown.stopped && (w.teardown.gone || w.teardown.idleSeen)
  {
    S.ReachedIsSafe(w);
  }

  /** Whoever holds the id lock can finish. */
  lemma LockCanBeFinished(w: T.System)
    requires T.Reached(w) && w.idLock.Some?
    ensures w.idLock.value.transfer in w.transfers
    ensures (w.idLock.value.told ==> w.idLock.value.saw.Some?) && (w.idLock.value.saw.Some? ==> w.idLock.value.uncounted)
  {
    S.ReachedIsSafe(w);
  }

  lemma OthersLeaveTeardown(w: T.System, s: T.Step)
    requires T.Enabled(w, s) && !s.Tear?
    ensures T.Next(w, s).teardown == w.teardown
  {
  }

  /** What the complete thread still has to do before it leaves the id lock. */
  function ToDo(lock: Option<T.Claim>): (n: nat) {
    match lock
    case None => 0
    case Some(c) => 1 + (if c.told then 0 else 1) + (if c.saw.Some? then 0 else 1) + (if c.uncounted then 0 else 1)
  }

  class Device {
    const driver: Driver

    /** Whether its files were ever published; whether the queue threads run; whether teardown began, and returned. */
    const online: bool
    var running: bool
    var started: bool
    var returned: bool

    /** All transfers, and how far teardown has got with them. */
    var w: T.System

    ghost predicate Valid()
      reads this, driver
    {
      && driver.Valid() && driver.Settled() && Consistent()
      && (online ==> driver.hasIo) && (running ==> driver.queuesInitialized) && (w.teardown.gone ==> driver.gone)
      && (started && returned && !driver.poisoned ==> w.teardown.reclaimSafe)
    }

    ghost predicate Consistent()
      reads this
    {
      T.Reached(w) && (!online ==> Untouched(w)) && (running || w.teardown.stopped)
    }

    /** A device as attaching it left it, with or without success; its files are published last. */
    constructor (driver: Driver, published: bool)
      requires driver.Valid() && driver.Settled() && (published ==> driver.queuesInitialized)
      ensures Valid() && this.driver == driver && online == published && !started && running == driver.queuesInitialized
    {
      this.driver := driver;
      online, running, started, returned := published, driver.queuesInitialized, false, false;
      StartIsReached();
      ReachedStep(START, T.Tear(T.Stop));
      w := if driver.queuesInitialized then START else T.Next(START, T.Tear(T.Stop));
    }

    /** One move of teardown. */
    method Move(e: T.Event)
      requires Consistent() && T.Happens(w, e)
      modifies this`w
      ensures Consistent() && w == T.Next(old(w), T.Tear(e))
    {
      ReachedStep(w, T.Tear(e));
      w := T.Next(w, T.Tear(e));
    }

    /** Anything that goes on meanwhile: submitters, waiters, the queue threads, the cleaner, the device. */
    method Meanwhile()
      requires Consistent()
      modifies this`w
      ensures Consistent() && w.teardown == old(w.teardown)
    {
      var n: nat := *;
      while n > 0
        invariant Consistent() && w.teardown == old(w.teardown)
      {
        var s: T.Step := *;
        if online && !s.Tear? && T.Enabled(w, s) {
          ReachedStep(w, s);
          OthersLeaveTeardown(w, s);
          w := T.Next(w, s);
        }
        n := n - 1;
      }
    }

    /** Whether the device is gone for good. */
    method Gone() returns (gone: bool)
      requires Consistent()
      modifies this`w
      ensures Consistent() && gone == driver.gone && w.teardown == old(w.teardown).(gone := old(w.teardown).gone || gone)
    {
      gone := driver.gone;
      if gone { Move(T.Unplug); }
    }

    /** `mxdma_io_queue_idle`, once no file is in use: three reads, with anything in between. */
    method IoQueueIdle() returns (idle: bool)
      requires Consistent() && w.teardown.closed
      modifies this`w
      ensures Consistent() && Later(old(w.teardown), w.teardown)
      ensures idle ==> w.teardown.idleSeen || w.teardown.reclaimSafe
    {
      Meanwhile();
      ClosedListIsEmpty(w);
      if w.teardown.reclaimSafe {
        idle := w.waitCount == 0 && w.zombieCount == 0;
        return;
      }
      Move(T.SeeList);
      Meanwhile();
      if w.waitCount != 0 { return false; }
      Move(T.SeeWaits);
      Meanwhile();
      if w.zombieCount != 0 { return false; }
      Move(T.SeeZombies);
      return true;
    }

    /** `mx_stop_queue_threads`: the complete thread finishes what it has in hand. */
    method StopThreads()
      requires Consistent() && w.teardown.closed
      modifies this`w, this`running
      ensures Consistent() && !running && w.teardown == old(w.teardown).(stopped := true)
    {
      Meanwhile();
      while w.idLock.Some?
        invariant Consistent() && w.teardown == old(w.teardown)
        decreases ToDo(w.idLock)
      {
        Finish();
      }
      ClosedListIsEmpty(w);
      Move(T.Stop);
      running := false;
    }

    method Finish()
      requires Consistent() && w.idLock.Some?
      modifies this`w
      ensures Consistent() && w.teardown == old(w.teardown)
      ensures ToDo(w.idLock) < ToDo(old(w.idLock))
    {
      LockCanBeFinished(w);
      var c := w.idLock.value;
      var s := if !c.uncounted then T.TakeOff else if c.saw.None? then T.Check else if !c.told then T.Tell else T.Unlock;
      ReachedStep(w, s);
      w := T.Next(w, s);
    }

    /** Between the moves of teardown, once no file is in use. */
    ghost predicate Standing()
      reads this, driver
    {
      && driver.Valid() && driver.Settled() && Consistent() && w.teardown.closed
      && (online ==> driver.hasIo) && (running ==> driver.queuesInitialized) && (w.teardown.gone ==> driver.gone)
    }

    /** The transfers owe the device nothing more, or the device is gone. */
    ghost predicate Quiet()
      reads this
    {
      w.teardown.gone || w.teardown.idleSeen
    }

    /** `mxdma_drain_device_protocol`, watched for `ticks` polls. */
    method DrainIo(ticks: nat) returns (r: Outcome)
      requires Standing()
      modifies this`w, driver`device, driver`inbox, driver`posted, driver`gone
      ensures Standing() && w.teardown.stopped == old(w.teardown.stopped) && (r == Done || r == Unplugged ==> Quiet())
      ensures r == Unplugged ==> driver.gone && w.teardown.gone
      ensures r != Failed
      ensures w.teardown.reclaimSafe == old(w.teardown.reclaimSafe)
    {
      var left := ticks;
      while true
        invariant Standing() && w.teardown.stopped == old(w.teardown.stopped)
        invariant w.teardown.reclaimSafe == old(w.teardown.reclaimSafe)
        decreases left
      {
        var idle := IoQueueIdle();
        if idle {
          SafeMeansSafe(w);
          return Done;
        }
        var gone := Gone();
        if gone { return Unplugged; }
        if left == 0 { return Waiting; }
        driver.Elapse();
        left := left - 1;
      }
    }

    /** The real unbind waits for an idle queue or the loss of the device. */
    method DrainOrLose(ticks: nat) returns (r: Outcome)
      requires Standing()
      modifies this`w, this`running, driver`device, driver`inbox, driver`posted, driver`gone
      ensures Standing() && (r == Done || r == Unplugged ==> Quiet()) && (r == Unplugged ==> driver.gone && !running)
      ensures r != Failed
      ensures w.teardown.reclaimSafe == old(w.teardown.reclaimSafe)
    {
      r := DrainIo(ticks);
      if r == Waiting { return; }
      var gone := Gone();
      if gone {
        StopThreads();
        return Unplugged;
      }
      return Done;
    }

    /** The first part of `mxdma_stop_device_protocol`: on the real unbind it waits for an idle queue or the loss of the
        device; otherwise a queue that is not idle, or a protocol gone wrong before, ends it. */
    method AwaitIdle(unbind: bool, ticks: nat) returns (r: Outcome)
      requires Standing()
      modifies this`w, this`running, driver`device, driver`inbox, driver`posted, driver`gone, driver`poisoned
      ensures Standing() && (r == Done || r == Unplugged ==> Quiet()) && (r == Unplugged ==> driver.gone && !running)
      ensures r == Failed ==> !unbind && driver.poisoned
      ensures !unbind ==> r == Done || r == Failed
      ensures r == Done ==> driver.poisoned == old(driver.poisoned) && (unbind || !driver.poisoned)
      ensures w.teardown.reclaimSafe == old(w.teardown.reclaimSafe)
    {
      if unbind {
        r := DrainOrLose(ticks);
        return;
      }
      var idle := IoQueueIdle();
      if !idle {
        driver.Poison();
        StopThreads();
        return Failed;
      }
      SafeMeansSafe(w);
      if driver.poisoned {
        StopThreads();
        return Failed;
      }
      return Done;
    }

    /** Nothing of the device's can reach host memory any more. */
    ghost predicate Detached()
      reads this, driver
    {
      && !running && w.teardown.stopped && Quiet()
      && ((driver.gone && w.teardown.gone) || (driver.Forgotten() && !driver.pending))
    }

    /** Records the loss of the device, with the threads stopped. */
    method Lost()
      requires Standing() && driver.gone
      modifies this`w, this`running
      ensures Standing() && Detached()
      ensures w.teardown.reclaimSafe == old(w.teardown.reclaimSafe)
    {
      StopThreads();
      var _ := Gone();
    }

    /** Recovery until it succeeds or the device is gone, watched for `tries` rounds; `Unplugged` ends the teardown. */
    method RecoverOrLose(tries: nat, ticks: nat) returns (r: Outcome)
      requires Standing() && Quiet()
      modifies driver, this`w, this`running
      ensures Standing() && Quiet() && r != Failed && (!old(running) ==> !running && w.teardown.stopped)
      ensures driver.queuesInitialized == old(driver.queuesInitialized) && driver.hasAdmin == old(driver.hasAdmin)
      ensures r == Unplugged ==> Detached()
      ensures r == Done ==> driver.Forgotten() && !driver.pending && !driver.programmed
      ensures r == Done && driver.hasAdmin ==> !driver.poisoned
      ensures w.teardown.reclaimSafe == old(w.teardown.reclaimSafe)
    {
      r := driver.RecoverUntil(tries, ticks);
      if r == Unplugged { Lost(); }
    }

    /** The last part of `mxdma_stop_device_protocol`: stop the threads, delete the queues, recover if that fails. */
    method ReleaseQueues(unbind: bool, tries: nat, ticks: nat) returns (r: Outcome)
      requires Standing() && Quiet() && driver.queuesInitialized && !driver.pending
      modifies driver, this`w, this`running
      ensures Standing() && (r == Done || r == Unplugged ==> Detached())
      ensures (r == Failed ==> driver.poisoned && !unbind) && (!unbind ==> r == Done || r == Failed)
      ensures r == Done && old(driver.hasAdmin && !driver.poisoned) ==> !driver.poisoned
      ensures w.teardown.reclaimSafe == old(w.teardown.reclaimSafe)
    {
      StopThreads();
      r := DeleteQueues(unbind, tries, ticks);
      if r == Done { driver.Retire(); }
    }

    /** Deletes the queues, or on the real unbind recovers until the device has none. */
    method DeleteQueues(unbind: bool, tries: nat, ticks: nat) returns (r: Outcome)
      requires Standing() && Quiet() && driver.queuesInitialized && !driver.pending && !running && w.teardown.stopped
      modifies driver, this`w, this`running
      ensures Standing() && !running && (r == Done || r == Unplugged ==> Detached())
      ensures (r == Failed ==> driver.poisoned && !unbind) && (!unbind ==> r == Done || r == Failed)
      ensures r == Done && old(driver.hasAdmin && !driver.poisoned) ==> !driver.poisoned
      ensures w.teardown.reclaimSafe == old(w.teardown.reclaimSafe)
    {
      var ok := driver.ReleaseIo();
      if ok { return Done; }
      driver.Poison();
      if !unbind { return Failed; }
      r := RecoverOrLose(tries, ticks);
    }

    /** A queue that attaching left half made. */
    method DisablePartial(unbind: bool, tries: nat, ticks: nat) returns (r: Outcome)
      requires Standing() && Quiet() && !driver.queuesInitialized
      modifies driver, this`w, this`running
      ensures Standing() && Quiet() && !driver.queuesInitialized && (r == Unplugged ==> Detached())
      ensures (r == Failed ==> driver.poisoned && !unbind) && (!unbind ==> r == Done || r == Failed)
      ensures driver.hasAdmin == old(driver.hasAdmin) && (r == Done && driver.hasAdmin ==> !driver.poisoned)
      ensures r == Done ==> driver.Forgotten() && !driver.pending && !driver.programmed
      ensures w.teardown.reclaimSafe == old(w.teardown.reclaimSafe)
    {
      r := driver.Recover(ticks);
      if r == Done { return; }
      if !unbind {
        driver.Poison();
        return Failed;
      }
      r := RecoverOrLose(tries, ticks);
    }

    /** `mxdma_stop_device_protocol` past the idle test: success means that nothing of the device's can reach host memory. */
    method StopQueues(unbind: bool, tries: nat, ticks: nat) returns (r: Outcome)
      requires Standing() && Quiet() && (unbind || !driver.poisoned)
      modifies driver, this`w, this`running
      ensures Standing() && (r == Done ==> Detached()) && (r == Failed ==> driver.poisoned)
      ensures r != Unplugged && (if !unbind then r == Done || r == Failed else old(driver.hasAdmin) ==> r != Failed)
      ensures w.teardown.reclaimSafe == old(w.teardown.reclaimSafe)
    {
      if driver.poisoned {
        r := RecoverOrLose(tries, ticks);
        if r == Unplugged { return Done; }
        if r != Done { return r; }
      }
      if !driver.queuesInitialized && driver.programmed {
        r := DisablePartial(unbind, tries, ticks);
        if r == Unplugged { return Done; }
        if r != Done { return r; }
      }
      if driver.queuesInitialized {
        r := ReleaseQueues(unbind, tries, ticks);
        if r == Unplugged { return Done; }
        if r != Done { return r; }
      } else {
        StopThreads();
      }
      return if driver.poisoned then Failed else Done;
    }

    /** `mxdma_stop_device_protocol` */
    method StopProtocol(unbind: bool, tries: nat, ticks: nat) returns (r: Outcome)
      requires Standing()
      modifies driver, this`w, this`running
      ensures Standing() && (r == Done ==> Detached()) && (r == Failed ==> driver.poisoned)
      ensures r != Unplugged && (if !unbind then r == Done || r == Failed else old(driver.hasAdmin) ==> r != Failed)
      ensures w.teardown.reclaimSafe == old(w.teardown.reclaimSafe)
    {
      r := AwaitIdle(unbind, ticks);
      if r == Unplugged {
        Lost();
        return Done;
      }
      if r != Done { return r; }
      r := StopQueues(unbind, tries, ticks);
    }

    /** The fence before teardown: no file in use, watched for `ticks` polls. */
    method Quiesce(ticks: nat) returns (quiet: bool)
      requires Consistent()
      modifies this`w
      ensures Consistent() && (quiet ==> w.teardown.closed) && w.teardown.gone == old(w.teardown.gone)
      ensures w.teardown.reclaimSafe == old(w.teardown.reclaimSafe)
    {
      var left := ticks;
      quiet := w.teardown.closed;
      while !quiet && left > 0
        invariant Consistent() && (quiet ==> w.teardown.closed)
        invariant w.teardown.reclaimSafe == old(w.teardown.reclaimSafe) && w.teardown.gone == old(w.teardown.gone)
      {
        Meanwhile();
        if T.Happens(w, T.Close) {
          Move(T.Close);
          quiet := true;
        }
        left := left - 1;
      }
    }

    /** `destroy_mx_pdev`: it reports success, and only then frees rings, pages and lists, when the device is gone, or
        owes nothing and knows no host memory; a failure leaves the protocol poisoned and everything in place. */
    method Destroy(unbind: bool, tries: nat, ticks: nat) returns (r: Outcome)
      requires Valid() && (started ==> returned)
      modifies this`w, this`running, this`started, this`returned, driver
      ensures (r == Done || r == Failed ==> Valid() && returned) && r != Unplugged
      ensures r == Done ==> w.teardown.reclaimSafe
      ensures r == Done && !old(started && !driver.poisoned) ==>
                driver.gone || (driver.Forgotten() && forall t :: t in w.transfers ==> !S.IsOwed(w.transfers[t]))
      ensures r == Failed ==> driver.poisoned && w.teardown.reclaimSafe == old(w.teardown.reclaimSafe)
      ensures unbind && old(driver.hasAdmin) ==> r != Failed
    {
      if started {
        if !driver.poisoned { return Done; }
        if !unbind { return Failed; }
      }
      started, returned := true, false;
      var quiet := Quiesce(ticks);
      if !quiet { return Waiting; }
      r := StopAndDeclare(unbind, tries, ticks);
      returned := r == Done || r == Failed;
    }

    method StopAndDeclare(unbind: bool, tries: nat, ticks: nat) returns (r: Outcome)
      requires Standing()
      modifies driver, this`w, this`running
      ensures Standing() && r != Unplugged && (r == Failed ==> driver.poisoned)
      ensures r == Done ==> w.teardown.reclaimSafe
      ensures r == Done ==> driver.gone || (driver.Forgotten() && forall t :: t in w.transfers ==> !S.IsOwed(w.transfers[t]))
      ensures r != Done ==> w.teardown.reclaimSafe == old(w.teardown.reclaimSafe)
      ensures unbind && old(driver.hasAdmin) ==> r != Failed
    {
      r := StopProtocol(unbind, tries, ticks);
      if r == Done {
        Move(T.DeclareSafe);
        SafeMeansSafe(w);
      }
    }
  }

  /** Teardown only goes forward. */
  predicate Later(d: T.Teardown, d': T.Teardown) {
    && (d.closed ==> d'.closed) && (d.idleSeen ==> d'.idleSeen) && d'.stopped == d.stopped && d'.gone == d.gone
    && d'.reclaimSafe == d.reclaimSafe
  }
}
