/** What the invariants of transfers mean: completions find their issuers, memory the device may touch is kept, and
    everything is given back exactly once. */
module TransferGuarantees {

  import opened Counting
  import opened TransferSteps
  import opened TransferSafety
  import opened Options

  // Each guarantee rests on one part of the invariant.

  lemma ReachedConsistent(w: System)
    requires Reached(w)
    ensures AllConsistent(w)
  {
    ReachedIsSafe(w);
  }

  lemma ReachedIds(w: System)
    requires Reached(w)
    ensures IdsRight(w)
  {
    ReachedIsSafe(w);
  }

  lemma ReachedMappings(w: System)
    requires Reached(w)
    ensures MappingsRight(w)
  {
    ReachedIsSafe(w);
  }

  lemma ReachedDevice(w: System)
    requires Reached(w)
    ensures DeviceRight(w) && TeardownRight(w) && CountsRight(w)
  {
    ReachedIsSafe(w);
  }

  lemma RunsAreConsistent(ws: seq<System>, steps: seq<Step>, k: nat)
    requires Run(ws, steps) && k < |ws|
    ensures AllConsistent(ws[k])
  {
    RunsAreSafe(ws, steps, k);
  }

  // ---------------------------------------------------------------------------------------------
  // Completions
  // ---------------------------------------------------------------------------------------------

  /** Every completion the complete thread takes claims the transfer that issued the command, and no other: none is
      ever for an unknown id or for a transfer already claimed. */
  lemma CompletionClaimsIssuer(w: System)
    requires Reached(w) && Enabled(w, Take)
    ensures var w', c := Next(w, Take), w.completions[0];
            && w'.idLock == Some(Claim(c.issuer, false, None, false)) && c.id !in w'.ids
            && c.issuer in w.transfers && w.transfers[c.issuer].claimer == Nobody
            && w'.transfers == w.transfers[c.issuer := w.transfers[c.issuer].(claimer := Handler)]
  {
    ReachedIsSafe(w);
    CompletionFindsIssuer(w);
  }

  /** A completion waiting to be taken always shows in the wait count, so the poll that looks at the count first misses
      none. */
  lemma WaitCountShowsCompletions(w: System)
    requires Reached(w) && !w.teardown.stopped && w.completions != []
    ensures w.waitCount > 0
  {
    ReachedDevice(w);
    var c := w.completions[0];
    assert Outstanding(w.transfers, c);
    CountAtLeast(w.transfers, c.issuer, Awaited());
  }

  /** With every thread between its steps, the wait count is the number of pushed, unclaimed transfers. */
  lemma WaitCountIsOwed(w: System)
    requires Reached(w) && w.sqLock.None? && w.idLock.None?
    requires forall t :: t in w.transfers ==> w.transfers[t].stage != Seized
    ensures w.waitCount == |set t | t in w.transfers && IsOwed(w.transfers[t])|
  {
    ReachedIsSafe(w);
    assert Matching(w.transfers, Awaited()) == set t | t in w.transfers && IsOwed(w.transfers[t]);
  }

  // ---------------------------------------------------------------------------------------------
  // Memory
  // ---------------------------------------------------------------------------------------------

  /** What the device may still touch is still there: a command at a device that is not gone has its transfer,
      its descriptor lists and the mapping it shares with the other splits. */
  lemma DeviceMemoryIsKept(w: System, c: Command)
    requires Reached(w) && !w.teardown.gone && c in w.atDevice
    ensures c.issuer in w.transfers && !Released(w.transfers[c.issuer])
    ensures var m := w.transfers[c.issuer].mapping; m.Some? ==> m.value in w.mappings
  {
    ReachedIsSafe(w);
    assert Outstanding(w.transfers, c);
    assert Consistent(w.transfers[c.issuer], w.teardown.reclaimSafe);
  }

  /** A release begins only for a transfer that was never pushed, whose completion was claimed, or that teardown
      declared safe to take. */
  lemma ReleaseHasAReason(w: System, t: nat)
    requires Reached(w) && Can(w, t, FreeDescs)
    ensures var x := w.transfers[t]; !x.pushed || x.claimer == Handler || (x.claimer == Cleaner && w.teardown.reclaimSafe)
  {
    ReachedConsistent(w);
    assert Consistent(w.transfers[t], w.teardown.reclaimSafe);
  }

  /** Giving back an id never takes it from a transfer that was given it since. */
  lemma LateFreeSparesOthers(w: System, t: nat, u: nat)
    requires Reached(w) && Can(w, t, FreeId) && u in w.transfers && u != t && InTable(w.transfers[u])
    ensures var ids := AfterOwn(w, t, FreeId).ids; w.transfers[u].id in ids && ids[w.transfers[u].id] == u
  {
    ReachedIds(w);
  }

  /** A mapping is there exactly as long as its creator, or a split that has not put it, needs it: it outlives every
      split, and the last put unmaps it. */
  lemma MappingOutlivesSplits(w: System, m: nat)
    requires Reached(w)
    ensures (exists t :: t in w.transfers && Held(w.transfers[t]) == Some(m)) ==> m in w.mappings
    ensures m in w.mappings ==> w.mappings[m].creator || exists t :: t in w.transfers && Held(w.transfers[t]) == Some(m)
  {
    ReachedMappings(w);
    if m in w.mappings && !w.mappings[m].creator {
      var t := CountWitness(w.transfers, Maps(m));
    }
  }

  // ---------------------------------------------------------------------------------------------
  // Exactly once
  // ---------------------------------------------------------------------------------------------

  function Rank(stage: Stage): (r: nat) {
    match stage
    case Built => 0
    case Waiting => 1
    case Late => 2
    case Withdrawn => 3
    case Finished => 3
    case Marked => 3
    case Numbered => 4
    case Parked => 5
    case Collected => 6
    case Seized => 7
    case Uncounted => 8
    case Drained => 9
    case DescsFreed => 10
    case MappingPut => 11
    case IdFreed => 12
  }

  /** The three things a transfer gives back. */
  predicate IsRelease(act: Act) {
    act == FreeDescs || act == PutMapping || act == FreeId
  }

  /** The rank a release leaves a transfer in. */
  function ReleaseRank(act: Act): (r: nat) {
    if act == FreeDescs then 10 else if act == PutMapping then 11 else 12
  }

  lemma ActAdvances(x: Transfer, act: Act, safe: bool)
    requires Consistent(x, safe) && Ready(x, act, safe)
    ensures Rank(x.stage) <= Rank(After(x, act).stage)
    ensures IsRelease(act) ==> Rank(x.stage) < ReleaseRank(act) == Rank(After(x, act).stage)
  {
  }

  /** A release's rank is reached by that release alone. */
  lemma OnlyReleaseReaches(x: Transfer, act: Act, safe: bool, release: Act)
    requires Consistent(x, safe) && Ready(x, act, safe) && IsRelease(release) && act != release
    ensures Rank(After(x, act).stage) >= ReleaseRank(release) ==> Rank(x.stage) >= ReleaseRank(release)
  {
  }

  lemma OthersKeepStage(w: System, s: Step, t: nat)
    requires Enabled(w, s) && t in w.transfers && s != Free(t) && !(s.Own? && s.t == t)
    ensures t in Next(w, s).transfers && Next(w, s).transfers[t].stage == w.transfers[t].stage
  {
  }

  /** Where a transfer was before a step. */
  lemma StageBefore(w: System, s: Step, t: nat)
    requires Enabled(w, s) && t in Next(w, s).transfers && Next(w, s).transfers[t].stage != Built
    ensures t in w.transfers && s != Free(t)
  {
  }

  lemma StepAdvances(w: System, s: Step, t: nat)
    requires AllConsistent(w) && Enabled(w, s) && t in w.transfers && s != Free(t)
    ensures t in Next(w, s).transfers && Rank(w.transfers[t].stage) <= Rank(Next(w, s).transfers[t].stage)
  {
    if s.Own? && s.t == t {
      ActAdvances(w.transfers[t], s.act, w.teardown.reclaimSafe);
    } else {
      OthersKeepStage(w, s, t);
    }
  }

  /** Until a transfer is freed its stage only advances. */
  lemma {:induction false} StageOnlyAdvances(ws: seq<System>, steps: seq<Step>, i: nat, j: nat, t: nat)
    requires Run(ws, steps) && i <= j < |ws| && t in ws[i].transfers
    requires forall m :: i <= m < j ==> steps[m] != Free(t)
    ensures t in ws[j].transfers && Rank(ws[i].transfers[t].stage) <= Rank(ws[j].transfers[t].stage)
  {
    if i < j {
      StageOnlyAdvances(ws, steps, i, j - 1, t);
      RunsAreConsistent(ws, steps, j - 1);
      StepAdvances(ws[j - 1], steps[j - 1], t);
    }
  }

  /** Descriptor lists, mapping reference and id are each given back at most once in a transfer's life: between two such
      releases the record itself was freed. */
  lemma ReleasesHappenOnce(ws: seq<System>, steps: seq<Step>, i: nat, j: nat, t: nat, act: Act)
    requires Run(ws, steps) && i < j < |steps| && IsRelease(act) && steps[i] == steps[j] == Own(t, act)
    ensures exists m :: i < m < j && steps[m] == Free(t)
  {
    if forall m :: i < m < j ==> steps[m] != Free(t) {
      RunsAreConsistent(ws, steps, i);
      RunsAreConsistent(ws, steps, j);
      ActAdvances(ws[i].transfers[t], act, ws[i].teardown.reclaimSafe);
      ActAdvances(ws[j].transfers[t], act, ws[j].teardown.reclaimSafe);
      StageOnlyAdvances(ws, steps, i + 1, j, t);
    }
  }

  lemma StepReaches(w: System, s: Step, t: nat, act: Act)
    requires AllConsistent(w) && Enabled(w, s) && IsRelease(act) && s != Own(t, act)
    requires t in Next(w, s).transfers && Rank(Next(w, s).transfers[t].stage) >= ReleaseRank(act)
    ensures t in w.transfers && Rank(w.transfers[t].stage) >= ReleaseRank(act) && s != Free(t)
  {
    StageBefore(w, s, t);
    if s.Own? && s.t == t {
      OnlyReleaseReaches(w.transfers[t], s.act, w.teardown.reclaimSafe, act);
    } else {
      OthersKeepStage(w, s, t);
    }
  }

  lemma NotAtFirst(ws: seq<System>, steps: seq<Step>, k: nat, t: nat)
    requires Run(ws, steps) && k < |ws| && t in ws[k].transfers
    ensures k > 0 && Enabled(ws[k - 1], steps[k - 1]) && ws[k] == Next(ws[k - 1], steps[k - 1])
  {
  }

  /** A transfer past the rank of a release had it, in this life. */
  lemma {:induction false} ReleasedBefore(ws: seq<System>, steps: seq<Step>, k: nat, t: nat, act: Act) returns (i: nat)
    requires Run(ws, steps) && k < |ws| && IsRelease(act)
    requires t in ws[k].transfers && Rank(ws[k].transfers[t].stage) >= ReleaseRank(act)
    ensures i < k && steps[i] == Own(t, act) && forall m :: i < m < k ==> steps[m] != Free(t)
  {
    NotAtFirst(ws, steps, k, t);
    if steps[k - 1] == Own(t, act) {
      i := k - 1;
    } else {
      RunsAreConsistent(ws, steps, k - 1);
      StepReaches(ws[k - 1], steps[k - 1], t, act);
      i := ReleasedBefore(ws, steps, k - 1, t, act);
    }
  }

  /** And at least once: when a record is freed, descriptor lists, mapping reference and id have each been given back in
      its life. */
  lemma FreedHasReleased(ws: seq<System>, steps: seq<Step>, j: nat, t: nat, act: Act)
    requires Run(ws, steps) && j < |steps| && steps[j] == Free(t) && IsRelease(act)
    ensures exists i :: 0 <= i < j && steps[i] == Own(t, act) && forall m :: i < m < j ==> steps[m] != Free(t)
  {
    var i := ReleasedBefore(ws, steps, j, t, act);
  }
}
