/** A parallel transfer from end to end: how many splits, which, and the commands built for them. What the device makes
    of all the commands together is the transfer that was asked for. */
module ParallelTransfers {

  import opened Arithmetic
  import opened ScatterLists
  import opened Commands
  import opened Splitting
  import opened Options

  /** The two generations of hardware; the second uses the host page size. */
  datatype Revision = First | Second(d: nat)

  datatype Command = V1(c1: CommandV1) | V2(c2: CommandV2, d: nat)

  ghost predicate Supported(rev: Revision) {
    rev.Second? ==> PowerOfTwo(rev.d) && 16 <= rev.d <= PAGE_SIZE
  }

  function ChunkSize(rev: Revision): (d: nat) {
    match rev
    case First => V1_DMA_SIZE
    case Second(d) => d
  }

  function Decode(c: Command, mem: map<nat, seq<nat>>): (r: Option<seq<nat>>) {
    match c
    case V1(c1) => DecodeV1(c1, mem)
    case V2(c2, d) => if d >= 16 then DecodeV2(c2, mem, d) else None
  }

  /** When a command for a slice can be built at all. */
  ghost predicate Possible(rev: Revision, sg: seq<Segment>, offset: nat, size: nat, pages: nat)
    requires Mapped(sg) && (rev.Second? ==> rev.d >= 16)
  {
    match rev
    case First => V1Possible(sg, offset, size, pages)
    case Second(d) => V2Possible(sg, offset, size, d, pages)
  }

  /** A command, with the pages that go with it. */
  datatype Job = Job(command: Command, va: seq<array<nat>>, ba: seq<nat>)

  /** Memory shows the pages of all jobs. */
  ghost predicate AllVisible(mem: map<nat, seq<nat>>, jobs: seq<Job>)
    reads set j, k | 0 <= j < |jobs| && 0 <= k < |jobs[j].va| :: jobs[j].va[k]
  {
    forall j :: 0 <= j < |jobs| ==> Visible(mem, jobs[j].ba, jobs[j].va)
  }

  /** What the device does with all the commands: each device address with the bus address it is copied to or from. */
  function DeviceDoes(ts: seq<Transfer>, jobs: seq<Job>, mem: map<nat, seq<nat>>): (r: Option<seq<(nat, nat)>>)
    requires |jobs| == |ts|
  {
    if ts == [] then Some([])
    else
      var n := |ts| - 1;
      match (DeviceDoes(ts[..n], jobs[..n], mem), Decode(jobs[n].command, mem))
      case (Some(before), Some(bytes)) => Some(before + Pairs(ts[n].deviceAddr, bytes))
      case _ => None
  }

  /** Job `j` decodes to its slice in every memory that shows its pages. */
  ghost predicate Faithful(j: Job, sg: seq<Segment>, t: Transfer)
    reads j.va
  {
    && t.offset + t.size <= |Bytes(sg)|
    && forall mem :: Visible(mem, j.ba, j.va) ==> Decode(j.command, mem) == Some(Slice(sg, t.offset, t.size))
  }

  lemma {:induction false} DecodesToAllPairs(ts: seq<Transfer>, jobs: seq<Job>, sg: seq<Segment>, mem: map<nat, seq<nat>>)
    requires |jobs| == |ts| && AllVisible(mem, jobs)
    requires forall j :: 0 <= j < |jobs| ==> Faithful(jobs[j], sg, ts[j])
    requires forall j :: 0 <= j < |ts| ==> ts[j].offset + ts[j].size <= |Bytes(sg)|
    ensures DeviceDoes(ts, jobs, mem) == Some(AllPairs(ts, Bytes(sg)))
  {
    if ts != [] {
      var n := |ts| - 1;
      assert forall j :: 0 <= j < n ==> jobs[..n][j] == jobs[j] && ts[..n][j] == ts[j];
      DecodesToAllPairs(ts[..n], jobs[..n], sg, mem);
      assert Faithful(jobs[n], sg, ts[n]) && Visible(mem, jobs[n].ba, jobs[n].va);
    }
  }

  /** `create_command_sg` of either revision. */
  method CreateCommand(rev: Revision, sg: seq<Segment>, t: Transfer, pool: seq<nat>) returns (r: Option<Job>)
    requires Mapped(sg) && Supported(rev)
    ensures r.Some? <==> Possible(rev, sg, t.offset, t.size, |pool|)
    ensures r.Some? ==> Faithful(r.value, sg, t)
  {
    match rev {
      case First =>
        var c, va, ba := CreateSgV1(sg, t.offset, t.size, pool);
        r := if c.Some? then Some(Job(V1(c.value), va, ba)) else None;
      case Second(d) =>
        var c, va, ba := CreateSgV2(sg, t.offset, t.size, d, pool);
        r := if c.Some? then Some(Job(V2(c.value, d), va, ba)) else None;
    }
  }

  /** A command for every split, or none at all: `pools` are the pages free when each is built. */
  method CreateCommands(rev: Revision, sg: seq<Segment>, ts: seq<Transfer>, pools: seq<seq<nat>>)
    returns (r: Option<seq<Job>>)
    requires Mapped(sg) && Supported(rev) && |pools| == |ts|
    ensures r.Some? <==> forall j :: 0 <= j < |ts| ==> Possible(rev, sg, ts[j].offset, ts[j].size, |pools[j]|)
    ensures r.Some? ==> |r.value| == |ts| && forall j :: 0 <= j < |ts| ==> Faithful(r.value[j], sg, ts[j])
  {
    var jobs: seq<Job> := [];
    while |jobs| < |ts|
      invariant |jobs| <= |ts|
      invariant forall j :: 0 <= j < |jobs| ==> Possible(rev, sg, ts[j].offset, ts[j].size, |pools[j]|)
      invariant forall j :: 0 <= j < |jobs| ==> Faithful(jobs[j], sg, ts[j])
    {
      var job := CreateCommand(rev, sg, ts[|jobs|], pools[|jobs|]);
      if job.None? { return None; }
      jobs := jobs + [job.value];
    }
    r := Some(jobs);
  }

  /** The splits of a buffer that has been pinned: one transfer for the whole, or as many as the settings ask for. */
  method Split(buf: nat, size: nat, base: nat, count: nat, pages: nat, memory: nat) returns (ts: seq<Transfer>)
    requires size > 0 && buf + size <= USER_TOP && pages == PagesSpanned(buf, size) && 1 <= count <= pages
    ensures memory > count ==> ts != []
    ensures ts != [] ==> |ts| == count && Tiles(ts, size, base)
  {
    if count == 1 {
      return if memory > 0 then [Transfer(0, size, base)] else [];
    }
    var r, released := AllocTransfers(buf, size, base, pages, count, memory);
    ts := if r.Some? then r.value else [];
  }

  /** The splits the settings ask for; none for a size that is refused or for lack of memory. */
  method PlanSplits(buf: nat, size: nat, base: nat, dmaSize: nat, parallelCount: nat, ratio: nat, memory: nat)
    returns (ts: seq<Transfer>)
    requires buf + size <= USER_TOP && 8 <= dmaSize <= PAGE_SIZE && parallelCount < WORD32 && ratio < WORD32
    ensures ts != [] ==> Tiles(ts, size, base)
    ensures memory > INT_MAX && PinnedPages(buf, size).Some? ==> ts != []
  {
    var pages := PinnedPages(buf, size);
    if pages.None? { return []; }
    var count := ParallelCountFor(buf, size, dmaSize, parallelCount, ratio);
    ts := Split(buf, size, base, count, pages.value, memory);
  }

  /** A parallel read or write of a user buffer mapped as `sg`, from the settings to the commands. Whatever the settings,
      the commands together make the device move what the unsplit transfer would; and once the splits are there, the
      only reason to fail is a split for which no command is possible. */
  method TransferInParallel(rev: Revision, sg: seq<Segment>, buf: nat, size: nat, base: nat, parallelCount: nat, ratio: nat,
                            memory: nat, pool: nat -> seq<nat>)
    returns (r: Option<seq<Job>>, ts: seq<Transfer>)
    requires Mapped(sg) && Supported(rev) && |Bytes(sg)| == size && buf + size <= USER_TOP
    requires parallelCount < WORD32 && ratio < WORD32
    ensures r.Some? ==> |r.value| == |ts| && Tiles(ts, size, base)
    ensures r.Some? ==>
              forall mem :: AllVisible(mem, r.value) ==> DeviceDoes(ts, r.value, mem) == Some(Pairs(base, Bytes(sg)))
    ensures r.None? && ts != [] ==>
              exists j :: 0 <= j < |ts| && !Possible(rev, sg, ts[j].offset, ts[j].size, |pool(j)|)
  {
    r := None;
    ts := PlanSplits(buf, size, base, ChunkSize(rev), parallelCount, ratio, memory);
    if ts == [] { return; }
    r := CreateAll(rev, sg, size, base, ts, pool);
  }

  method CreateAll(rev: Revision, sg: seq<Segment>, size: nat, base: nat, ts: seq<Transfer>, pool: nat -> seq<nat>)
    returns (r: Option<seq<Job>>)
    requires Mapped(sg) && Supported(rev) && |Bytes(sg)| == size && Tiles(ts, size, base)
    ensures r.None? ==> exists j :: 0 <= j < |ts| && !Possible(rev, sg, ts[j].offset, ts[j].size, |pool(j)|)
    ensures r.Some? ==> |r.value| == |ts|
    ensures r.Some? ==>
              forall mem :: AllVisible(mem, r.value) ==> DeviceDoes(ts, r.value, mem) == Some(Pairs(base, Bytes(sg)))
  {
    var pools := seq(|ts|, j requires 0 <= j => pool(j));
    r := CreateCommands(rev, sg, ts, pools);
    if r.Some? {
      forall mem | AllVisible(mem, r.value) ensures DeviceDoes(ts, r.value, mem) == Some(Pairs(base, Bytes(sg))) {
        CommandsMoveTheWhole(ts, r.value, sg, size, base, mem);
      }
    }
  }

  lemma CommandsMoveTheWhole(ts: seq<Transfer>, jobs: seq<Job>, sg: seq<Segment>, size: nat, base: nat,
                             mem: map<nat, seq<nat>>)
    requires Tiles(ts, size, base) && size == |Bytes(sg)| && |jobs| == |ts| && AllVisible(mem, jobs)
    requires forall j :: 0 <= j < |jobs| ==> Faithful(jobs[j], sg, ts[j])
    ensures DeviceDoes(ts, jobs, mem) == Some(Pairs(base, Bytes(sg)))
  {
    forall j | 0 <= j < |ts| ensures ts[j].offset + ts[j].size <= |Bytes(sg)| { TilesWithin(ts, size, base, j); }
    DecodesToAllPairs(ts, jobs, sg, mem);
    SplitsMoveTheWhole(ts, size, base, Bytes(sg));
    assert Bytes(sg)[..size] == Bytes(sg);
  }
}
