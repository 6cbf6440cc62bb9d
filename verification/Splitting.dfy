/** Cutting one user buffer into parallel transfers that share its mapping. */
module Splitting {
  import opened Arithmetic
  import opened ScatterLists
  import opened PrpCount
  import opened Commands
  import opened Options

  const PAGE_SIZE: nat := 4096
  const INT_MAX: nat := 0x7fff_ffff
  const WORD32: nat := 0x1_0000_0000
  const WORD64: nat := 0x1_0000_0000_0000_0000
  /** User mappings live in the lower half of the address space. */
  const USER_TOP: nat := 0x8000_0000_0000_0000

  /** A 32-bit word read as a signed integer. */
  function Signed(w: nat): (r: int)
    requires w < WORD32
  {
    if w <= INT_MAX then w else w - WORD32
  }

  /** Host pages a buffer touches. */
  function PagesSpanned(buf: nat, size: nat): (r: nat)
    requires size > 0
  {
    (buf + size - 1) / PAGE_SIZE - buf / PAGE_SIZE + 1
  }

  /** The page count as the driver computes it, in machine words. */
  function PageCount32(buf: nat, size: nat): (r: nat)
    requires buf < WORD64 && 0 < size < WORD64
    ensures buf + size <= USER_TOP ==> 1 <= r <= PagesSpanned(buf, size)
  {
    var firstPage := buf / PAGE_SIZE;
    var lastPage := ((buf + size - 1) % WORD64) / PAGE_SIZE;
    Min((lastPage - firstPage + 1) % WORD64, INT_MAX)
  }

  /** `DIV_ROUND_UP(offset_in_page(buf) + size, PAGE_SIZE)`: as many pages as the buffer touches. */
  function PagesToPin(buf: nat, size: nat): (r: nat)
    requires size > 0
    ensures r == PagesSpanned(buf, size)
  {
    (buf % PAGE_SIZE + size + PAGE_SIZE - 1) / PAGE_SIZE
  }

  /** The size check and page count of `mx_sg_context_create`: a size of zero, or one whose page array would be too
      large, is refused. */
  function PinnedPages(buf: nat, size: nat): (r: Option<nat>)
    ensures r.Some? <==> size > 0 && buf % PAGE_SIZE + size <= (INT_MAX / 8) * PAGE_SIZE
    ensures r.Some? ==> r.value == PagesSpanned(buf, size) <= INT_MAX
  {
    if size == 0 || size > (INT_MAX / 8) * PAGE_SIZE - buf % PAGE_SIZE then None else Some(PagesToPin(buf, size))
  }

  function DescsPerSplit(dmaSize: nat, ratio: nat): (r: nat)
    ensures r >= 1
  {
    Max(((dmaSize / 8) * ratio) % WORD32 / 100, 1)
  }

  /** DIV_ROUND_UP in 64-bit words. */
  function RoundUp64(a: nat, d: nat): (r: nat)
    requires d > 0
  {
    ((a + d - 1) % WORD64) / d
  }

  /** Splits by descriptor budget: a share `ratio` percent of one list for each. */
  function BudgetCount(size: nat, dmaSize: nat, ratio: nat): (r: nat)
    requires size < WORD64 && 8 <= dmaSize <= PAGE_SIZE && ratio < WORD32
    ensures 1 <= r <= INT_MAX
  {
    var perSplit := DescsPerSplit(dmaSize, ratio);
    var rawCount := RoundUp64(RoundUp64(size, dmaSize), perSplit);
    Max(Min(rawCount, INT_MAX), 1)
  }

  /** `mx_parallel_count_for`: whatever the tunables, at least one split and no more than pages. */
  function ParallelCountFor(buf: nat, size: nat, dmaSize: nat, parallelCount: nat, ratio: nat): (count: nat)
    requires buf < WORD64 && 0 < size < WORD64 && 8 <= dmaSize <= PAGE_SIZE
    requires parallelCount < WORD32 && ratio < WORD32
    ensures count >= 1
    ensures buf + size <= USER_TOP ==> count <= PagesSpanned(buf, size)
    ensures Signed(parallelCount) >= 1 ==> count <= Signed(parallelCount)
  {
    var nrPages := PageCount32(buf, size);
    var wanted := if ratio == 0 then nrPages else Min(BudgetCount(size, dmaSize, ratio), nrPages);
    var cap := Signed(parallelCount);
    Max(if wanted <= cap then wanted else cap, 1)
  }

  /** One split: its place in the buffer and on the device. */
  datatype Transfer = Transfer(offset: nat, size: nat, deviceAddr: nat)

  /** Non-empty, back to back from the start of the buffer, at matching device addresses. */
  predicate Tiles(ts: seq<Transfer>, total: nat, base: nat) {
    && (forall k :: 0 <= k < |ts| ==> ts[k].size > 0 && ts[k].deviceAddr == base + ts[k].offset)
    && (forall k :: 0 <= k < |ts| ==> ts[k].offset == if k == 0 then 0 else ts[k - 1].offset + ts[k - 1].size)
    && total == if ts == [] then 0 else ts[|ts| - 1].offset + ts[|ts| - 1].size
  }

  /** Every cut falls on a host page boundary. */
  predicate PageCuts(ts: seq<Transfer>, userAddr: nat) {
    forall k :: 0 < k < |ts| ==> (userAddr + ts[k].offset) % PAGE_SIZE == 0
  }

  /** Pages handed to the last `n` splits when `r` of them still get one extra. */
  ghost function PagesDue(q: nat, r: int, n: nat): (p: nat)
    ensures q >= 1 ==> p >= n
    decreases n
  {
    if n == 0 then 0 else (if r > 0 then q + 1 else q) + PagesDue(q, r - 1, n - 1)
  }

  lemma {:induction false} PagesDueTotal(q: nat, r: int, n: nat)
    requires r < n || n == 0
    ensures PagesDue(q, r, n) == n * q + if r > 0 && n > 0 then r else 0
    decreases n
  {
    if n > 0 {
      PagesDueTotal(q, r - 1, n - 1);
      assert n * q == (n - 1) * q + q;
    }
  }

  lemma EvenShares(pages: nat, count: nat)
    requires 1 <= count <= pages
    ensures pages / count >= 1 && PagesDue(pages / count, pages % count, count) == pages
  {
    PagesDueTotal(pages / count, pages % count, count);
    assert pages == count * (pages / count) + pages % count;
  }

  /** Where a split of `num` pages starting at `cursor` ends. */
  function SplitEnd(cursor: nat, num: nat): (r: nat) {
    (cursor + num * PAGE_SIZE) / PAGE_SIZE * PAGE_SIZE
  }

  /** A split takes whole pages, the last one what is left. */
  lemma SliceStep(cursor: nat, remaining: nat, num: nat)
    requires remaining > 0 && 1 <= num <= PagesSpanned(cursor, remaining)
    ensures SplitEnd(cursor, num) > cursor
    ensures var slice := Min(SplitEnd(cursor, num) - cursor, remaining);
            && 0 < slice
            && (num == PagesSpanned(cursor, remaining) <==> slice == remaining)
            && (slice < remaining ==>
                  (cursor + slice) % PAGE_SIZE == 0
                  && PagesSpanned(cursor + slice, remaining - slice) == PagesSpanned(cursor, remaining) - num)
  {
  }

  /** Tiles of the buffer so far, cut at page boundaries. */
  ghost predicate Cut(ts: seq<Transfer>, used: nat, base: nat, userAddr: nat) {
    Tiles(ts, used, base) && PageCuts(ts, userAddr)
  }

  lemma CutAppend(ts: seq<Transfer>, used: nat, base: nat, userAddr: nat, size: nat)
    requires Cut(ts, used, base, userAddr) && size > 0
    requires ts == [] || (userAddr + used) % PAGE_SIZE == 0
    ensures Cut(ts + [Transfer(used, size, base + used)], used + size, base, userAddr)
  {
  }

  /** The pages still to hand out are those the rest of the buffer spans. */
  ghost predicate Balanced(userAddr: nat, used: nat, total: nat, q: nat, r: int, n: nat, first: bool) {
    if n == 0 then used == total
    else used < total && PagesDue(q, r, n) == PagesSpanned(userAddr + used, total - used)
         && (first || (userAddr + used) % PAGE_SIZE == 0)
  }

  lemma BalancedStep(userAddr: nat, used: nat, total: nat, q: nat, r: int, n: nat, first: bool)
    requires q >= 1 && n > 0 && Balanced(userAddr, used, total, q, r, n, first)
    ensures var cursor := userAddr + used;
            var num := if r > 0 then q + 1 else q;
            SplitEnd(cursor, num) > cursor &&
            var slice := Min(SplitEnd(cursor, num) - cursor, total - used);
            slice > 0 && Balanced(userAddr, used + slice, total, q, r - 1, n - 1, false)
  {
    SliceStep(userAddr + used, total - used, if r > 0 then q + 1 else q);
  }

  /** The size of the next split: whole pages up to a page boundary, or what is left. */
  method NextSlice(userAddr: nat, used: nat, total: nat, q: nat, r: int, n: nat, ghost first: bool) returns (slice: nat)
    requires q >= 1 && n > 0 && Balanced(userAddr, used, total, q, r, n, first)
    ensures slice > 0 && Balanced(userAddr, used + slice, total, q, r - 1, n - 1, false)
  {
    BalancedStep(userAddr, used, total, q, r, n, first);
    var cursor := userAddr + used;
    var num := if r > 0 then q + 1 else q;
    slice := Min(SplitEnd(cursor, num) - cursor, total - used);
  }

  /** The slicing loop: `extra` splits of `q + 1` pages, then splits of `q`; it stops where a split cannot be
      allocated. */
  method SliceLoop(userAddr: nat, total: nat, base: nat, q: nat, extra: nat, count: nat, memory: nat)
    returns (ts: seq<Transfer>)
    requires q >= 1 && Balanced(userAddr, 0, total, q, extra, count, true)
    ensures |ts| == Min(count, memory)
    ensures memory >= count ==> Tiles(ts, total, base) && PageCuts(ts, userAddr)
  {
    ts := [];
    var used: nat := 0;
    var r: int := extra;
    while |ts| < count && |ts| < memory
      invariant |ts| <= Min(count, memory) && Cut(ts, used, base, userAddr)
      invariant Balanced(userAddr, used, total, q, r, count - |ts|, |ts| == 0)
    {
      var slice := NextSlice(userAddr, used, total, q, r, count - |ts|, |ts| == 0);
      r := r - 1;
      CutAppend(ts, used, base, userAddr, slice);
      ts := ts + [Transfer(used, slice, base + used)];
      used := used + slice;
    }
  }

  /** `alloc_mx_transfers`, with `memory` the number of allocations that succeed, the array of splits first: the splits
      tile the buffer and every cut is a page boundary; short of memory, every split made is released. */
  method AllocTransfers(userAddr: nat, total: nat, base: nat, pagesNr: nat, count: nat, memory: nat)
    returns (r: Option<seq<Transfer>>, released: seq<Transfer>)
    requires total > 0 && userAddr + total <= USER_TOP
    requires pagesNr == PagesSpanned(userAddr, total) && 1 <= count <= pagesNr
    ensures r.Some? <==> memory > count
    ensures r.Some? ==> |r.value| == count && Tiles(r.value, total, base) && PageCuts(r.value, userAddr) && released == []
    ensures r.None? ==> |released| == if memory == 0 then 0 else memory - 1
  {
    r, released := None, [];
    if memory == 0 { return; }
    EvenShares(pagesNr, count);
    var ts := SliceLoop(userAddr, total, base, pagesNr / count, pagesNr % count, count, memory - 1);
    if |ts| == count { r := Some(ts); } else { released := ts; }
  }

  /** What a transfer does: each device address with the bus address it is copied to or from. */
  function Pairs(deviceAddr: nat, bytes: seq<nat>): (r: seq<(nat, nat)>)
    ensures |r| == |bytes|
    ensures forall k :: 0 <= k < |bytes| ==> r[k] == (deviceAddr + k, bytes[k])
  {
    seq(|bytes|, k requires 0 <= k < |bytes| => (deviceAddr + k, bytes[k]))
  }

  /** All splits together, in order. */
  function AllPairs(ts: seq<Transfer>, bytes: seq<nat>): (r: seq<(nat, nat)>)
    requires forall k :: 0 <= k < |ts| ==> ts[k].offset + ts[k].size <= |bytes|
  {
    if ts == [] then []
    else
      var last := ts[|ts| - 1];
      AllPairs(ts[..|ts| - 1], bytes) + Pairs(last.deviceAddr, bytes[last.offset..last.offset + last.size])
  }

  lemma {:induction false} TilesWithin(ts: seq<Transfer>, total: nat, base: nat, k: nat)
    requires Tiles(ts, total, base) && k < |ts|
    ensures ts[k].offset + ts[k].size <= total
    decreases |ts| - k
  {
    if k + 1 < |ts| {
      TilesWithin(ts, total, base, k + 1);
    }
  }

  /** Tiling a buffer moves exactly the bytes the whole transfer would, to the same places. */
  lemma {:induction false} SplitsMoveTheWhole(ts: seq<Transfer>, total: nat, base: nat, bytes: seq<nat>)
    requires Tiles(ts, total, base) && total <= |bytes|
    requires forall k :: 0 <= k < |ts| ==> ts[k].offset + ts[k].size <= |bytes|
    ensures AllPairs(ts, bytes) == Pairs(base, bytes[..total])
    decreases |ts|
  {
    if ts != [] {
      var last := ts[|ts| - 1];
      SplitsMoveTheWhole(ts[..|ts| - 1], last.offset, base, bytes);
      var whole := Pairs(base, bytes[..total]);
      assert whole[..last.offset] == Pairs(base, bytes[..last.offset]);
      assert whole[last.offset..] == Pairs(last.deviceAddr, bytes[last.offset..total]);
      assert whole == whole[..last.offset] + whole[last.offset..];
    }
  }

  /** Splitting preserves meaning: when the counting walk accepts the whole mapping it accepts every
      split of it, and the splits together move what the whole transfer would. */
  lemma SplittingPreservesMeaning(sg: seq<Segment>, ts: seq<Transfer>, total: nat, base: nat, d: nat)
    requires Mapped(sg) && d > 0 && Tiles(ts, total, base) && AcceptedAt(sg, 0, total, d)
    ensures forall k :: 0 <= k < |ts| ==>
              ts[k].offset + ts[k].size <= |Bytes(sg)| && AcceptedAt(sg, ts[k].offset, ts[k].size, d)
    ensures AllPairs(ts, Bytes(sg)) == Pairs(base, Slice(sg, 0, total))
  {
    assert Drop(sg, 0) == sg;
    forall k | 0 <= k < |ts|
      ensures ts[k].offset + ts[k].size <= |Bytes(sg)| && AcceptedAt(sg, ts[k].offset, ts[k].size, d)
    {
      TilesWithin(ts, total, base, k);
      AcceptedSlice(sg, total, d, ts[k].offset, ts[k].size);
    }
    SplitsMoveTheWhole(ts, total, base, Bytes(sg));
    assert Bytes(sg)[..total] == Bytes(sg)[0..0 + total];
  }
}
