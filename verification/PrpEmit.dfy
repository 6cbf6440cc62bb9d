/** The emit walk: filling chained descriptor pages from a scatter list. */
module PrpEmit {
  import opened Arithmetic
  import opened ScatterLists
  import opened PrpLists
  import opened PrpCount
  import opened PrpPages

  /** The descriptors held by full, chained pages. */
  function Flat(done: seq<seq<nat>>, per: nat): (r: seq<nat>)
    requires per >= 2 && forall k :: 0 <= k < |done| ==> |done[k]| == per
  {
    if done == [] then [] else done[0][..per - 1] + Flat(done[1..], per)
  }

  lemma {:induction false} FlatAppend(done: seq<seq<nat>>, p: seq<nat>, per: nat)
    requires per >= 2 && |p| == per && forall k :: 0 <= k < |done| ==> |done[k]| == per
    ensures Flat(done + [p], per) == Flat(done, per) + p[..per - 1]
  {
    var all := done + [p];
    if done == [] {
      assert all[1..] == [];
    } else {
      FlatAppend(done[1..], p, per);
      assert all[1..] == done[1..] + [p] && all[0] == done[0];
    }
  }

  /** Full pages whose last slots point on, and a last page, are the layout of what they hold. */
  lemma {:induction false} LayoutOf(done: seq<seq<nat>>, cur: seq<nat>, per: nat, ba: seq<nat>)
    requires per >= 2 && |ba| == |done| + 1 && |cur| <= per && (done != [] ==> |cur| >= 2)
    requires forall k :: 0 <= k < |done| ==> |done[k]| == per && done[k][per - 1] == ba[k + 1]
    ensures |ba| == PageCount(|Flat(done, per) + cur|, per)
    ensures Pages(Flat(done, per) + cur, per, ba) == done + [cur]
    decreases |done|
  {
    if done == [] {
      assert Flat(done, per) + cur == cur;
    } else {
      var all := Flat(done, per) + cur;
      var rest := Flat(done[1..], per) + cur;
      LayoutOf(done[1..], cur, per, ba[1..]);
      assert all == done[0][..per - 1] + rest;
      assert all[per - 1..] == rest && all[..per - 1] == done[0][..per - 1];
      assert done[0] == done[0][..per - 1] + [ba[1]];
      assert done + [cur] == [done[0]] + (done[1..] + [cur]);
    }
  }

  /** The pages of one transfer and the emit cursor over them (`list_idx`, `desc_idx` and
      `total_desc_cnt` of the walk). */
  class DescWriter {
    const per: nat
    const va: seq<array<nat>>
    const ba: seq<nat>
    var listIdx: nat
    var descIdx: nat
    var left: nat
    ghost var done: seq<seq<nat>>
    ghost var emitted: seq<nat>

    ghost predicate Valid()
      reads this, va
    {
      && per >= 2 && |va| == |ba| && listIdx < |va| && descIdx <= per
      && (forall i :: 0 <= i < |va| ==> va[i].Length == per)
      && (forall i, j :: 0 <= i < j < |va| ==> va[i] != va[j])
      && |done| == listIdx
      && (forall k :: 0 <= k < listIdx ==> va[k][..] == done[k] && |done[k]| == per && done[k][per - 1] == ba[k + 1])
      && emitted == Flat(done, per) + va[listIdx][..descIdx]
      && (listIdx > 0 ==> left + descIdx >= 2)
      && (descIdx == per ==> left == 0)
    }

    /** There is room, and pages, for everything still to come. */
    ghost predicate OnTrack()
      requires Valid()
      reads this, va
    {
      |ba| - listIdx == PageCount(left + descIdx, per)
    }

    /** `desc_list_alloc`, with the bus addresses the pool hands out. */
    constructor (per: nat, ba: seq<nat>, count: nat)
      requires per >= 2 && ba != []
      ensures Valid() && fresh(va)
      ensures this.per == per && this.ba == ba && left == count && emitted == []
      ensures OnTrack() <==> |ba| == PageCount(count, per)
    {
      var pages: seq<array<nat>> := [];
      while |pages| < |ba|
        invariant |pages| <= |ba|
        invariant forall i :: 0 <= i < |pages| ==> fresh(pages[i]) && pages[i].Length == per
        invariant forall i, j :: 0 <= i < j < |pages| ==> pages[i] != pages[j]
      {
        var page := new nat[per];
        pages := pages + [page];
      }
      this.per, this.ba, va := per, ba, pages;
      listIdx, descIdx, left := 0, 0, count;
      done, emitted := [], [];
    }

    /** One turn of the emit loop, up to the store: chain to the next page when this one is down
        to its last slot with more than one descriptor to come, then write. */
    method Put(addr: nat) returns (ok: bool)
      requires Valid()
      modifies this, va
      ensures Valid()
      ensures ok ==> emitted == old(emitted) + [addr] && left == old(left) - 1
      ensures old(OnTrack()) && old(left) > 0 ==> ok && OnTrack()
    {
      if descIdx == per - 1 && left > 1 {
        if listIdx + 1 >= |va| {
          return false;
        }
        Chain();
      }
      if descIdx >= per || left == 0 {
        return false;
      }
      Store(addr);
      ok := true;
    }

    method Store(addr: nat)
      requires Valid() && descIdx < per && left > 0
      requires descIdx == per - 1 ==> left == 1
      modifies this`descIdx, this`left, this`emitted, va[listIdx]
      ensures Valid() && emitted == old(emitted) + [addr] && left == old(left) - 1
      ensures left + descIdx == old(left + descIdx)
    {
      var page := va[listIdx];
      ghost var before := page[..descIdx];
      page[descIdx] := addr;
      assert page[..descIdx + 1] == before + [addr];
      descIdx := descIdx + 1;
      left := left - 1;
      emitted := emitted + [addr];
    }

    method Chain()
      requires Valid() && descIdx == per - 1 && left > 1 && listIdx + 1 < |va|
      modifies this, va
      ensures Valid() && emitted == old(emitted) && left == old(left) && descIdx == 0
      ensures old(OnTrack()) ==> OnTrack()
    {
      var page := va[listIdx];
      page[descIdx] := ba[listIdx + 1];
      FlatAppend(done, page[..], per);
      assert page[..per - 1] == old(page[..per - 1]);
      done := done + [page[..]];
      listIdx := listIdx + 1;
      descIdx := 0;
    }

    /** When everything is out, the pages show the layout of what was emitted. */
    lemma Finished()
      requires Valid() && OnTrack() && left == 0
      ensures |ba| == PageCount(|emitted|, per)
      ensures forall k :: 0 <= k < |ba| ==> Pages(emitted, per, ba)[k] <= va[k][..]
    {
      LayoutOf(done, va[listIdx][..descIdx], per, ba);
    }
  }

  /** The entry the walk stands in, what is left of it, and the entries after it. */
  function Ahead(sg: seq<Segment>, i: nat, addr: nat, avail: nat): (r: seq<Segment>)
    requires i < |sg|
  {
    [Segment(addr, avail)] + sg[i + 1..]
  }

  /** What still has to be emitted `size` bytes ahead. */
  ghost function Due(ahead: seq<Segment>, size: nat, d: nat): (r: seq<nat>)
    requires d > 0 && size <= |Bytes(ahead)|
  {
    ChunkStarts(Bytes(ahead)[..size], d)
  }

  /** Taking one chunk of an accepted slice: it lies in the first entry, the rest is accepted and
      starts on a boundary. */
  lemma NextChunk(ahead: seq<Segment>, size: nat, d: nat)
    requires Mapped(ahead) && d > 0 && Accepted(ahead, size, d)
    ensures var l := Min(ToBoundary(ahead[0].addr, d), size);
            && l <= ahead[0].len
            && (l == size ==> Due(ahead, size, d) == [ahead[0].addr])
            && (l < size ==>
                  var rest := Drop(ahead, l);
                  && Accepted(rest, size - l, d) && AtBoundary(rest[0].addr, d)
                  && Due(ahead, size, d) == [ahead[0].addr] + Due(rest, size - l, d))
  {
    var l := Min(ToBoundary(ahead[0].addr, d), size);
    FirstChunkFits(ahead, size, d);
    if l < size {
      AcceptedSlice(ahead, size, d, l, size - l);
      RestStartsAtBoundary(ahead, size, d);
    }
    DueSplits(ahead, size, d);
  }

  /** An accepted slice does not leave its first entry inside the first chunk. */
  lemma FirstChunkFits(ahead: seq<Segment>, size: nat, d: nat)
    requires Mapped(ahead) && d > 0 && Accepted(ahead, size, d)
    ensures Min(ToBoundary(ahead[0].addr, d), size) <= ahead[0].len
  {
    if ahead[0].len < Min(ToBoundary(ahead[0].addr, d), size) {
      MoreEntries(ahead, size);
      JunctionsOfTail(ahead, size, BothAligned(d));
      BoundaryIsFar(ahead[0].addr, d, ahead[0].len);
    }
  }

  /** Cutting off the first chunk, when the next byte is on a boundary, leaves the other chunks as they were. */
  lemma FirstStart(bytes: seq<nat>, d: nat)
    requires d > 0 && bytes != []
    ensures var l := ToBoundary(bytes[0], d);
            if l >= |bytes| then ChunkStarts(bytes, d) == [bytes[0]]
            else AtBoundary(bytes[l], d) ==> ChunkStarts(bytes, d) == [bytes[0]] + ChunkStarts(bytes[l..], d)
  {
    var l := ToBoundary(bytes[0], d);
    if l >= |bytes| {
      assert bytes[Min(l, |bytes|)..] == [];
      assert Cut([], d, d) == [];
    } else if AtBoundary(bytes[l], d) {
      assert Cut(bytes[l..], d, d) == ChunkStarts(bytes[l..], d);
    }
  }

  /** The first chunk is due first, and then what is due for the rest. */
  lemma DueSplits(ahead: seq<Segment>, size: nat, d: nat)
    requires Mapped(ahead) && d > 0 && Accepted(ahead, size, d)
    ensures var l := Min(ToBoundary(ahead[0].addr, d), size);
            && (l == size ==> Due(ahead, size, d) == [ahead[0].addr])
            && (l < size ==> size - l <= |Bytes(Drop(ahead, l))|
                             && Due(ahead, size, d) == [ahead[0].addr] + Due(Drop(ahead, l), size - l, d))
  {
    var l := Min(ToBoundary(ahead[0].addr, d), size);
    var bytes := Bytes(ahead)[..size];
    assert bytes[0] == ahead[0].addr;
    FirstChunkFits(ahead, size, d);
    FirstStart(bytes, d);
    if l < size {
      BytesDrop(ahead, l);
      RestStartsAtBoundary(ahead, size, d);
      assert bytes[l..] == Bytes(ahead)[l..][..size - l];
    }
  }

  lemma RestStartsAtBoundary(ahead: seq<Segment>, size: nat, d: nat)
    requires Mapped(ahead) && d > 0 && Accepted(ahead, size, d)
    requires ToBoundary(ahead[0].addr, d) <= ahead[0].len && ToBoundary(ahead[0].addr, d) < size
    ensures var rest := Drop(ahead, ToBoundary(ahead[0].addr, d));
            rest != [] && AtBoundary(rest[0].addr, d) && Bytes(rest) != [] && Bytes(rest)[0] == rest[0].addr
  {
    BoundaryReached(ahead[0].addr, d);
    if ToBoundary(ahead[0].addr, d) == ahead[0].len {
      MoreEntries(ahead, size);
      JunctionsOfTail(ahead, size, BothAligned(d));
    }
  }

  /** How the walk can end. */
  datatype Outcome = Done | NotLocated | NoDescriptors | NoMemory | NullNext | Misaligned | Overrun

  /** The descriptors this walk emits: all of them, or all but the inline first one. */
  ghost function Target(ahead: seq<Segment>, size: nat, d: nat, skipFirst: bool): (r: seq<nat>)
    requires d > 0 && size <= |Bytes(ahead)|
  {
    var due := Due(ahead, size, d);
    if skipFirst && due != [] then due[1..] else due
  }

  /** The walk stands where an accepted rest of the slice begins. */
  ghost predicate Standing(ahead: seq<Segment>, remaining: nat, len: nat, d: nat, rest: seq<nat>)
    requires d > 0 && Mapped(ahead)
  {
    && Accepted(ahead, remaining, d) && len == Min(ToBoundary(ahead[0].addr, d), remaining)
    && Due(ahead, remaining, d) == rest
  }

  /** Moving past one chunk: within the entry, or on to the next one. */
  lemma StepAhead(sg: seq<Segment>, i: nat, addr: nat, avail: nat, remaining: nat, len: nat, d: nat, rest: seq<nat>)
    requires Mapped(sg) && d > 0 && i < |sg| && avail > 0
    requires Standing(Ahead(sg, i, addr, avail), remaining, len, d, rest)
    ensures 0 < len <= avail && len <= remaining && rest != [] && rest[0] == addr
    ensures len == remaining ==> rest == [addr]
    ensures len < remaining && len < avail ==>
              && AtBoundary(addr + len, d) && Min(d, remaining - len) <= avail - len
              && Standing(Ahead(sg, i, addr + len, avail - len), remaining - len,
                          Min(d, remaining - len), d, rest[1..])
    ensures len < remaining && len == avail ==>
              && i + 1 < |sg| && AtBoundary(sg[i + 1].addr, d) && Min(d, remaining - len) <= sg[i + 1].len
              && Standing(Ahead(sg, i + 1, sg[i + 1].addr, sg[i + 1].len), remaining - len,
                          Min(d, remaining - len), d, rest[1..])
  {
    var ahead := Ahead(sg, i, addr, avail);
    NextChunk(ahead, remaining, d);
    assert ahead[1..] == sg[i + 1..];
    if len < remaining {
      var next := Drop(ahead, len);
      if len < avail {
        assert next == Ahead(sg, i, addr + len, avail - len);
      } else {
        assert next == sg[i + 1..];
        assert next == Ahead(sg, i + 1, sg[i + 1].addr, sg[i + 1].len);
      }
      NextChunk(next, remaining - len, d);
      assert ([addr] + Due(next, remaining - len, d))[1..] == Due(next, remaining - len, d);
    }
  }

  lemma NowDue(sg: seq<Segment>, i: nat, addr: nat, avail: nat, remaining: nat, len: nat, d: nat, rest: seq<nat>)
    requires Mapped(sg) && d > 0 && i < |sg| && avail > 0
    requires Standing(Ahead(sg, i, addr, avail), remaining, len, d, rest)
    ensures rest != [] && rest == [addr] + rest[1..] && (len == remaining ==> rest == [addr])
  {
    StepAhead(sg, i, addr, avail, remaining, len, d, rest);
  }

  /** Past a chunk that does not end the slice: on to the next entry when this one is used up,
      then check the boundary and size the next chunk. */
  method Advance(sg: seq<Segment>, i: nat, addr: nat, avail: nat, remaining: nat, len: nat, d: nat,
                 ghost good: bool, ghost rest: seq<nat>)
    returns (out: Outcome, i': nat, addr': nat, avail': nat, len': nat)
    requires Mapped(sg) && PowerOfTwo(d) && i < |sg| && 0 < len <= avail && len < remaining
    requires good ==> Standing(Ahead(sg, i, addr, avail), remaining, len, d, rest)
    ensures out == Done || out == NullNext || out == Misaligned
    ensures good ==> out == Done && rest != [] && rest[0] == addr
    ensures out == Done ==> i' < |sg| && 0 < len' <= avail' && len' <= remaining - len
    ensures good ==> Standing(Ahead(sg, i', addr', avail'), remaining - len, len', d, rest[1..])
  {
    if good {
      StepAhead(sg, i, addr, avail, remaining, len, d, rest);
    }
    i', addr', avail', len' := i, addr + len, avail - len, 0;
    if avail' == 0 {
      i' := i + 1;
      if i' == |sg| {
        return NullNext, i', addr', avail', len';
      }
      addr', avail' := sg[i'].addr, sg[i'].len;
    }
    var off := Mask(addr', d);
    if off != 0 {
      return Misaligned, i', addr', avail', len';
    }
    len' := Min(d, Min(avail', remaining - len));
    out := Done;
  }

  /** Writes the descriptor of the chunk the walk stands on, which is the first one due. */
  method EmitOne(sg: seq<Segment>, i: nat, addr: nat, avail: nat, remaining: nat, len: nat, d: nat, w: DescWriter,
                 ghost good: bool, ghost due: seq<nat>)
    returns (ok: bool)
    requires Mapped(sg) && d > 0 && i < |sg| && avail > 0 && w.Valid()
    requires good ==> Standing(Ahead(sg, i, addr, avail), remaining, len, d, due) && w.OnTrack() && w.left == |due|
    modifies w, w.va
    ensures w.Valid()
    ensures good ==> ok && due != [] && w.OnTrack() && w.left == |due| - 1 && w.emitted + due[1..] == old(w.emitted) + due
    ensures good && len == remaining ==> |due| == 1
  {
    if good {
      NowDue(sg, i, addr, avail, remaining, len, d, due);
    }
    ok := w.Put(addr);
  }

  /** The emit loop, from a chunk the walk stands on.  `rest` is what an accepted slice is due. */
  method EmitChunks(sg: seq<Segment>, start: nat, startAddr: nat, startAvail: nat, size: nat, startLen: nat,
                    d: nat, w: DescWriter, ghost good: bool, ghost rest: seq<nat>)
    returns (out: Outcome)
    requires Mapped(sg) && PowerOfTwo(d) && start < |sg|
    requires 0 < startLen <= startAvail && startLen <= size && w.Valid()
    requires good ==> Standing(Ahead(sg, start, startAddr, startAvail), size, startLen, d, rest)
    requires good ==> w.OnTrack() && w.left == |rest|
    modifies w, w.va
    ensures w.Valid()
    ensures good ==> out == Done && w.emitted == old(w.emitted) + rest && w.left == 0 && w.OnTrack()
  {
    var i: nat, addr: nat, avail: nat, remaining: nat, len: nat := start, startAddr, startAvail, size, startLen;
    ghost var due, all := rest, w.emitted + rest;
    while true
      invariant w.Valid() && i < |sg| && 0 < len <= avail && len <= remaining
      invariant good ==> Standing(Ahead(sg, i, addr, avail), remaining, len, d, due)
      invariant good ==> w.OnTrack() && w.left == |due| && w.emitted + due == all
      decreases remaining
    {
      var ok := EmitOne(sg, i, addr, avail, remaining, len, d, w, good, due);
      if !ok {
        return Overrun;
      }
      if len == remaining {
        return Done;
      }
      var used := len;
      out, i, addr, avail, len := Advance(sg, i, addr, avail, remaining, len, d, good, due);
      if out != Done {
        return;
      }
      remaining := remaining - used;
      due := if good then due[1..] else due;
    }
  }

  /** The pages hold the layout of `descs`. */
  ghost predicate Written(va: seq<array<nat>>, ba: seq<nat>, descs: seq<nat>, per: nat)
    requires per >= 2
    reads va
  {
    && |va| == |ba| == PageCount(|descs|, per)
    && forall k :: 0 <= k < |ba| ==> Pages(descs, per, ba)[k] <= va[k][..]
  }

  /** The slice is accepted and `descCnt` is what the counting walk promised for it, less the
      inline first descriptor. */
  ghost predicate Agrees(sg: seq<Segment>, offset: nat, size: nat, d: nat, skipFirst: bool, descCnt: nat)
    requires d > 0
  {
    && descCnt > 0 && offset < |Bytes(sg)| && Accepted(Drop(sg, offset), size, d)
    && descCnt == |Target(Drop(sg, offset), size, d, skipFirst)|
  }

  /** `mx_desc_list_init`, with the bus addresses the page pool would hand out.  With an agreed
      count it only ever fails for lack of pages. */
  method DescListInit(sg: seq<Segment>, offset: nat, size: nat, d: nat, per: nat, skipFirst: bool,
                      descCnt: nat, pool: seq<nat>)
    returns (out: Outcome, va: seq<array<nat>>, ba: seq<nat>)
    requires Mapped(sg) && PowerOfTwo(d) && per >= 2
    ensures Agrees(sg, offset, size, d, skipFirst, descCnt) ==>
              out == if |pool| < PageCount(descCnt, per) then NoMemory else Done
    ensures Agrees(sg, offset, size, d, skipFirst, descCnt) && out == Done ==>
              ba <= pool && Written(va, ba, Target(Drop(sg, offset), size, d, skipFirst), per)
  {
    va, ba := [], [];
    var found, i, intra := Locate(sg, offset);
    if !found {
      return NotLocated, va, ba;
    }
    if descCnt == 0 {
      return NoDescriptors, va, ba;
    }
    var listCnt := ListCount(descCnt, per);
    if |pool| < listCnt {
      return NoMemory, va, ba;
    }
    var w := new DescWriter(per, pool[..listCnt], descCnt);
    out := EmitSlice(sg, i, intra, size, d, skipFirst, w,
                     Agrees(sg, offset, size, d, skipFirst, descCnt));
    if out == Done {
      va, ba := w.va, w.ba;
      if w.OnTrack() && w.left == 0 {
        w.Finished();
      }
    }
  }

  /** The walk of a slice whose first chunk is inline. */
  method EmitAfterFirst(sg: seq<Segment>, i: nat, addr: nat, avail: nat, size: nat, len: nat, d: nat, w: DescWriter,
                        ghost good: bool, ghost due: seq<nat>)
    returns (out: Outcome)
    requires Mapped(sg) && PowerOfTwo(d) && i < |sg| && 0 < len <= avail && len < size && w.Valid()
    requires good ==> Standing(Ahead(sg, i, addr, avail), size, len, d, due) && due != []
    requires good ==> w.OnTrack() && w.left == |due| - 1
    modifies w, w.va
    ensures w.Valid()
    ensures good ==> out == Done && w.emitted == old(w.emitted) + due[1..] && w.left == 0 && w.OnTrack()
  {
    var i', addr', avail', len';
    out, i', addr', avail', len' := Advance(sg, i, addr, avail, size, len, d, good, due);
    if out == Done {
      out := EmitChunks(sg, i', addr', avail', size - len, len', d, w, good, if good then due[1..] else []);
    }
  }

  /** The walk from a located entry: step over the inline chunk if there is one, then emit. */
  method EmitSlice(sg: seq<Segment>, i: nat, intra: nat, size: nat, d: nat, skipFirst: bool, w: DescWriter,
                   ghost good: bool)
    returns (out: Outcome)
    requires Mapped(sg) && PowerOfTwo(d) && i < |sg| && intra < sg[i].len && w.Valid()
    requires good ==> Accepted(From(sg, i, intra), size, d) && w.OnTrack() && w.emitted == [] && w.left > 0
    requires good ==> w.left == |Target(From(sg, i, intra), size, d, skipFirst)|
    modifies w, w.va
    ensures w.Valid()
    ensures good ==> out == Done && w.left == 0 && w.OnTrack()
    ensures good ==> w.emitted == Target(From(sg, i, intra), size, d, skipFirst)
  {
    if size == 0 {
      return Done;
    }
    ghost var due := if good then Due(From(sg, i, intra), size, d) else [];
    var addr, avail := sg[i].addr + intra, sg[i].len - intra;
    var len := PrpFirstChunkLen(sg[i], intra, d);
    len := Min(len, size);
    if good {
      assert From(sg, i, intra) == Ahead(sg, i, addr, avail);
      NextChunk(Ahead(sg, i, addr, avail), size, d);
    }
    if !skipFirst {
      out := EmitChunks(sg, i, addr, avail, size, len, d, w, good, due);
    } else if len == size {
      var off := Mask(addr + len, d);
      out := if off != 0 then Misaligned else Done;
    } else {
      out := EmitAfterFirst(sg, i, addr, avail, size, len, d, w, good, due);
    }
  }
}
