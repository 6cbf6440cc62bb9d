/** Building the data-transfer command of each hardware revision, and decoding it again. */
module Commands {
  import opened Arithmetic
  import opened ScatterLists
  import opened PrpLists
  import opened PrpCount
  import opened PrpPages
  import opened PrpEmit
  import opened Options

  /** Revision 1: one address with an explicit length, or a list. */
  datatype CommandV1 = Single(hostAddr: nat, size: nat) | Multi(prp1: nat, size: nat)

  /** Revision 2: the first descriptor inline, then nothing, a second one, or a list. */
  datatype CommandV2 = CommandV2(prp1: nat, prp2: nat, size: nat)

  /** `SINGLE_DMA_SIZE` of revision 1; revision 2 uses the host page size. */
  const V1_DMA_SIZE: nat := 1024

  /** `NUM_OF_DESC_PER_LIST`: 64-bit slots in one page of `d` bytes. */
  function SlotsPerList(d: nat): (r: nat)
    requires d >= 16
    ensures r >= 2
  {
    d / 8
  }

  /** What bus memory holds where the pages of a transfer are. */
  ghost predicate Visible(mem: map<nat, seq<nat>>, ba: seq<nat>, va: seq<array<nat>>)
    reads va
  {
    |ba| == |va| && forall k :: 0 <= k < |ba| ==> ba[k] in mem && mem[ba[k]] == va[k][..]
  }

  function DecodeV1(c: CommandV1, mem: map<nat, seq<nat>>): (r: Option<seq<nat>>) {
    match c
    case Single(a, size) => Some(Run(a, size))
    case Multi(list, size) => DecodeList(mem, list, 0, size, V1_DMA_SIZE, SlotsPerList(V1_DMA_SIZE), true)
  }

  function DecodeV2(c: CommandV2, mem: map<nat, seq<nat>>, d: nat): (r: Option<seq<nat>>)
    requires d >= 16
  {
    var l := Min(ToBoundary(c.prp1, d), c.size);
    var rest := c.size - l;
    var tail :=
      if rest == 0 then Some([])
      else if rest <= d then (if AtBoundary(c.prp2, d) then Some(Run(c.prp2, rest)) else None)
      else DecodeList(mem, c.prp2, 0, rest, d, SlotsPerList(d), false);
    match tail
    case None => None
    case Some(t) => Some(Run(c.prp1, l) + t)
  }

  /** The bytes a transfer stands for. */
  function Slice(sg: seq<Segment>, offset: nat, size: nat): (r: seq<nat>)
    requires offset + size <= |Bytes(sg)|
  {
    Bytes(sg)[offset..offset + size]
  }

  /** The first descriptors of a slice, where they come from. */
  ghost predicate AcceptedAt(sg: seq<Segment>, offset: nat, size: nat, d: nat)
    requires d > 0
  {
    offset < |Bytes(sg)| && Accepted(Drop(sg, offset), size, d)
  }

  lemma SliceFacts(sg: seq<Segment>, offset: nat, size: nat, d: nat)
    requires Mapped(sg) && d > 0 && AcceptedAt(sg, offset, size, d)
    ensures offset + size <= |Bytes(sg)|
    ensures Bytes(Drop(sg, offset))[..size] == Slice(sg, offset, size)
    ensures Due(Drop(sg, offset), size, d) == ChunkStarts(Slice(sg, offset, size), d)
    ensures Smooth(Slice(sg, offset, size), d) && Slice(sg, offset, size) != []
  {
    BytesDrop(sg, offset);
    assert Bytes(sg)[offset..][..size] == Bytes(sg)[offset..offset + size];
    AcceptedIffExpressible(Drop(sg, offset), size, d);
    ExpressibleIffSmooth(Slice(sg, offset, size), d);
  }

  /** A chained list in memory, decoded from its first chunk or from its second. */
  lemma WrittenListDecodes(mem: map<nat, seq<nat>>, va: seq<array<nat>>, ba: seq<nat>,
                           bytes: seq<nat>, d: nat, per: nat, first: bool)
    requires d > 0 && per >= 2 && Visible(mem, ba, va) && Written(va, ba, ChunkStarts(bytes, d), per)
    requires Smooth(bytes, d) && (first || bytes == [] || AtBoundary(bytes[0], d))
    ensures DecodeList(mem, ba[0], 0, |bytes|, d, per, first) == Some(bytes)
  {
    var pages := Pages(ChunkStarts(bytes, d), per, ba);
    assert Shows(mem, ba, pages) by {
      forall k | 0 <= k < |ba| ensures ba[k] in mem && pages[k] <= mem[ba[k]] {
        assert mem[ba[k]] == va[k][..];
      }
    }
    ListMeansBytes(mem, ba, bytes, d, per, first);
  }

  lemma V1SizeIsPowerOfTwo()
    ensures PowerOfTwo(V1_DMA_SIZE)
  {
    assert Pow2(4) == 16;
    assert Pow2(8) == 256;
    assert Pow2(10) == 1024;
  }

  /** When revision 1 can build a command at all, given `pages` free pages. */
  ghost predicate V1Possible(sg: seq<Segment>, offset: nat, size: nat, pages: nat)
    requires Mapped(sg)
  {
    offset < |Bytes(sg)| &&
    var ahead := Drop(sg, offset);
    if size <= FirstChunk(ahead) then ahead[0].addr != 0
    else Accepted(ahead, size, V1_DMA_SIZE)
         && PageCount(|Due(ahead, size, V1_DMA_SIZE)|, SlotsPerList(V1_DMA_SIZE)) <= pages
  }

  ghost function FirstChunk(ahead: seq<Segment>): nat
    requires ahead != []
  {
    Min(ToBoundary(ahead[0].addr, V1_DMA_SIZE), ahead[0].len)
  }

  /** `create_mx_command_sg` of revision 1: it succeeds exactly when it can, and the device decodes
      what it built to the bytes of the slice. */
  method CreateSgV1(sg: seq<Segment>, offset: nat, size: nat, pool: seq<nat>)
    returns (r: Option<CommandV1>, va: seq<array<nat>>, ba: seq<nat>)
    requires Mapped(sg)
    ensures r.Some? <==> V1Possible(sg, offset, size, |pool|)
    ensures r.Some? ==> offset + size <= |Bytes(sg)|
    ensures r.Some? ==> forall mem :: Visible(mem, ba, va) ==> DecodeV1(r.value, mem) == Some(Slice(sg, offset, size))
  {
    r, va, ba := None, [], [];
    V1SizeIsPowerOfTwo();
    var found, i, intra := Locate(sg, offset);
    if !found {
      return;
    }
    ghost var ahead := Drop(sg, offset);
    BytesDrop(sg, offset);
    assert size <= |Bytes(ahead)| ==> Bytes(sg)[offset..][..size] == Bytes(sg)[offset..offset + size];
    var firstLen := PrpFirstChunkLen(sg[i], intra, V1_DMA_SIZE);
    if size <= firstLen {
      var hostAddr := sg[i].addr + intra;
      SliceCases(ahead, size);
      if hostAddr != 0 {
        r := Some(Single(hostAddr, size));
      }
      return;
    }
    var cnt := TotalDescCount(sg, i, intra, size, V1_DMA_SIZE);
    if cnt.None? {
      return;
    }
    SliceFacts(sg, offset, size, V1_DMA_SIZE);
    var out;
    out, va, ba := DescListInit(sg, offset, size, V1_DMA_SIZE, SlotsPerList(V1_DMA_SIZE), false, cnt.value, pool);
    if out != Done {
      return;
    }
    r := Some(Multi(ba[0], size));
    ghost var bytes := Slice(sg, offset, size);
    forall mem | Visible(mem, ba, va) ensures DecodeV1(r.value, mem) == Some(bytes) {
      WrittenListDecodes(mem, va, ba, bytes, V1_DMA_SIZE, SlotsPerList(V1_DMA_SIZE), true);
    }
  }

  /** The descriptors of a slice. */
  function Descs(sg: seq<Segment>, offset: nat, size: nat, d: nat): (r: seq<nat>)
    requires d > 0 && offset + size <= |Bytes(sg)|
  {
    ChunkStarts(Slice(sg, offset, size), d)
  }

  /** When revision 2 can build a command at all, given `pages` free pages. */
  ghost predicate V2Possible(sg: seq<Segment>, offset: nat, size: nat, d: nat, pages: nat)
    requires Mapped(sg) && d >= 16
  {
    && AcceptedAt(sg, offset, size, d) && offset + size <= |Bytes(sg)|
    && var descs := Descs(sg, offset, size, d);
       && descs != [] && descs[0] != 0
       && (|descs| == 2 ==> descs[1] != 0)
       && (|descs| > 2 ==> PageCount(|descs| - 1, SlotsPerList(d)) <= pages)
  }

  /** The inline descriptor, and the rest of the slice. */
  lemma SplitFirst(bytes: seq<nat>, d: nat)
    requires d > 0 && bytes != [] && Smooth(bytes, d)
    ensures var l := Min(ToBoundary(bytes[0], d), |bytes|);
            && bytes == Run(bytes[0], l) + bytes[l..] && Smooth(bytes[l..], d)
            && ChunkStarts(bytes, d) == [bytes[0]] + Cut(bytes[l..], d, d)
            && Cut(bytes[l..], d, d) == ChunkStarts(bytes[l..], d)
            && (l < |bytes| ==> AtBoundary(bytes[l], d))
  {
    var l := Min(ToBoundary(bytes[0], d), |bytes|);
    SmoothFirstChunk(bytes, d);
    assert bytes == bytes[..l] + bytes[l..];
  }

  /** One descriptor: the slice ends with the first chunk. */
  lemma OneEntry(bytes: seq<nat>, d: nat, mem: map<nat, seq<nat>>, prp2: nat)
    requires d >= 16 && Smooth(bytes, d) && |ChunkStarts(bytes, d)| == 1
    ensures DecodeV2(CommandV2(bytes[0], prp2, |bytes|), mem, d) == Some(bytes)
  {
    SplitFirst(bytes, d);
    assert bytes[|bytes|..] == [];
  }

  /** Two descriptors: the second one reaches the end of the slice. */
  lemma TwoEntries(bytes: seq<nat>, d: nat, mem: map<nat, seq<nat>>)
    requires d >= 16 && Smooth(bytes, d) && |ChunkStarts(bytes, d)| == 2
    ensures DecodeV2(CommandV2(bytes[0], ChunkStarts(bytes, d)[1], |bytes|), mem, d) == Some(bytes)
  {
    SplitFirst(bytes, d);
    var l := Min(ToBoundary(bytes[0], d), |bytes|);
    var rest := bytes[l..];
    CutSize(rest, d);
    SmoothFirstChunk(rest, d);
    assert rest[..|rest|] == rest;
    ShortTail(CommandV2(bytes[0], rest[0], |bytes|), mem, d, rest);
  }

  lemma ShortTail(c: CommandV2, mem: map<nat, seq<nat>>, d: nat, rest: seq<nat>)
    requires d >= 16 && 0 < |rest| <= d && AtBoundary(rest[0], d) && rest == Run(rest[0], |rest|)
    requires c.prp2 == rest[0] && c.size == Min(ToBoundary(c.prp1, d), c.size) + |rest|
    ensures DecodeV2(c, mem, d) == Some(Run(c.prp1, Min(ToBoundary(c.prp1, d), c.size)) + rest)
  {
  }

  /** More: the rest of the slice is a chained list. */
  lemma ManyEntries(bytes: seq<nat>, d: nat, mem: map<nat, seq<nat>>, va: seq<array<nat>>, ba: seq<nat>)
    requires d >= 16 && Smooth(bytes, d) && |ChunkStarts(bytes, d)| > 2
    requires Visible(mem, ba, va) && Written(va, ba, ChunkStarts(bytes, d)[1..], SlotsPerList(d))
    ensures DecodeV2(CommandV2(bytes[0], ba[0], |bytes|), mem, d) == Some(bytes)
  {
    SplitFirst(bytes, d);
    var l := Min(ToBoundary(bytes[0], d), |bytes|);
    var rest := bytes[l..];
    CutSize(rest, d);
    assert ChunkStarts(bytes, d)[1..] == ChunkStarts(rest, d);
    ListTail(CommandV2(bytes[0], ba[0], |bytes|), mem, d, va, ba, rest);
  }

  lemma ListTail(c: CommandV2, mem: map<nat, seq<nat>>, d: nat, va: seq<array<nat>>, ba: seq<nat>, rest: seq<nat>)
    requires d >= 16 && Smooth(rest, d) && |rest| > d && AtBoundary(rest[0], d)
    requires Visible(mem, ba, va) && Written(va, ba, ChunkStarts(rest, d), SlotsPerList(d))
    requires c.prp2 == ba[0] && c.size == Min(ToBoundary(c.prp1, d), c.size) + |rest|
    ensures DecodeV2(c, mem, d) == Some(Run(c.prp1, Min(ToBoundary(c.prp1, d), c.size)) + rest)
  {
    WrittenListDecodes(mem, va, ba, rest, d, SlotsPerList(d), false);
  }

  /** The second descriptor: the byte after the first chunk, in this entry or at the start of the next. */
  method SecondEntry(sg: seq<Segment>, i: nat, intra: nat, size: nat, d: nat) returns (r: Option<nat>)
    requires Mapped(sg) && PowerOfTwo(d) && i < |sg| && intra < sg[i].len
    requires Accepted(From(sg, i, intra), size, d) && |Due(From(sg, i, intra), size, d)| == 2
    ensures r == Some(Due(From(sg, i, intra), size, d)[1])
  {
    SecondByte(sg, i, intra, size, d);
    var firstLen := PrpFirstChunkLen(sg[i], intra, d);
    if intra + firstLen < sg[i].len {
      r := Some(sg[i].addr + intra + firstLen);
    } else if i + 1 < |sg| {
      r := Some(sg[i + 1].addr);
    } else {
      r := None;
    }
  }

  lemma SecondByte(sg: seq<Segment>, i: nat, intra: nat, size: nat, d: nat)
    requires Mapped(sg) && d > 0 && i < |sg| && intra < sg[i].len
    requires Accepted(From(sg, i, intra), size, d) && |Due(From(sg, i, intra), size, d)| == 2
    ensures var l := ToBoundary(sg[i].addr + intra, d);
            && l <= sg[i].len - intra
            && (l == sg[i].len - intra ==> i + 1 < |sg|)
            && Due(From(sg, i, intra), size, d)[1] ==
               if l < sg[i].len - intra then sg[i].addr + intra + l else sg[i + 1].addr
  {
    var ahead := From(sg, i, intra);
    NextChunk(ahead, size, d);
    var l := Min(ToBoundary(ahead[0].addr, d), size);
    var rest := Drop(ahead, l);
    RestStartsAtBoundary(ahead, size, d);
    assert Due(rest, size - l, d)[0] == Bytes(rest)[0];
    assert ahead[1..] == sg[i + 1..];
  }

  /** `create_mx_command_sg` of revision 2: it succeeds exactly when it can, and the device decodes
      what it built to the bytes of the slice. */
  method CreateSgV2(sg: seq<Segment>, offset: nat, size: nat, d: nat, pool: seq<nat>)
    returns (r: Option<CommandV2>, va: seq<array<nat>>, ba: seq<nat>)
    requires Mapped(sg) && PowerOfTwo(d) && d >= 16
    ensures r.Some? <==> V2Possible(sg, offset, size, d, |pool|)
    ensures r.Some? ==> offset + size <= |Bytes(sg)|
    ensures r.Some? ==> forall mem :: Visible(mem, ba, va) ==> DecodeV2(r.value, mem, d) == Some(Slice(sg, offset, size))
  {
    r, va, ba := None, [], [];
    var found, i, intra := Locate(sg, offset);
    if !found {
      return;
    }
    var prp1 := sg[i].addr + intra;
    var cnt := TotalDescCount(sg, i, intra, size, d);
    if cnt.Some? {
      SliceFacts(sg, offset, size, d);
      assert Descs(sg, offset, size, d)[0] == Slice(sg, offset, size)[0] == prp1;
    }
    if prp1 == 0 {
      return;
    }
    if cnt.None? || cnt.value == 0 {
      return;
    }
    r, va, ba := FillEntries(sg, offset, i, intra, size, d, cnt.value, pool);
  }

  /** The second descriptor, or the list, of a counted slice. */
  method FillEntries(sg: seq<Segment>, offset: nat, i: nat, intra: nat, size: nat, d: nat, cnt: nat, pool: seq<nat>)
    returns (r: Option<CommandV2>, va: seq<array<nat>>, ba: seq<nat>)
    requires Mapped(sg) && PowerOfTwo(d) && d >= 16 && i < |sg| && intra < sg[i].len
    requires AcceptedAt(sg, offset, size, d) && offset + size <= |Bytes(sg)|
    requires From(sg, i, intra) == Drop(sg, offset) && cnt == |Descs(sg, offset, size, d)| > 0
    requires Descs(sg, offset, size, d)[0] == sg[i].addr + intra != 0
    ensures r.Some? <==> V2Possible(sg, offset, size, d, |pool|)
    ensures r.Some? ==> forall mem :: Visible(mem, ba, va) ==> DecodeV2(r.value, mem, d) == Some(Slice(sg, offset, size))
  {
    r, va, ba := None, [], [];
    var prp1 := sg[i].addr + intra;
    SliceFacts(sg, offset, size, d);
    ghost var bytes := Slice(sg, offset, size);
    if cnt == 1 {
      r := Some(CommandV2(prp1, 0, size));
      forall mem ensures DecodeV2(r.value, mem, d) == Some(bytes) {
        OneEntry(bytes, d, mem, 0);
      }
    } else if cnt == 2 {
      var prp2 := SecondEntry(sg, i, intra, size, d);
      if prp2.Some? && prp2.value != 0 {
        r := Some(CommandV2(prp1, prp2.value, size));
        forall mem ensures DecodeV2(r.value, mem, d) == Some(bytes) {
          TwoEntries(bytes, d, mem);
        }
      }
    } else {
      var out;
      out, va, ba := DescListInit(sg, offset, size, d, SlotsPerList(d), true, cnt - 1, pool);
      if out == Done {
        r := Some(CommandV2(prp1, ba[0], size));
        forall mem | Visible(mem, ba, va) ensures DecodeV2(r.value, mem, d) == Some(bytes) {
          ManyEntries(bytes, d, mem, va, ba);
        }
      }
    }
  }
}
