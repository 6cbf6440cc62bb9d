/** Bus address zero: both command builders refuse it where it would stand inline, so a split can fail whose whole
    would not. Exactly when. */
module ZeroAddresses {

  import opened Arithmetic
  import opened ScatterLists
  import opened PrpLists
  import opened PrpCount
  import opened PrpPages
  import opened PrpEmit
  import opened Commands
  import opened Options

  // ---------------------------------------------------------------------------------------------
  // A part has no more chunks than the whole
  // ---------------------------------------------------------------------------------------------

  /** How many bytes are at a chunk boundary. */
  function Marks(bytes: seq<nat>, d: nat): (n: nat)
    requires d > 0
  {
    if bytes == [] then 0 else (if AtBoundary(bytes[0], d) then 1 else 0) + Marks(bytes[1..], d)
  }

  lemma {:induction false} MarksConcat(a: seq<nat>, b: seq<nat>, d: nat)
    requires d > 0
    ensures Marks(a + b, d) == Marks(a, d) + Marks(b, d)
  {
    if a == [] {
      assert a + b == b;
    } else {
      MarksConcat(a[1..], b, d);
      assert (a + b)[1..] == a[1..] + b;
    }
  }

  /** Inside a chunk there is no boundary. */
  lemma {:induction false} NoMarksWithin(a: nat, i: nat, n: nat, d: nat)
    requires d > 0 && 0 < i && i + n <= ToBoundary(a, d)
    ensures Marks(Run(a + i, n), d) == 0
    decreases n
  {
    if n > 0 {
      RemWithin(a, d, i);
      assert Run(a + i, n)[1..] == Run(a + (i + 1), n - 1);
      NoMarksWithin(a, i + 1, n - 1, d);
    }
  }

  /** The first chunk has no boundary but perhaps its start. */
  lemma MarksAfterFirst(bytes: seq<nat>, l: nat, d: nat)
    requires d > 0 && bytes != [] && 0 < l <= |bytes| && l <= ToBoundary(bytes[0], d) && bytes == Run(bytes[0], l) + bytes[l..]
    ensures Marks(bytes[1..], d) == Marks(bytes[l..], d)
  {
    var inside := Run(bytes[0] + 1, l - 1);
    assert bytes[1..] == inside + bytes[l..];
    NoMarksWithin(bytes[0], 1, l - 1, d);
    MarksConcat(inside, bytes[l..], d);
  }

  /** Every chunk after the first starts at a boundary, and every boundary starts one. */
  lemma {:induction false} ChunksAreMarks(bytes: seq<nat>, d: nat)
    requires d > 0 && bytes != [] && Smooth(bytes, d)
    ensures |ChunkStarts(bytes, d)| == 1 + Marks(bytes[1..], d)
    decreases |bytes|
  {
    var l := Min(ToBoundary(bytes[0], d), |bytes|);
    SplitFirst(bytes, d);
    MarksAfterFirst(bytes, l, d);
    if l < |bytes| {
      ChunksAreMarks(bytes[l..], d);
    } else {
      assert bytes[l..] == [];
    }
  }

  lemma PartHasFewerChunks(bytes: seq<nat>, offset: nat, size: nat, d: nat)
    requires d > 0 && Smooth(bytes, d) && 0 < size && offset + size <= |bytes|
    ensures |ChunkStarts(bytes[offset..offset + size], d)| <= |ChunkStarts(bytes, d)|
  {
    var part := bytes[offset..offset + size];
    var before, after := bytes[1..offset + 1], bytes[offset + size..];
    assert bytes[1..] == before + (part[1..] + after);
    MarksConcat(before, part[1..] + after, d);
    MarksConcat(part[1..], after, d);
    SmoothPart(bytes, offset, size, d);
    ChunksAreMarks(bytes, d);
    ChunksAreMarks(part, d);
  }

  lemma SmoothPart(bytes: seq<nat>, offset: nat, size: nat, d: nat)
    requires d > 0 && Smooth(bytes, d) && offset + size <= |bytes|
    ensures Smooth(bytes[offset..offset + size], d)
  {
    var part := bytes[offset..offset + size];
    forall i | 0 < i < |part| ensures Step(part[i - 1], part[i], d) {
      assert Step(bytes[offset + i - 1], bytes[offset + i], d);
    }
  }

  lemma {:induction false} PageCountGrows(m: nat, n: nat, per: nat)
    requires per >= 2 && m <= n
    ensures PageCount(m, per) <= PageCount(n, per)
    decreases n
  {
    if m > per { PageCountGrows(m - (per - 1), n - (per - 1), per); }
  }

  // ---------------------------------------------------------------------------------------------
  // Parts of a possible whole
  // ---------------------------------------------------------------------------------------------

  /** A part of an accepted slice is accepted, and takes no more chunks. */
  lemma PartIsAccepted(sg: seq<Segment>, total: nat, offset: nat, size: nat, d: nat)
    requires Mapped(sg) && d > 0 && AcceptedAt(sg, 0, total, d) && 0 < size && offset + size <= total
    ensures AcceptedAt(sg, offset, size, d) && total <= |Bytes(sg)|
    ensures |Descs(sg, offset, size, d)| <= |Descs(sg, 0, total, d)| && Descs(sg, offset, size, d) != []
    ensures Due(Drop(sg, offset), size, d) == Descs(sg, offset, size, d)
  {
    assert Drop(sg, 0) == sg;
    AcceptedSlice(sg, total, d, offset, size);
    SliceFacts(sg, 0, total, d);
    SliceFacts(sg, offset, size, d);
    var whole := Slice(sg, 0, total);
    assert whole[offset..offset + size] == Slice(sg, offset, size);
    PartHasFewerChunks(whole, offset, size, d);
    ChunksAreMarks(Slice(sg, offset, size), d);
  }

  /** Revision 2: given the whole, a part can be built exactly when the addresses that would stand inline are not zero. */
  lemma PartPossibleV2(sg: seq<Segment>, total: nat, offset: nat, size: nat, d: nat, pages: nat)
    requires Mapped(sg) && d >= 16 && V2Possible(sg, 0, total, d, pages) && 0 < size && offset + size <= total
    ensures offset + size <= |Bytes(sg)|
    ensures var descs := Descs(sg, offset, size, d);
            && descs != []
            && (V2Possible(sg, offset, size, d, pages) <==> descs[0] != 0 && (|descs| == 2 ==> descs[1] != 0))
  {
    PartIsAccepted(sg, total, offset, size, d);
    var some, all := |Descs(sg, offset, size, d)|, |Descs(sg, 0, total, d)|;
    if some > 2 { PageCountGrows(some - 1, all - 1, SlotsPerList(d)); }
  }

  /** A slice that fits the first chunk has no junction to be turned away for. */
  lemma SingleIsAccepted(ahead: seq<Segment>, size: nat)
    requires Mapped(ahead) && ahead != [] && 0 < size <= FirstChunk(ahead)
    ensures Accepted(ahead, size, V1_DMA_SIZE)
  {
    NoJunction(ahead, size, BothAligned(V1_DMA_SIZE));
    assert Bytes(ahead) == Run(ahead[0].addr, ahead[0].len) + Bytes(ahead[1..]);
  }

  lemma V1WholeIsAccepted(sg: seq<Segment>, total: nat, pages: nat)
    requires Mapped(sg) && V1Possible(sg, 0, total, pages) && total > 0
    ensures AcceptedAt(sg, 0, total, V1_DMA_SIZE)
  {
    var ahead := Drop(sg, 0);
    if total <= FirstChunk(ahead) { SingleIsAccepted(ahead, total); }
  }

  /** A part of a slice that fits the first chunk fits its own. */
  lemma PartOfSingle(sg: seq<Segment>, total: nat, offset: nat, size: nat)
    requires Mapped(sg) && sg != [] && total <= FirstChunk(sg) && 0 < size && offset + size <= total
    ensures offset < |Bytes(sg)| && size <= FirstChunk(Drop(sg, offset))
  {
    assert Bytes(sg) == Run(sg[0].addr, sg[0].len) + Bytes(sg[1..]);
    RemWithin(sg[0].addr, V1_DMA_SIZE, offset);
  }

  /** Revision 1: given the whole, a part can be built exactly unless it fits its first chunk and starts at address zero. */
  lemma PartPossibleV1(sg: seq<Segment>, total: nat, offset: nat, size: nat, pages: nat)
    requires Mapped(sg) && V1Possible(sg, 0, total, pages) && 0 < size && offset + size <= total
    ensures offset < |Bytes(sg)|
    ensures var ahead := Drop(sg, offset);
            V1Possible(sg, offset, size, pages) <==> (size <= FirstChunk(ahead) ==> ahead[0].addr != 0)
  {
    var d, per := V1_DMA_SIZE, SlotsPerList(V1_DMA_SIZE);
    V1WholeIsAccepted(sg, total, pages);
    PartIsAccepted(sg, total, offset, size, d);
    assert Drop(sg, 0) == sg;
    if size > FirstChunk(Drop(sg, offset)) {
      if total <= FirstChunk(sg) { PartOfSingle(sg, total, offset, size); }
      PartIsAccepted(sg, total, 0, total, d);
      PageCountGrows(|Descs(sg, offset, size, d)|, |Descs(sg, 0, total, d)|, per);
    }
  }

  // ---------------------------------------------------------------------------------------------
  // And it does happen
  // ---------------------------------------------------------------------------------------------

  /** What the counting walk makes of two entries that meet at boundaries. */
  lemma CountTwo(s: Segment, t: Segment, d: nat)
    requires d > 0 && s.len > 0 && t.len > 0 && BothAligned(d)(s, t)
    ensures Promised([s, t], s.len + t.len, d) == Some(RunCount(s.addr, s.len, d) + RunCount(t.addr, t.len, d))
  {
    assert [s, t][1..] == [t];
    NextEntry([s, t], s.len + t.len, d);
    LastEntry([t], t.len, d);
  }

  lemma CountThree(s: Segment, t: Segment, u: Segment, d: nat)
    requires d > 0 && s.len > 0 && t.len > 0 && u.len > 0 && BothAligned(d)(s, t) && BothAligned(d)(t, u)
    ensures Promised([s, t, u], s.len + t.len + u.len, d)
         == Some(RunCount(s.addr, s.len, d) + RunCount(t.addr, t.len, d) + RunCount(u.addr, u.len, d))
  {
    assert [s, t, u][1..] == [t, u];
    NextEntry([s, t, u], s.len + t.len + u.len, d);
    CountTwo(t, u, d);
  }

  lemma AfterFirst(s: Segment, rest: seq<Segment>)
    requires s.len > 0 && rest != [] && rest[0].len > 0
    ensures s.len < |Bytes([s] + rest)| && Drop([s] + rest, s.len) == rest && Drop([s] + rest, 0) == [s] + rest
  {
    assert ([s] + rest)[1..] == rest;
  }

  /** The first multiples of a chunk size are boundaries, and up to a chunk from one is one chunk. */
  lemma Multiples(d: nat, m: nat)
    requires 0 < m <= d
    ensures AtBoundary(0, d) && AtBoundary(d, d) && AtBoundary(2 * d, d) && AtBoundary(3 * d, d)
    ensures RunCount(0, m, d) == 1 && RunCount(d, m, d) == 1 && RunCount(2 * d, m, d) == 1
  {
    assert Rem(d, d) == Rem(0, d);
    assert Rem(2 * d, d) == Rem(d, d);
    assert Rem(3 * d, d) == Rem(2 * d, d);
  }

  /** The first descriptor of an accepted slice is its first byte. */
  lemma FirstDescriptor(sg: seq<Segment>, offset: nat, size: nat, d: nat)
    requires Mapped(sg) && d > 0 && AcceptedAt(sg, offset, size, d)
    ensures offset + size <= |Bytes(sg)| && Descs(sg, offset, size, d) != []
    ensures Descs(sg, offset, size, d)[0] == Drop(sg, offset)[0].addr
    ensures Promised(Drop(sg, offset), size, d) == Some(|Descs(sg, offset, size, d)|)
  {
    SliceFacts(sg, offset, size, d);
    assert Bytes(Drop(sg, offset))[0] == Drop(sg, offset)[0].addr;
  }

  lemma WholePossibleV1(sg: seq<Segment>, total: nat)
    requires Mapped(sg) && sg != [] && Promised(sg, total, V1_DMA_SIZE) == Some(2) && FirstChunk(sg) < total
    ensures V1Possible(sg, 0, total, 1)
  {
    assert Drop(sg, 0) == sg;
  }

  lemma ZeroRefusedV1(sg: seq<Segment>, offset: nat, size: nat)
    requires Mapped(sg) && offset < |Bytes(sg)|
    requires Drop(sg, offset)[0].addr == 0 && size <= FirstChunk(Drop(sg, offset))
    ensures !V1Possible(sg, offset, size, 1)
  {
  }

  /** A chunk, and at most a chunk at address zero. */
  lemma ChunkThenZero(s: Segment, t: Segment, d: nat)
    requires s.len == d && 0 < t.len <= d && AtBoundary(s.addr, d) && t.addr == 0
    ensures var sg := [s] + [t];
            && Mapped(sg) && Promised(sg, d + t.len, d) == Some(2) && ToBoundary(s.addr, d) == d
            && d < |Bytes(sg)| && Drop(sg, d) == [t] && t.len <= ToBoundary(t.addr, d)
  {
    Multiples(d, t.len);
    RemShift(s.addr, d, d);
    CountTwo(s, t, d);
    AfterFirst(s, [t]);
    assert [s, t] == [s] + [t];
  }

  /** Revision 1 builds the whole of any chunk followed by up to a chunk at address zero, as a list, but not its second
      part, which would be a single transfer at address zero. */
  lemma SplitRefusedV1(s: Segment, t: Segment)
    requires s.len == V1_DMA_SIZE && 0 < t.len <= V1_DMA_SIZE && AtBoundary(s.addr, V1_DMA_SIZE) && t.addr == 0
    ensures V1Possible([s] + [t], 0, s.len + t.len, 1) && !V1Possible([s] + [t], s.len, t.len, 1)
  {
    ChunkThenZero(s, t, V1_DMA_SIZE);
    WholePossibleV1([s] + [t], s.len + t.len);
    ZeroRefusedV1([s] + [t], s.len, t.len);
  }

  lemma WholePossibleV2(sg: seq<Segment>, total: nat, d: nat)
    requires Mapped(sg) && sg != [] && d >= 16 && Promised(sg, total, d) == Some(3) && sg[0].addr != 0
    ensures V2Possible(sg, 0, total, d, 1)
  {
    assert Drop(sg, 0) == sg;
    FirstDescriptor(sg, 0, total, d);
  }

  lemma ZeroRefusedV2(sg: seq<Segment>, offset: nat, size: nat, d: nat)
    requires Mapped(sg) && d >= 16 && offset < |Bytes(sg)| && Drop(sg, offset)[0].addr == 0
    ensures !V2Possible(sg, offset, size, d, 1)
  {
    if AcceptedAt(sg, offset, size, d) { FirstDescriptor(sg, offset, size, d); }
  }

  /** Revision 2 builds the whole of three chunks, the middle one at address zero, which stands in the list; but not the
      middle chunk alone, where it would stand inline. */
  lemma SplitRefusedV2(s: Segment, t: Segment, u: Segment)
    requires s.len >= 16 && s == Segment(s.len, s.len) && t == Segment(0, s.len) && u == Segment(2 * s.len, s.len)
    ensures V2Possible([s] + [t, u], 0, 3 * s.len, s.len, 1) && !V2Possible([s] + [t, u], s.len, s.len, s.len, 1)
  {
    Multiples(s.len, s.len);
    CountThree(s, t, u, s.len);
    AfterFirst(s, [t, u]);
    assert [s, t, u] == [s] + [t, u];
    WholePossibleV2([s] + [t, u], 3 * s.len, s.len);
    ZeroRefusedV2([s] + [t, u], s.len, s.len, s.len);
  }
}
