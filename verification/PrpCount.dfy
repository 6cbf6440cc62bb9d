/** The counting walk: which slices it accepts, and how many descriptors it promises. */
module PrpCount {
  import opened Arithmetic
  import opened ScatterLists
  import opened PrpLists
  import opened Options

  /** Bytes in front of entry `i`. */
  function Offset(sg: seq<Segment>, i: nat): (r: nat)
    requires i <= |sg|
  {
    if i == 0 then 0 else Offset(sg, i - 1) + sg[i - 1].len
  }

  function End(s: Segment): (r: nat) {
    s.addr + s.len
  }

  /** Entries `i - 1` and `i` meet inside the first `size` bytes. */
  predicate Junction(sg: seq<Segment>, size: nat, i: int) {
    0 < i < |sg| && Offset(sg, i) < size
  }

  ghost predicate AllJunctions(sg: seq<Segment>, size: nat, p: (Segment, Segment) -> bool) {
    forall i :: Junction(sg, size, i) ==> p(sg[i - 1], sg[i])
  }

  function BothAligned(d: nat): (p: (Segment, Segment) -> bool)
    requires d > 0
  {
    (s: Segment, t: Segment) => AtBoundary(End(s), d) && AtBoundary(t.addr, d)
  }

  function Continues(d: nat): (p: (Segment, Segment) -> bool)
    requires d > 0
  {
    (s: Segment, t: Segment) => End(s) == t.addr || (AtBoundary(End(s), d) && AtBoundary(t.addr, d))
  }

  /** Every entry but the last one used ends on a boundary, and every one but the first starts on one. */
  ghost predicate ChunkAligned(sg: seq<Segment>, size: nat, d: nat)
    requires d > 0
  {
    AllJunctions(sg, size, BothAligned(d))
  }

  /** At every junction the addresses make a step a PRP list can follow. */
  ghost predicate Jointed(sg: seq<Segment>, size: nat, d: nat)
    requires d > 0
  {
    AllJunctions(sg, size, Continues(d))
  }

  /** Two entries that abut on the bus, but not on a chunk boundary. */
  ghost predicate AbutsOffBoundary(sg: seq<Segment>, size: nat, d: nat)
    requires d > 0
  {
    exists i :: Junction(sg, size, i) && End(sg[i - 1]) == sg[i].addr && !AtBoundary(sg[i].addr, d)
  }

  /** What the counting walk lets through. */
  ghost predicate Accepted(sg: seq<Segment>, size: nat, d: nat)
    requires d > 0
  {
    0 < size <= |Bytes(sg)| && ChunkAligned(sg, size, d)
  }

  lemma {:induction false} OffsetTail(sg: seq<Segment>, i: nat)
    requires 0 < i <= |sg|
    ensures Offset(sg, i) == sg[0].len + Offset(sg[1..], i - 1)
  {
    if i > 1 {
      OffsetTail(sg, i - 1);
    }
  }

  lemma JunctionsOfTail(sg: seq<Segment>, size: nat, p: (Segment, Segment) -> bool)
    requires |sg| > 1 && sg[0].len < size
    ensures AllJunctions(sg, size, p) <==> p(sg[0], sg[1]) && AllJunctions(sg[1..], size - sg[0].len, p)
  {
    var t, rest := sg[1..], size - sg[0].len;
    assert Offset(sg, 1) == Offset(sg, 0) + sg[0].len == sg[0].len;
    assert Junction(sg, size, 1);
    if AllJunctions(sg, size, p) {
      assert p(sg[1 - 1], sg[1]);
      forall i | Junction(t, rest, i) ensures p(t[i - 1], t[i]) {
        OffsetTail(sg, i + 1);
        assert Junction(sg, size, i + 1);
      }
    }
    if p(sg[0], sg[1]) && AllJunctions(t, rest, p) {
      forall i | Junction(sg, size, i) ensures p(sg[i - 1], sg[i]) {
        if i > 1 {
          OffsetTail(sg, i);
          assert Junction(t, rest, i - 1);
        }
      }
    }
  }

  lemma MoreEntries(sg: seq<Segment>, size: nat)
    requires sg != [] && sg[0].len < size <= |Bytes(sg)|
    ensures |sg| > 1
  {
    var t := sg[1..];
    assert t == [] ==> |Bytes(t)| == 0;
  }

  /** A slice that ends inside the first entry has no junction. */
  lemma NoJunction(sg: seq<Segment>, size: nat, p: (Segment, Segment) -> bool)
    requires sg != [] && size <= sg[0].len
    ensures AllJunctions(sg, size, p)
  {
    forall i | 0 < i < |sg| ensures !Junction(sg, size, i) {
      OffsetTail(sg, i);
    }
  }

  /** The first `size` bytes: all in the first entry, or that entry and bytes of the tail. */
  lemma SliceCases(sg: seq<Segment>, size: nat)
    requires sg != [] && size <= |Bytes(sg)|
    ensures size <= sg[0].len ==> Bytes(sg)[..size] == Run(sg[0].addr, size)
    ensures size > sg[0].len ==>
              && size - sg[0].len <= |Bytes(sg[1..])|
              && Bytes(sg)[..size] == Run(sg[0].addr, sg[0].len) + Bytes(sg[1..])[..size - sg[0].len]
  {
    if size <= sg[0].len {
      RunSplit(sg[0].addr, sg[0].len, size);
    }
  }

  /** Smoothness of the bytes is decided at the junctions alone. */
  lemma {:induction false} SmoothIffJointed(sg: seq<Segment>, size: nat, d: nat)
    requires Mapped(sg) && d > 0 && size <= |Bytes(sg)|
    ensures Smooth(Bytes(sg)[..size], d) <==> Jointed(sg, size, d)
  {
    if sg != [] {
      SliceCases(sg, size);
      if size <= sg[0].len {
        NoJunction(sg, size, Continues(d));
      } else {
        var t, rest := sg[1..], size - sg[0].len;
        SmoothIffJointed(t, rest, d);
        JunctionsOfTail(sg, size, Continues(d));
        SmoothConcat(Run(sg[0].addr, sg[0].len), Bytes(t)[..rest], d);
        assert Bytes(t)[..rest][0] == Bytes(t)[0] == t[0].addr;
      }
    }
  }

  /** Exactly when acceptance and expressibility agree: everything accepted can be expressed, and
      the only expressible slices turned away have entries that abut off a chunk boundary. */
  lemma AcceptedIffExpressible(sg: seq<Segment>, size: nat, d: nat)
    requires Mapped(sg) && d > 0 && 0 < size <= |Bytes(sg)|
    ensures Accepted(sg, size, d) <==>
            Expressible(Bytes(sg)[..size], d) && !AbutsOffBoundary(sg, size, d)
  {
    SmoothIffJointed(sg, size, d);
    ExpressibleIffSmooth(Bytes(sg)[..size], d);
    if ChunkAligned(sg, size, d) {
      forall i | Junction(sg, size, i) ensures Continues(d)(sg[i - 1], sg[i]) && AtBoundary(sg[i].addr, d) {
        assert BothAligned(d)(sg[i - 1], sg[i]);
      }
    } else if Jointed(sg, size, d) {
      var i :| Junction(sg, size, i) && !BothAligned(d)(sg[i - 1], sg[i]);
      assert Continues(d)(sg[i - 1], sg[i]);
    }
  }

  /** Two abutting half-chunk entries: one descriptor would do, but the walk says no. */
  lemma AbuttingSliceRejected()
    ensures var sg := [Segment(4096, 512), Segment(4608, 512)];
            Mapped(sg) && Expressible(Bytes(sg)[..1024], 1024) && !Accepted(sg, 1024, 1024)
  {
    var sg := [Segment(4096, 512), Segment(4608, 512)];
    assert sg[1..][1..] == [];
    assert Bytes(sg[1..]) == Run(4608, 512);
    assert Bytes(sg) == Run(4096, 512) + Run(4608, 512);
    assert Offset(sg, 1) == Offset(sg, 0) + 512 == 512;
    assert Junction(sg, 1024, 1) && End(sg[0]) == sg[1].addr && !AtBoundary(sg[1].addr, 1024);
    assert Smooth(Bytes(sg)[..1024], 1024);
    ExpressibleIffSmooth(Bytes(sg)[..1024], 1024);
  }

  /** Acceptance passes to every non-empty slice of an accepted one. */
  lemma {:induction false} AcceptedSlice(sg: seq<Segment>, size: nat, d: nat, n: nat, part: nat)
    requires Mapped(sg) && d > 0 && Accepted(sg, size, d) && 0 < part && n + part <= size
    ensures Accepted(Drop(sg, n), part, d)
    decreases |sg|
  {
    BytesDrop(sg, n);
    if sg[0].len <= n {
      JunctionsOfTail(sg, size, BothAligned(d));
      AcceptedSlice(sg[1..], size - sg[0].len, d, n - sg[0].len, part);
    } else {
      var t := Drop(sg, n);
      assert t[1..] == sg[1..];
      if part <= t[0].len {
        NoJunction(t, part, BothAligned(d));
      } else {
        JunctionsOfTail(sg, size, BothAligned(d));
        JunctionsOfTail(t, part, BothAligned(d));
        JunctionsShrink(sg[1..], size - sg[0].len, part - t[0].len, BothAligned(d));
      }
    }
  }

  lemma JunctionsShrink(sg: seq<Segment>, size: nat, part: nat, p: (Segment, Segment) -> bool)
    requires AllJunctions(sg, size, p) && part <= size
    ensures AllJunctions(sg, part, p)
  {
    forall i | Junction(sg, part, i) ensures p(sg[i - 1], sg[i]) {
      assert Junction(sg, size, i);
    }
  }

  /** Chunks of one run: the head up to a boundary, then whole chunks. */
  function RunCount(a: nat, n: nat, d: nat): (r: nat)
    requires d > 0
  {
    var first := Min(ToBoundary(a, d), n);
    1 + if n > first then Pieces(n - first, d) else 0
  }

  lemma CountCut(a: nat, n: nat, b: seq<nat>, l: nat, d: nat)
    requires d > 0 && 0 < l && n > 0 && (b == [] || l <= n)
    ensures |Cut(Run(a, n) + b, l, d)| == 1 + |Cut(Run(a + Min(l, n), n - Min(l, n)) + b, d, d)|
  {
    RunDrop(a, n, Min(l, n), b);
  }

  lemma {:induction false} CountWholeChunks(a: nat, n: nat, b: seq<nat>, d: nat)
    requires d > 0 && (b == [] || Rem(n, d) == 0)
    ensures |Cut(Run(a, n) + b, d, d)| == Pieces(n, d) + |Cut(b, d, d)|
    decreases n
  {
    if n == 0 {
      assert Run(a, 0) + b == b;
    } else {
      CountCut(a, n, b, d, d);
      if n > d {
        CountWholeChunks(a + d, n - d, b, d);
      } else {
        assert Run(a + n, 0) + b == b;
      }
    }
  }

  lemma CountRunCut(a: nat, n: nat, b: seq<nat>, l: nat, d: nat)
    requires d > 0 && l > 0 && n > 0 && (b == [] || (l <= n && Rem(n - l, d) == 0))
    ensures |Cut(Run(a, n) + b, l, d)| == 1 + Pieces(n - Min(l, n), d) + |Cut(b, d, d)|
  {
    CountCut(a, n, b, l, d);
    CountWholeChunks(a + Min(l, n), n - Min(l, n), b, d);
  }

  /** A run that ends on a boundary, or ends the slice, is counted by itself. */
  lemma CountRun(a: nat, n: nat, b: seq<nat>, d: nat)
    requires d > 0 && n > 0 && (b == [] || (AtBoundary(a + n, d) && AtBoundary(b[0], d)))
    ensures |ChunkStarts(Run(a, n) + b, d)| == RunCount(a, n, d) + |ChunkStarts(b, d)|
  {
    var l := ToBoundary(a, d);
    if b != [] {
      BoundaryIsFar(a, d, n);
      BoundaryReached(a, d);
      RemShift(a + l, n - l, d);
    }
    CountRunCut(a, n, b, l, d);
    assert (Run(a, n) + b)[0] == a;
  }

  /** The count an accepted slice is due. */
  ghost function Promised(sg: seq<Segment>, size: nat, d: nat): (r: Option<nat>)
    requires d > 0
  {
    if Accepted(sg, size, d) then Some(|ChunkStarts(Bytes(sg)[..size], d)|) else None
  }

  function Plus(n: nat, r: Option<nat>): Option<nat> {
    match r
    case None => None
    case Some(m) => Some(n + m)
  }

  lemma CountPastEntry(sg: seq<Segment>, size: nat, d: nat)
    requires d > 0 && |sg| > 1 && 0 < sg[0].len < size <= |Bytes(sg)| && sg[1].len > 0
    requires BothAligned(d)(sg[0], sg[1])
    ensures |ChunkStarts(Bytes(sg)[..size], d)| ==
            RunCount(sg[0].addr, sg[0].len, d) + |ChunkStarts(Bytes(sg[1..])[..size - sg[0].len], d)|
  {
    SliceCases(sg, size);
    assert Bytes(sg[1..])[0] == sg[1].addr;
    CountRun(sg[0].addr, sg[0].len, Bytes(sg[1..])[..size - sg[0].len], d);
  }

  /** The count at an entry the slice runs past, in terms of the next entry. */
  lemma NextEntry(sg: seq<Segment>, size: nat, d: nat)
    requires Mapped(sg) && d > 0 && sg != [] && sg[0].len < size
    ensures Promised(sg, size, d) ==
            if |sg| > 1 && BothAligned(d)(sg[0], sg[1])
            then Plus(RunCount(sg[0].addr, sg[0].len, d), Promised(sg[1..], size - sg[0].len, d))
            else None
  {
    if |sg| == 1 {
      assert sg[1..] == [];
    } else {
      JunctionsOfTail(sg, size, BothAligned(d));
      if Accepted(sg, size, d) {
        CountPastEntry(sg, size, d);
      }
    }
  }

  /** The count of a slice that ends in the first entry. */
  lemma LastEntry(sg: seq<Segment>, size: nat, d: nat)
    requires Mapped(sg) && d > 0 && sg != [] && 0 < size <= sg[0].len
    ensures Promised(sg, size, d) == Some(RunCount(sg[0].addr, size, d))
  {
    SliceCases(sg, size);
    CountRun(sg[0].addr, size, [], d);
    assert Run(sg[0].addr, size) + [] == Run(sg[0].addr, size);
    NoJunction(sg, size, BothAligned(d));
  }

  /** `prp_chunk_len_at`. */
  method PrpChunkLenAt(addr: nat, d: nat) returns (len: nat)
    requires PowerOfTwo(d)
    ensures len == ToBoundary(addr, d)
  {
    var rem := Mask(addr, d);
    len := if rem != 0 then d - rem else d;
  }

  /** `mx_prp_first_chunk_len`. */
  method PrpFirstChunkLen(s: Segment, intra: nat, d: nat) returns (len: nat)
    requires PowerOfTwo(d) && intra < s.len
    ensures len == Min(ToBoundary(s.addr + intra, d), s.len - intra)
  {
    len := PrpChunkLenAt(s.addr + intra, d);
    len := Min(len, s.len - intra);
  }

  /** The descriptors one turn of the walk adds for `consumed` bytes of an entry. */
  method EntryDescCount(s: Segment, off: nat, consumed: nat, d: nat) returns (n: nat)
    requires PowerOfTwo(d) && off < s.len && consumed <= s.len - off
    ensures n == RunCount(s.addr + off, consumed, d)
  {
    var firstLen := PrpFirstChunkLen(s, off, d);
    firstLen := Min(firstLen, consumed);
    n := 1;
    if consumed > firstLen {
      var whole := RoundUp(consumed - firstLen, d);
      n := n + whole;
    }
  }

  /** The walk over the entries ahead, as a function. */
  function Walk(ahead: seq<Segment>, remaining: nat, d: nat): (r: Option<nat>)
    requires d > 0
    decreases |ahead|
  {
    if ahead == [] then
      None
    else if remaining <= ahead[0].len then
      Some(RunCount(ahead[0].addr, remaining, d))
    else if AtBoundary(End(ahead[0]), d) && |ahead| > 1 && AtBoundary(ahead[1].addr, d) then
      Plus(RunCount(ahead[0].addr, ahead[0].len, d), Walk(ahead[1..], remaining - ahead[0].len, d))
    else
      None
  }

  lemma {:induction false} WalkKeepsPromise(ahead: seq<Segment>, remaining: nat, d: nat)
    requires Mapped(ahead) && d > 0 && remaining > 0
    ensures Walk(ahead, remaining, d) == Promised(ahead, remaining, d)
    decreases |ahead|
  {
    if ahead != [] {
      if remaining <= ahead[0].len {
        LastEntry(ahead, remaining, d);
      } else {
        NextEntry(ahead, remaining, d);
        WalkKeepsPromise(ahead[1..], remaining - ahead[0].len, d);
      }
    }
  }

  /** The walk's view of entry `i`, byte `off`. */
  lemma FromParts(sg: seq<Segment>, i: nat, off: nat)
    requires i < |sg| && off < sg[i].len
    ensures From(sg, i, off)[0] == Segment(sg[i].addr + off, sg[i].len - off)
    ensures i + 1 < |sg| ==> 0 < sg[i + 1].len ==> From(sg, i, off)[1..] == From(sg, i + 1, 0)
    ensures i + 1 < |sg| <==> |From(sg, i, off)| > 1
    ensures i + 1 < |sg| ==> From(sg, i, off)[1] == sg[i + 1]
  {
  }

  /** One turn of the walk. */
  lemma WalkAt(sg: seq<Segment>, i: nat, off: nat, remaining: nat, d: nat)
    requires Mapped(sg) && d > 0 && i < |sg| && off < sg[i].len
    ensures Walk(From(sg, i, off), remaining, d) ==
            if remaining <= sg[i].len - off then Some(RunCount(sg[i].addr + off, remaining, d))
            else if Rem(sg[i].addr + sg[i].len, d) == 0 && i + 1 < |sg| && Rem(sg[i + 1].addr, d) == 0
            then Plus(RunCount(sg[i].addr + off, sg[i].len - off, d),
                      Walk(From(sg, i + 1, 0), remaining - (sg[i].len - off), d))
            else None
  {
    FromParts(sg, i, off);
  }

  /** What one turn adds, and whether the walk may go on to the next entry: only over two boundaries. */
  method Turn(sg: seq<Segment>, i: nat, off: nat, remaining: nat, d: nat)
    returns (n: nat, consumed: nat, onward: bool)
    requires Mapped(sg) && PowerOfTwo(d) && i < |sg| && off < sg[i].len
    ensures consumed == Min(sg[i].len - off, remaining) && (onward ==> i + 1 < |sg|)
    ensures Walk(From(sg, i, off), remaining, d) ==
            if consumed == remaining then Some(n)
            else if onward then Plus(n, Walk(From(sg, i + 1, 0), remaining - consumed, d))
            else None
  {
    WalkAt(sg, i, off, remaining, d);
    consumed := Min(sg[i].len - off, remaining);
    n := EntryDescCount(sg[i], off, consumed, d);
    var end := Mask(sg[i].addr + off + consumed, d);
    onward := false;
    if end == 0 && i + 1 < |sg| {
      var begin := Mask(sg[i + 1].addr, d);
      onward := begin == 0;
    }
  }

  lemma PlusTwice(a: nat, b: nat, r: Option<nat>)
    ensures Plus(a, Plus(b, r)) == Plus(a + b, r)
  {
  }

  method CountWalk(sg: seq<Segment>, start: nat, intra: nat, size: nat, d: nat)
    returns (r: Option<nat>)
    requires Mapped(sg) && PowerOfTwo(d) && start < |sg| && intra < sg[start].len && size > 0
    ensures r == Walk(From(sg, start, intra), size, d)
  {
    var i: nat, off: nat, remaining: nat, total: nat := start, intra, size, 0;
    ghost var result := Walk(From(sg, start, intra), size, d);
    while true
      invariant i < |sg| && off < sg[i].len && remaining > 0
      invariant result == Plus(total, Walk(From(sg, i, off), remaining, d))
      decreases |sg| - i
    {
      var n, consumed, onward := Turn(sg, i, off, remaining, d);
      total := total + n;
      remaining := remaining - consumed;
      if remaining == 0 {
        return Some(total);
      }
      if !onward {
        return None;
      }
      i, off := i + 1, 0;
      PlusTwice(total - n, n, Walk(From(sg, i, off), remaining, d));
    }
  }

  /** `mx_get_total_desc_count` at entry `start`, byte `intra`: it succeeds exactly on the
      accepted slices, and then counts their chunks. */
  method TotalDescCount(sg: seq<Segment>, start: nat, intra: nat, size: nat, d: nat)
    returns (r: Option<nat>)
    requires Mapped(sg) && PowerOfTwo(d) && start < |sg| && intra < sg[start].len
    ensures r == Promised(From(sg, start, intra), size, d)
  {
    if size == 0 {
      return None;
    }
    WalkKeepsPromise(From(sg, start, intra), size, d);
    r := CountWalk(sg, start, intra, size, d);
  }
}
