/** Descriptor lists in fixed-size pages, chained through their last slot. */
module PrpPages {
  import opened Arithmetic
  import opened ScatterLists
  import opened PrpLists
  import opened Options

  /** Pages needed for `m` descriptors, `per` slots a page, one slot spent on every chain. */
  function PageCount(m: nat, per: nat): (r: nat)
    requires per >= 2
    ensures r >= 1
    decreases m
  {
    if m <= per then 1 else 1 + PageCount(m - (per - 1), per)
  }

  lemma {:induction false} PageCountClosed(m: nat, per: nat)
    requires per >= 2 && m >= 1
    ensures PageCount(m, per) == Max(1, Pieces(m - 1, per - 1))
    decreases m
  {
    if m > per {
      PageCountClosed(m - (per - 1), per);
    }
  }

  /** `mx_get_list_count`: max(1, ceil((m - 1) / (per - 1))). */
  method ListCount(total: nat, per: nat) returns (n: nat)
    requires per >= 2
    ensures n == PageCount(total, per)
    ensures total >= 1 ==> n == Max(1, DivRoundUp(total - 1, per - 1))
  {
    n := 1;
    var m: nat := total;
    while m > per
      invariant n - 1 + PageCount(m, per) == PageCount(total, per)
    {
      m := m - (per - 1);
      n := n + 1;
    }
    if total >= 1 {
      PageCountClosed(total, per);
      PiecesIsDivRoundUp(total - 1, per - 1);
    }
  }

  /** The intended contents of the pages at bus addresses `ba`. */
  function Pages(descs: seq<nat>, per: nat, ba: seq<nat>): (r: seq<seq<nat>>)
    requires per >= 2 && |ba| == PageCount(|descs|, per)
    ensures |r| == |ba|
    decreases |descs|
  {
    if |descs| <= per then [descs]
    else [descs[..per - 1] + [ba[1]]] + Pages(descs[per - 1..], per, ba[1..])
  }

  /** Bus memory shows `pages` at `ba`; slots past the written ones hold anything. */
  predicate Shows(mem: map<nat, seq<nat>>, ba: seq<nat>, pages: seq<seq<nat>>) {
    |ba| == |pages| && forall k :: 0 <= k < |ba| ==> ba[k] in mem && pages[k] <= mem[ba[k]]
  }

  /** The device reading a chained list from `slot` of `page`: with more than one chunk to go
      the last slot is a pointer to the next page. */
  function DecodeList(mem: map<nat, seq<nat>>, page: nat, slot: nat, size: nat, d: nat, per: nat, first: bool)
    : (r: Option<seq<nat>>)
    requires d > 0 && per >= 2
    decreases size, if slot == per - 1 then 1 else 0
  {
    if size == 0 then Some([])
    else if page !in mem || slot >= |mem[page]| || slot >= per then None
    else
      var w := mem[page][slot];
      if slot == per - 1 && size > d then DecodeList(mem, w, 0, size, d, per, first)
      else if !first && !AtBoundary(w, d) then None
      else
        var l := Min(if first then ToBoundary(w, d) else d, size);
        match DecodeList(mem, page, slot + 1, size - l, d, per, false)
        case None => None
        case Some(rest) => Some(Run(w, l) + rest)
  }

  /** Past the first chunk, more than one descriptor is left exactly when more than one chunk is. */
  lemma CutSize(bytes: seq<nat>, d: nat)
    requires d > 0
    ensures |Cut(bytes, d, d)| > 1 <==> |bytes| > d
  {
    if |bytes| > d {
      assert Cut(bytes[d..], d, d) != [];
    }
  }

  /** One data slot. */
  lemma DecodeSlot(mem: map<nat, seq<nat>>, page: nat, j: nat, bytes: seq<nat>, d: nat, per: nat, first: bool)
    requires d > 0 && per >= 2 && bytes != [] && Smooth(bytes, d)
    requires page in mem && j < per && j < |mem[page]| && mem[page][j] == bytes[0]
    requires first || AtBoundary(bytes[0], d)
    requires j < per - 1 || |bytes| <= d
    requires var l := Min(ToBoundary(bytes[0], d), |bytes|);
             DecodeList(mem, page, j + 1, |bytes| - l, d, per, false) == Some(bytes[l..])
    ensures DecodeList(mem, page, j, |bytes|, d, per, first) == Some(bytes)
  {
    var l := Min(ToBoundary(bytes[0], d), |bytes|);
    SmoothFirstChunk(bytes, d);
    assert bytes == bytes[..l] + bytes[l..];
  }

  /** The device reads back, from slot `j` of a page on, the bytes whose chunks were laid out. */
  lemma {:induction false} DecodePages(mem: map<nat, seq<nat>>, ba: seq<nat>, descs: seq<nat>, j: nat,
                                       bytes: seq<nat>, l: nat, d: nat, per: nat, first: bool)
    requires d > 0 && l > 0 && per >= 2 && |ba| == PageCount(|descs|, per)
    requires Shows(mem, ba, Pages(descs, per, ba))
    requires j <= |descs| && j <= per && (|descs| > per ==> j < per)
    requires descs[j..] == Cut(bytes, l, d) && Smooth(bytes, d)
    requires bytes != [] ==> l == ToBoundary(bytes[0], d)
    requires l == d || (first && j == 0)
    ensures DecodeList(mem, ba[0], j, |bytes|, d, per, first) == Some(bytes)
    decreases |bytes|, if j == per - 1 then 1 else 0
  {
    if bytes != [] {
      if |descs| > per && j == per - 1 {
        CutSize(bytes, d);
        ShowsTail(mem, ba, descs, per);
        assert descs[per - 1..][0..] == descs[j..];
        DecodePages(mem, ba[1..], descs[per - 1..], 0, bytes, l, d, per, first);
      } else {
        DataSlot(mem, ba, descs, j, per);
        var k := Min(l, |bytes|);
        SmoothFirstChunk(bytes, d);
        assert descs[j] == descs[j..][0] == bytes[0];
        assert descs[j + 1..] == descs[j..][1..] == Cut(bytes[k..], d, d);
        DecodePages(mem, ba, descs, j + 1, bytes[k..], d, d, per, false);
        if j == per - 1 { CutSize(bytes, d); }
        DecodeSlot(mem, ba[0], j, bytes, d, per, first);
      }
    }
  }

  lemma DataSlot(mem: map<nat, seq<nat>>, ba: seq<nat>, descs: seq<nat>, j: nat, per: nat)
    requires per >= 2 && |ba| == PageCount(|descs|, per) && Shows(mem, ba, Pages(descs, per, ba))
    requires j < |descs| && (if |descs| > per then j < per - 1 else j < per)
    ensures ba[0] in mem && j < |mem[ba[0]]| && mem[ba[0]][j] == descs[j]
  {
    var pages := Pages(descs, per, ba);
    assert pages[0] <= mem[ba[0]] && pages[0][j] == descs[j];
  }

  lemma ShowsTail(mem: map<nat, seq<nat>>, ba: seq<nat>, descs: seq<nat>, per: nat)
    requires per >= 2 && |descs| > per && |ba| == PageCount(|descs|, per)
    requires Shows(mem, ba, Pages(descs, per, ba))
    ensures Shows(mem, ba[1..], Pages(descs[per - 1..], per, ba[1..]))
    ensures per - 1 < |mem[ba[0]]| && mem[ba[0]][per - 1] == ba[1]
  {
    var pages := Pages(descs, per, ba);
    assert pages[0][per - 1] == ba[1];
    forall k | 0 <= k < |ba| - 1 ensures ba[1..][k] in mem && pages[1..][k] <= mem[ba[1..][k]] {
      assert pages[k + 1] <= mem[ba[k + 1]];
    }
    assert pages[1..] == Pages(descs[per - 1..], per, ba[1..]);
  }

  /** A list laid out from chunk starts means its bytes again. */
  lemma ListMeansBytes(mem: map<nat, seq<nat>>, ba: seq<nat>, bytes: seq<nat>, d: nat, per: nat, first: bool)
    requires d > 0 && per >= 2 && |ba| == PageCount(|ChunkStarts(bytes, d)|, per)
    requires Shows(mem, ba, Pages(ChunkStarts(bytes, d), per, ba))
    requires Smooth(bytes, d) && (first || bytes == [] || AtBoundary(bytes[0], d))
    ensures DecodeList(mem, ba[0], 0, |bytes|, d, per, first) == Some(bytes)
  {
    var descs := ChunkStarts(bytes, d);
    assert descs[0..] == descs;
    DecodePages(mem, ba, descs, 0, bytes, if bytes == [] then d else ToBoundary(bytes[0], d), d, per, first);
  }
}
