/** What a PRP device makes of a list of bare addresses, and which byte sequences such a list
    can express.

    The device gets no lengths.  It takes the first chunk as the distance to the next chunk
    boundary and every later one as a whole chunk, which must start on a boundary; the last
    one is cut short by the transfer size (section 4.3 of the NVM Express Base
    Specification 1.4 has the same shape). */
module PrpLists {
  import opened Arithmetic
  import opened ScatterLists
  import opened Options

  /** The device: the bytes it would touch, or `None` when it cannot go on. */
  function Decode(descs: seq<nat>, size: nat, d: nat, first: bool): (r: Option<seq<nat>>)
    requires d > 0
    decreases |descs|
  {
    if size == 0 then Some([])
    else if descs == [] || (!first && !AtBoundary(descs[0], d)) then None
    else
      var l := Min(if first then ToBoundary(descs[0], d) else d, size);
      match Decode(descs[1..], size - l, d, false)
      case None => None
      case Some(rest) => Some(Run(descs[0], l) + rest)
  }

  ghost predicate Expressible(bytes: seq<nat>, d: nat)
    requires d > 0
  {
    exists descs :: Decode(descs, |bytes|, d, true) == Some(bytes)
  }

  /** The address at the start of each piece, cutting after `l` bytes and then every `d`. */
  function Cut(bytes: seq<nat>, l: nat, d: nat): (r: seq<nat>)
    requires l > 0 && d > 0
    decreases |bytes|
  {
    if bytes == [] then []
    else [bytes[0]] + Cut(bytes[Min(l, |bytes|)..], d, d)
  }

  /** The address of the first byte of each chunk. */
  function ChunkStarts(bytes: seq<nat>, d: nat): (r: seq<nat>)
    requires d > 0
  {
    if bytes == [] then [] else Cut(bytes, ToBoundary(bytes[0], d), d)
  }

  /** Each byte follows the one before it, or both sides of the jump are boundaries. */
  predicate Step(p: nat, q: nat, d: nat)
    requires d > 0
  {
    q == p + 1 || (AtBoundary(q, d) && AtBoundary(p + 1, d))
  }

  predicate Smooth(bytes: seq<nat>, d: nat)
    requires d > 0
  {
    forall i :: 0 < i < |bytes| ==> Step(bytes[i - 1], bytes[i], d)
  }

  lemma {:induction false} SmoothPrefix(bytes: seq<nat>, d: nat, k: nat)
    requires d > 0 && bytes != [] && Smooth(bytes, d)
    requires k <= Min(ToBoundary(bytes[0], d), |bytes|)
    ensures bytes[..k] == Run(bytes[0], k)
  {
    if k > 1 {
      SmoothPrefix(bytes, d, k - 1);
      assert bytes[..k - 1][k - 2] == bytes[0] + (k - 2);
      assert Step(bytes[k - 2], bytes[k - 1], d);
      RemWithin(bytes[0], d, k - 1);
    }
  }

  /** A smooth sequence starts with one whole chunk, and goes on at a boundary. */
  lemma SmoothFirstChunk(bytes: seq<nat>, d: nat)
    requires d > 0 && bytes != [] && Smooth(bytes, d)
    ensures var l := Min(ToBoundary(bytes[0], d), |bytes|);
            && bytes[..l] == Run(bytes[0], l)
            && Smooth(bytes[l..], d)
            && (l < |bytes| ==> AtBoundary(bytes[l], d))
  {
    var l := Min(ToBoundary(bytes[0], d), |bytes|);
    SmoothPrefix(bytes, d, l);
    if l < |bytes| {
      assert bytes[l - 1] == bytes[..l][l - 1] == bytes[0] + (l - 1);
      assert Step(bytes[l - 1], bytes[l], d);
      BoundaryReached(bytes[0], d);
    }
  }

  /** How the device takes one descriptor off a list. */
  lemma DecodeCons(a: nat, descs: seq<nat>, size: nat, d: nat, first: bool, rest: seq<nat>)
    requires d > 0 && size > 0 && (first || AtBoundary(a, d))
    requires Decode(descs, size - Min(ToBoundary(a, d), size), d, false) == Some(rest)
    ensures Decode([a] + descs, size, d, first) == Some(Run(a, Min(ToBoundary(a, d), size)) + rest)
  {
    assert ([a] + descs)[1..] == descs;
  }

  lemma {:induction false} DecodeCut(bytes: seq<nat>, l: nat, d: nat, first: bool)
    requires d > 0 && l > 0 && Smooth(bytes, d)
    requires bytes != [] ==> l == ToBoundary(bytes[0], d) && (first || AtBoundary(bytes[0], d))
    ensures Decode(Cut(bytes, l, d), |bytes|, d, first) == Some(bytes)
    decreases |bytes|
  {
    if bytes != [] {
      var k := Min(l, |bytes|);
      SmoothFirstChunk(bytes, d);
      DecodeCut(bytes[k..], d, d, false);
      DecodeCons(bytes[0], Cut(bytes[k..], d, d), |bytes|, d, first, bytes[k..]);
      assert bytes == bytes[..k] + bytes[k..];
    }
  }

  /** The chunk starts of a smooth sequence decode to that sequence. */
  lemma DecodeChunkStarts(bytes: seq<nat>, d: nat)
    requires d > 0 && Smooth(bytes, d)
    ensures Decode(ChunkStarts(bytes, d), |bytes|, d, true) == Some(bytes)
  {
    if bytes != [] {
      DecodeCut(bytes, ToBoundary(bytes[0], d), d, true);
    }
  }

  lemma SmoothConcat(a: seq<nat>, b: seq<nat>, d: nat)
    requires d > 0 && a != [] && Smooth(a, d)
    ensures Smooth(a + b, d) <==> b == [] || (Smooth(b, d) && Step(a[|a| - 1], b[0], d))
  {
    var c := a + b;
    if Smooth(c, d) && b != [] {
      assert Step(c[|a| - 1], c[|a|], d);
      forall i | 0 < i < |b| ensures Step(b[i - 1], b[i], d) {
        assert Step(c[|a| + i - 1], c[|a| + i], d);
      }
    }
    if b == [] || (Smooth(b, d) && Step(a[|a| - 1], b[0], d)) {
      forall i | 0 < i < |c| ensures Step(c[i - 1], c[i], d) {
        if i > |a| {
          assert Step(b[i - |a| - 1], b[i - |a|], d);
        }
      }
    }
  }

  /** Whatever the device decodes is smooth. */
  lemma {:induction false} DecodedIsSmooth(descs: seq<nat>, size: nat, d: nat, first: bool)
    requires d > 0 && Decode(descs, size, d, first).Some?
    ensures var b := Decode(descs, size, d, first).value;
            |b| == size && Smooth(b, d)
            && (b != [] ==> descs != [] && b[0] == descs[0] && (first || AtBoundary(b[0], d)))
    decreases |descs|
  {
    if size > 0 {
      var a := descs[0];
      var l := Min(if first then ToBoundary(a, d) else d, size);
      var rest := Decode(descs[1..], size - l, d, false).value;
      DecodedIsSmooth(descs[1..], size - l, d, false);
      BoundaryReached(a, d);
      SmoothConcat(Run(a, l), rest, d);
    }
  }

  /** A PRP list expresses exactly the smooth sequences. */
  lemma ExpressibleIffSmooth(bytes: seq<nat>, d: nat)
    requires d > 0
    ensures Expressible(bytes, d) <==> Smooth(bytes, d)
  {
    if Smooth(bytes, d) {
      DecodeChunkStarts(bytes, d);
    }
    if Expressible(bytes, d) {
      var descs :| Decode(descs, |bytes|, d, true) == Some(bytes);
      DecodedIsSmooth(descs, |bytes|, d, true);
    }
  }
}
