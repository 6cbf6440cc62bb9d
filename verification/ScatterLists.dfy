/** DMA-mapped scatter lists and the bus addresses they stand for. */
module ScatterLists {

  /** One mapped entry: `sg_dma_address` and `sg_dma_len`. */
  datatype Segment = Segment(addr: nat, len: nat)

  /** What `dma_map_sg` hands back: every entry covers at least one byte. */
  predicate Mapped(sg: seq<Segment>) {
    forall i :: 0 <= i < |sg| ==> sg[i].len > 0
  }

  /** `n` consecutive bus addresses from `a` on. */
  function Run(a: nat, n: nat): (r: seq<nat>)
    ensures |r| == n
    ensures forall i :: 0 <= i < n ==> r[i] == a + i
  {
    seq(n, i => a + i)
  }

  /** The meaning of a list: the bus address of each byte, in order. */
  function Bytes(sg: seq<Segment>): (r: seq<nat>) {
    if sg == [] then [] else Run(sg[0].addr, sg[0].len) + Bytes(sg[1..])
  }

  /** The list left over at byte `intra` of entry `i`. */
  function From(sg: seq<Segment>, i: nat, intra: nat): (r: seq<Segment>)
    requires i < |sg| && intra < sg[i].len
    ensures Mapped(sg) ==> Mapped(r)
  {
    [Segment(sg[i].addr + intra, sg[i].len - intra)] + sg[i + 1..]
  }

  lemma RunSplit(a: nat, n: nat, k: nat)
    requires k <= n
    ensures Run(a, n) == Run(a, k) + Run(a + k, n - k)
  {
  }

  lemma RunDrop(a: nat, n: nat, k: nat, b: seq<nat>)
    requires k <= n
    ensures Run(a, n)[k..] == Run(a + k, n - k)
    ensures (Run(a, n) + b)[k..] == Run(a + k, n - k) + b
  {
  }

  lemma Reassociate<T>(a: seq<T>, b: seq<T>, c: seq<T>)
    ensures a + (b + c) == (a + b) + c
  {
  }

  lemma {:induction false} BytesConcat(s: seq<Segment>, t: seq<Segment>)
    ensures Bytes(s + t) == Bytes(s) + Bytes(t)
  {
    if s == [] {
      assert s + t == t;
    } else {
      BytesConcat(s[1..], t);
      Reassociate(Run(s[0].addr, s[0].len), Bytes(s[1..]), Bytes(t));
      assert (s + t)[1..] == s[1..] + t && (s + t)[0] == s[0];
    }
  }

  /** What is left of a list after its first `n` bytes. */
  function Drop(sg: seq<Segment>, n: nat): (r: seq<Segment>)
    requires n <= |Bytes(sg)|
    ensures Mapped(sg) ==> Mapped(r)
    ensures n < |Bytes(sg)| ==> r != []
    decreases |sg|
  {
    if n == 0 then sg
    else if n < sg[0].len then [Segment(sg[0].addr + n, sg[0].len - n)] + sg[1..]
    else Drop(sg[1..], n - sg[0].len)
  }

  lemma DropPast<T>(a: seq<T>, b: seq<T>, n: nat)
    requires |a| <= n <= |a| + |b|
    ensures (a + b)[n..] == b[n - |a|..]
  {
  }

  lemma {:induction false} BytesDrop(sg: seq<Segment>, n: nat)
    requires n <= |Bytes(sg)|
    ensures Bytes(Drop(sg, n)) == Bytes(sg)[n..]
    decreases |sg|
  {
    if n == 0 {
    } else if n < sg[0].len {
      RunDrop(sg[0].addr, sg[0].len, n, Bytes(sg[1..]));
      assert Drop(sg, n)[1..] == sg[1..];
    } else {
      BytesDrop(sg[1..], n - sg[0].len);
      DropPast(Run(sg[0].addr, sg[0].len), Bytes(sg[1..]), n);
    }
  }

  lemma {:induction false} DropEntries(sg: seq<Segment>, i: nat, n: nat)
    requires i <= |sg| && n <= |Bytes(sg[i..])|
    ensures |Bytes(sg[..i])| + n <= |Bytes(sg)|
    ensures Mapped(sg) ==> Drop(sg, |Bytes(sg[..i])| + n) == Drop(sg[i..], n)
    decreases i
  {
    if i == 0 {
      assert sg[0..] == sg && sg[..0] == [];
    } else {
      assert sg[..i][1..] == sg[1..][..i - 1];
      assert sg[1..][i - 1..] == sg[i..];
      DropEntries(sg[1..], i - 1, n);
    }
  }

  /** The cursor at (i, intra), as what is left of the list there. */
  lemma FromIsDrop(sg: seq<Segment>, i: nat, intra: nat)
    requires Mapped(sg) && i < |sg| && intra < sg[i].len
    ensures |Bytes(sg[..i])| + intra < |Bytes(sg)|
    ensures From(sg, i, intra) == Drop(sg, |Bytes(sg[..i])| + intra)
  {
    assert sg[i..][0] == sg[i];
    DropEntries(sg, i, intra + 1);
    DropEntries(sg, i, intra);
    assert sg[i..][1..] == sg[i + 1..] && sg[i..][0] == sg[i];
  }

  /** `mx_sg_locate`: the entry holding `offset`, and the offset inside it. */
  method Locate(sg: seq<Segment>, offset: nat) returns (found: bool, i: nat, intra: nat)
    requires Mapped(sg)
    ensures found <==> offset < |Bytes(sg)|
    ensures found ==> i < |sg| && intra < sg[i].len && From(sg, i, intra) == Drop(sg, offset)
  {
    var acc := 0;
    i := 0;
    while i < |sg|
      invariant i <= |sg|
      invariant acc == |Bytes(sg[..i])| <= offset
    {
      var dlen := sg[i].len;
      if acc + dlen > offset {
        FromIsDrop(sg, i, offset - acc);
        return true, i, offset - acc;
      }
      assert sg[..i + 1] == sg[..i] + [sg[i]];
      BytesConcat(sg[..i], [sg[i]]);
      acc := acc + dlen;
      i := i + 1;
    }
    assert sg[..i] == sg;
    return false, 0, 0;
  }
}
