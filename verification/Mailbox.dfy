/** Mailbox rings with a phase bit: eight-bit positions of seven index bits and one phase bit stand for
    counters that never wrap. */
module Mailbox {

  import opened Arithmetic

  /** `mbox_index_t` */
  datatype Index = Index(index: nat, phase: nat)

  const WORD32: int := 0x1_0000_0000
  const MAX_DEPTH: nat := 128

  predicate Fits(i: Index, depth: nat) {
    i.index < depth && i.phase < 2
  }

  /** Depths the seven index bits can address. */
  ghost predicate Depth(d: nat) {
    PowerOfTwo(d) && d <= MAX_DEPTH
  }

  function Xor(a: nat, b: nat): (r: nat) {
    if a == b then 0 else 1
  }

  /** A 32-bit unsigned word. */
  function Word(x: int): (r: nat) {
    x % WORD32
  }

  // mbox.c and the two counts of ioctl.c

  predicate IsEmpty(head: Index, tail: Index) {
    head == tail
  }

  predicate IsFull(head: Index, tail: Index) {
    head.index == tail.index && head.phase != tail.phase
  }

  function FreeSpace(head: Index, tail: Index, depth: nat): (r: nat) {
    Word(head.index - tail.index + depth * (1 - Xor(head.phase, tail.phase)))
  }

  function PendingCount(head: Index, tail: Index, depth: nat): (r: nat) {
    Word(tail.index - head.index + depth * Xor(head.phase, tail.phase))
  }

  function NextIndex(last: Index, count: nat, depth: nat): (next: Index)
    requires depth > 0
  {
    var index := And(last.index + count, depth - 1);
    Index(index, if count > 0 && index <= last.index then Xor(last.phase, 1) else last.phase)
  }

  function PushableCount(head: Index, tail: Index, depth: nat): (r: nat) {
    Word(if head.phase == tail.phase then depth - tail.index else head.index - tail.index)
  }

  function PopableCount(head: Index, tail: Index, depth: nat): (r: nat) {
    Word(if head.phase == tail.phase then tail.index - head.index else depth - head.index)
  }

  // ---------------------------------------------------------------------------------------------
  // Counters
  // ---------------------------------------------------------------------------------------------

  /** How often a counter has gone round a ring. */
  function Laps(n: nat, d: nat): (r: nat)
    requires d > 0
    decreases n
  {
    if n < d then 0 else 1 + Laps(n - d, d)
  }

  lemma {:induction false} LapsIsQuotient(n: nat, d: nat)
    requires d > 0
    ensures Laps(n, d) == n / d
    decreases n
  {
    if n >= d {
      LapsIsQuotient(n - d, d);
      var q, r := (n - d) / d, (n - d) % d;
      assert d * (q + 1) == d * q + d;
      DivUnique(n, d, q + 1, r);
    } else {
      DivUnique(n, d, 0, n);
    }
  }

  /** The position that stands for a counter. */
  function Position(n: nat, d: nat): (i: Index)
    requires d > 0
    ensures Fits(i, d)
  {
    Index(Rem(n, d), Laps(n, d) % 2)
  }

  /** Going at most once round, a counter stays in its lap or enters the next. */
  lemma {:induction false} Advance(n: nat, k: nat, d: nat)
    requires d > 0 && k <= d
    ensures if Rem(n, d) + k < d then Rem(n + k, d) == Rem(n, d) + k && Laps(n + k, d) == Laps(n, d)
            else Rem(n + k, d) == Rem(n, d) + k - d && Laps(n + k, d) == Laps(n, d) + 1
    decreases n
  {
    if n >= d {
      Advance(n - d, k, d);
    } else if n + k >= d {
      assert Rem(n + k, d) == Rem(n + k - d, d) && Laps(n + k, d) == 1 + Laps(n + k - d, d);
    }
  }

  lemma WordHolds(x: int)
    requires 0 <= x < WORD32
    ensures Word(x) == x
  {
  }

  /** The positions say exactly what the counters say, and in a word that never wraps. */
  lemma SpacesAreExact(h: nat, t: nat, d: nat)
    requires 0 < d <= MAX_DEPTH && h <= t <= h + d
    ensures FreeSpace(Position(h, d), Position(t, d), d) == d - (t - h)
    ensures PendingCount(Position(h, d), Position(t, d), d) == t - h
  {
    Advance(h, t - h, d);
    WordHolds(d - (t - h));
    WordHolds(t - h);
  }

  /** Equal positions tell an empty ring, equal indices in opposite phases a full one, and nothing else does. */
  lemma EmptyAndFullAreExact(h: nat, t: nat, d: nat)
    requires 0 < d <= MAX_DEPTH && h <= t <= h + d
    ensures IsEmpty(Position(h, d), Position(t, d)) <==> t == h
    ensures IsFull(Position(h, d), Position(t, d)) <==> t == h + d
  {
    Advance(h, t - h, d);
  }

  /** Batches are as long as they can be without wrapping or reaching the other side. */
  lemma BatchesAreContiguous(h: nat, t: nat, d: nat)
    requires 0 < d <= MAX_DEPTH && h <= t <= h + d
    ensures var head, tail := Position(h, d), Position(t, d);
            && PushableCount(head, tail, d) == Min(d - (t - h), d - Rem(t, d))
            && PopableCount(head, tail, d) == Min(t - h, d - Rem(h, d))
  {
    Advance(h, t - h, d);
  }

  lemma MaskedIndex(n: nat, count: nat, d: nat)
    requires Depth(d) && count <= d
    ensures And(Rem(n, d) + count, d - 1) == Rem(n + count, d)
  {
    Advance(n, count, d);
    MaskIsRemainder(Rem(n, d) + count, d);
  }

  /** `get_next_index` moves a position the way its counter moves, up to once round. */
  lemma NextIsAdvance(n: nat, count: nat, d: nat)
    requires Depth(d) && count <= d
    ensures NextIndex(Position(n, d), count, d) == Position(n + count, d)
  {
    MaskedIndex(n, count, d);
    Advance(n, count, d);
    assert Position(n, d).index == Rem(n, d);
  }

  /** An out-of-date head only under-reports the room. */
  lemma StaleHeadIsCautious(stale: nat, h: nat, t: nat, d: nat)
    requires 0 < d <= MAX_DEPTH && stale <= h <= t <= stale + d
    ensures PushableCount(Position(stale, d), Position(t, d), d) <= PushableCount(Position(h, d), Position(t, d), d)
    ensures FreeSpace(Position(stale, d), Position(t, d), d) <= FreeSpace(Position(h, d), Position(t, d), d)
  {
    BatchesAreContiguous(stale, t, d);
    BatchesAreContiguous(h, t, d);
    SpacesAreExact(stale, t, d);
    SpacesAreExact(h, t, d);
  }

  /** Counters less than a ring apart never share a slot. */
  lemma SlotsAreDistinct(a: nat, b: nat, d: nat)
    requires d > 0 && a < b < a + d
    ensures Rem(a, d) != Rem(b, d)
  {
    Advance(a, b - a, d);
  }

  /** Of everything put into a ring, what is not yet taken out is in its slots. */
  ghost predicate Waiting(slots: seq<nat>, history: seq<nat>, heads: nat, d: nat) {
    d > 0 && |slots| == d && forall k :: heads <= k < |history| ==> slots[Rem(k, d)] == history[k]
  }

  /** A position within a lap is its distance from the start of the batch. */
  lemma Within(n: nat, k: nat, d: nat)
    requires 0 < d && Rem(n, d) + k < d
    ensures Rem(n + k, d) == Rem(n, d) + k
  {
    Advance(n, k, d);
  }

  /** A word still waiting is in none of the slots a batch that fits will use. */
  lemma WaitingIsApart(k: nat, t: nat, count: nat, d: nat)
    requires 0 < d && k < t && t + count <= k + d && Rem(t, d) + count <= d
    ensures !(Rem(t, d) <= Rem(k, d) < Rem(t, d) + count)
  {
    Advance(k, t - k, d);
  }

  /** A batch in consecutive slots from index `at`, and nothing else touched. */
  ghost predicate Laid(slots: seq<nat>, slots': seq<nat>, at: nat, words: seq<nat>) {
    && |slots'| == |slots| && at + |words| <= |slots| && slots'[at..at + |words|] == words
    && forall i :: 0 <= i < |slots| && !(at <= i < at + |words|) ==> slots'[i] == slots[i]
  }

  /** Laying a batch that fits disturbs nothing that waits. */
  lemma LaidApart(slots: seq<nat>, slots': seq<nat>, history: seq<nat>, heads: nat, d: nat, words: seq<nat>)
    requires Waiting(slots, history, heads, d) && |history| + |words| <= heads + d
    requires Laid(slots, slots', Rem(|history|, d), words)
    ensures Waiting(slots', history, heads, d)
  {
    forall k | heads <= k < |history| ensures slots'[Rem(k, d)] == history[k] {
      WaitingIsApart(k, |history|, |words|, d);
    }
  }

  /** And once it is counted, it waits too. */
  lemma LaidWaits(slots: seq<nat>, slots': seq<nat>, history: seq<nat>, heads: nat, d: nat, words: seq<nat>)
    requires Waiting(slots, history, heads, d) && |history| + |words| <= heads + d
    requires Laid(slots, slots', Rem(|history|, d), words)
    ensures Waiting(slots', history + words, heads, d)
  {
    LaidApart(slots, slots', history, heads, d, words);
    var t, all := |history|, history + words;
    forall k | heads <= k < |all| ensures slots'[Rem(k, d)] == all[k] {
      if k >= t {
        Within(t, k - t, d);
        assert slots'[Rem(t, d)..Rem(t, d) + |words|][k - t] == words[k - t];
      }
    }
  }

  /** What waits from the head on, up to the end of the ring, is in consecutive slots. */
  lemma WaitingBatch(slots: seq<nat>, history: seq<nat>, heads: nat, d: nat, count: nat)
    requires Waiting(slots, history, heads, d) && heads + count <= |history| && Rem(heads, d) + count <= d
    ensures slots[Rem(heads, d)..Rem(heads, d) + count] == history[heads..heads + count]
  {
    var batch, words := slots[Rem(heads, d)..Rem(heads, d) + count], history[heads..heads + count];
    forall i | 0 <= i < count ensures batch[i] == words[i] {
      Within(heads, i, d);
      assert slots[Rem(heads + i, d)] == history[heads + i];
    }
  }
}
