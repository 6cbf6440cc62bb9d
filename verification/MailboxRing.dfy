/** One mailbox ring between the host and the device, in either direction: what is taken out is, in order,
    what was put in, however late either side learns of the other's progress. */
module MailboxRing {

  import opened Arithmetic
  import opened Mailbox

  class Ring {
    const depth: nat
    const data: array<nat>

    // The producer's own position and what it last read of the other; the consumer's; and the context both share.
    var tail: Index
    var cachedHead: Index
    var head: Index
    var cachedTail: Index
    var shownTail: Index
    var shownHead: Index

    // The counters the positions stand for, and everything ever put in.
    ghost var tails: nat
    ghost var seenHeads: nat
    ghost var heads: nat
    ghost var seenTails: nat
    ghost var shownTails: nat
    ghost var shownHeads: nat
    ghost var history: seq<nat>

    // Everything ever handed over, and whether every copy succeeded.
    ghost var received: seq<nat>
    ghost var lossless: bool

    constructor (depth: nat)
      requires Depth(depth)
      ensures Valid() && this.depth == depth && fresh(data) && history == received == [] && lossless
    {
      this.depth := depth;
      data := new nat[depth](_ => 0);
      tail, cachedHead, shownHead, head, cachedTail, shownTail := START, START, START, START, START, START;
      tails, seenHeads, shownHeads, heads, seenTails, shownTails := 0, 0, 0, 0, 0, 0;
      history, received, lossless := [], [], true;
    }

    /** Positions stand for counters, and nobody runs ahead. */
    ghost predicate Counted()
      reads this`tail, this`cachedHead, this`head, this`cachedTail, this`shownTail, this`shownHead
      reads this`tails, this`seenHeads, this`heads, this`seenTails, this`shownTails, this`shownHeads
    {
      && 0 < depth <= MAX_DEPTH
      && tail == Position(tails, depth) && cachedHead == Position(seenHeads, depth)
      && head == Position(heads, depth) && cachedTail == Position(seenTails, depth)
      && shownTail == Position(shownTails, depth) && shownHead == Position(shownHeads, depth)
      && seenHeads <= shownHeads <= heads <= seenTails <= shownTails <= tails <= seenHeads + depth
    }

    /** The words not yet taken are in their slots. */
    ghost predicate Kept()
      reads this`tails, this`heads, this`history, data
    {
      data.Length == depth && |history| == tails && Waiting(data[..], history, heads, depth)
    }

    /** What was handed over is, in order and without gap, what was put in. */
    ghost predicate Handed()
      reads this`heads, this`history, this`received, this`lossless
    {
      heads <= |history| && (lossless ==> received == history[..heads])
    }

    ghost predicate Valid()
      reads this, data
    {
      Depth(depth) && Counted() && Kept() && Handed()
    }

    /** The producer reads how far the consumer says it has got. */
    method RefreshHead()
      requires Counted()
      modifies this`cachedHead, this`seenHeads
      ensures Counted() && seenHeads == shownHeads
    {
      cachedHead := shownHead;
      seenHeads := shownHeads;
    }

    /** The producer tells how far it has got. */
    method PublishTail()
      requires Counted()
      modifies this`shownTail, this`shownTails
      ensures Counted() && shownTails == tails
    {
      shownTail := tail;
      shownTails := tails;
    }

    method PublishHead()
      requires Counted()
      modifies this`shownHead, this`shownHeads
      ensures Counted() && shownHeads == heads
    {
      shownHead := head;
      shownHeads := heads;
    }

    /** How many words may go in from the tail on, as far as the producer knows. */
    method Pushable() returns (count: nat)
      requires Counted()
      ensures count == Min(depth - (tails - seenHeads), depth - Rem(tails, depth))
    {
      BatchesAreContiguous(seenHeads, tails, depth);
      count := PushableCount(cachedHead, tail, depth);
    }

    /** Copies a batch to consecutive slots. */
    method WriteBatch(at: nat, words: seq<nat>)
      requires at + |words| <= data.Length
      modifies data
      ensures Laid(old(data[..]), data[..], at, words)
    {
      var i := 0;
      while i < |words|
        invariant 0 <= i <= |words|
        invariant forall k :: 0 <= k < i ==> data[at + k] == words[k]
        invariant forall j :: 0 <= j < data.Length && !(at <= j < at + i) ==> data[j] == old(data[j])
      {
        data[at + i] := words[i];
        i := i + 1;
      }
    }

    method AdvanceTail(words: seq<nat>)
      requires Depth(depth) && Counted() && Handed() && tails + |words| <= seenHeads + depth
      modifies this`tail, this`tails, this`history
      ensures Counted() && Handed() && tails == old(tails) + |words| && history == old(history) + words
    {
      assert (history + words)[..heads] == history[..heads];
      NextIsAdvance(tails, |words|, depth);
      tail := NextIndex(tail, |words|, depth);
      tails := tails + |words|;
      history := history + words;
    }

    /** Writes a batch and moves the tail past it. */
    method PutAll(words: seq<nat>)
      requires Valid() && tails - seenHeads + |words| <= depth && Rem(tails, depth) + |words| <= depth
      modifies data, this`tail, this`tails, this`history
      ensures Valid() && history == old(history) + words
    {
      ghost var slots := data[..];
      WriteBatch(tail.index, words);
      LaidWaits(slots, data[..], history, heads, depth, words);
      AdvanceTail(words);
    }

    /** A write that stops short: nothing that waits is touched, and the tail stays. */
    method PutPart(words: seq<nat>)
      requires Counted() && Kept() && tails - seenHeads + |words| <= depth && Rem(tails, depth) + |words| <= depth
      modifies data
      ensures Kept()
    {
      ghost var slots := data[..];
      WriteBatch(tail.index, words);
      LaidApart(slots, data[..], history, heads, depth, words);
    }

    method Put(words: seq<nat>, landed: nat) returns (ok: bool)
      requires Valid() && tails - seenHeads + |words| <= depth && Rem(tails, depth) + |words| <= depth
      modifies data, this`tail, this`tails, this`history
      ensures Valid() && ok == (landed >= |words|)
      ensures history == if ok then old(history) + words else old(history)
    {
      ok := landed >= |words|;
      if ok { PutAll(words); } else { PutPart(words[..landed]); }
    }

    /** Writes a batch and tells of it, if the one succeeds and the other does. */
    method PutOut(words: seq<nat>, landed: nat, published: bool) returns (ok: bool)
      requires Valid() && tails - seenHeads + |words| <= depth && Rem(tails, depth) + |words| <= depth
      modifies data, this`tail, this`tails, this`history, this`shownTail, this`shownTails
      ensures Valid() && ok == (landed >= |words|) && (ok && published ==> shownTails == tails)
      ensures history == if ok then old(history) + words else old(history)
    {
      ok := Put(words, landed);
      if ok && published { PublishTail(); }
    }

    /** The room for a request of `wanted` words; the consumer's position is read only if the cached one falls short. */
    method Room(wanted: nat, contextRead: bool) returns (ok: bool, count: nat)
      requires Counted()
      modifies this`cachedHead, this`seenHeads
      ensures Counted() && (!ok ==> !contextRead)
      ensures tails - seenHeads + count <= depth && Rem(tails, depth) + count <= depth
      ensures ok && count < wanted ==> count == Min(depth - (tails - shownHeads), depth - Rem(tails, depth))
    {
      count := Pushable();
      ok := true;
      if count < wanted {
        if !contextRead { return false, 0; }
        RefreshHead();
        count := Pushable();
      }
    }

    /** The length of the batch for a request of `wanted` words, or why there is none: the context could not be read, or
        there is room and nothing to send. */
    method Plan(wanted: nat, contextRead: bool) returns (count: int)
      requires Valid()
      modifies this`cachedHead, this`seenHeads
      ensures Valid() && (count < 0 ==> !contextRead || wanted == 0) && count <= wanted
      ensures count > 0 ==> tails - seenHeads + count <= depth && Rem(tails, depth) + count <= depth
      ensures 0 <= count < wanted ==> count == Min(depth - (tails - shownHeads), depth - Rem(tails, depth))
    {
      var ok, room := Room(wanted, contextRead);
      if !ok { return -1; }
      if room == 0 { return 0; }
      if wanted == 0 { return -1; }
      return if room > wanted then wanted else room;
    }

    /** `ioctl_send_cmds`, for a request of `words`. Reading the context and writing the batch may fail, the latter after
        some words have landed; so may the publication, whose outcome nobody looks at: the words then wait for the next
        one. Nothing waiting is lost, what is sent goes behind it, and a short batch is as long as the ring allows
        without wrapping. A write of no words is refused. */
    method SendCommands(words: seq<nat>, contextRead: bool, landed: nat, published: bool) returns (sent: int)
      requires Valid()
      modifies this`cachedHead, this`seenHeads, this`tail, this`tails, this`history, this`shownTail, this`shownTails, data
      ensures Valid()
      ensures sent < 0 ==> !contextRead || landed < |words| || words == []
      ensures sent <= |words| && history == if sent > 0 then old(history) + words[..sent] else old(history)
      ensures 0 <= sent < |words| ==> sent == old(Min(depth - (tails - shownHeads), depth - Rem(tails, depth)))
      ensures sent > 0 && published ==> shownTails == tails
    {
      sent := Plan(|words|, contextRead);
      if sent <= 0 { return; }
      var ok := PutOut(words[..sent], landed, published);
      if !ok { sent := -1; }
    }

    /** The consumer reads how far the producer says it has got. */
    method RefreshTail()
      requires Counted()
      modifies this`cachedTail, this`seenTails
      ensures Counted() && seenTails == shownTails
    {
      cachedTail := shownTail;
      seenTails := shownTails;
    }

    /** Reads consecutive slots from the head. */
    method ReadBatch(count: nat) returns (words: seq<nat>)
      requires Counted() && Kept() && heads + count <= tails && Rem(heads, depth) + count <= depth
      ensures words == history[heads..heads + count]
    {
      WaitingBatch(data[..], history, heads, depth, count);
      words := data[head.index..head.index + count];
    }

    /** How many words may come out from the head on, as far as the consumer knows. */
    method Popable() returns (count: nat)
      requires Counted()
      ensures count == Min(seenTails - heads, depth - Rem(heads, depth))
    {
      BatchesAreContiguous(heads, seenTails, depth);
      count := PopableCount(head, cachedTail, depth);
    }

    method MoveHead(count: nat)
      requires Depth(depth) && Counted() && Kept() && heads + count <= seenTails
      modifies this`head, this`heads
      ensures Counted() && Kept() && heads == old(heads) + count
    {
      NextIsAdvance(heads, count, depth);
      head := NextIndex(head, count, depth);
      heads := heads + count;
    }

    /** Moves on past `count` words; `copied` says whether they were handed over. */
    method AdvanceHead(count: nat, copied: bool)
      requires Valid() && heads + count <= seenTails
      modifies this`head, this`heads, this`received, this`lossless
      ensures Valid() && heads == old(heads) + count && lossless == (old(lossless) && copied)
      ensures received == if copied then old(received) + history[old(heads)..heads] else old(received)
    {
      HandOver(count, copied);
      MoveHead(count);
    }

    ghost method HandOver(count: nat, copied: bool)
      requires Handed() && heads + count <= |history|
      modifies this`received, this`lossless
      ensures lossless == (old(lossless) && copied) && (lossless ==> received == history[..heads + count])
      ensures received == if copied then old(received) + history[heads..heads + count] else old(received)
    {
      Prefixes(history, heads, count);
      if copied { received := received + history[heads..heads + count]; } else { lossless := false; }
    }

    /** Takes out `count` words, handing them over if they can be copied. */
    method Take(count: nat, copied: bool) returns (words: seq<nat>)
      requires Valid() && heads + count <= seenTails && Rem(heads, depth) + count <= depth
      modifies this`head, this`heads, this`received, this`lossless
      ensures Valid() && heads == old(heads) + count && lossless == (old(lossless) && copied)
      ensures words == (if copied then history[old(heads)..heads] else []) && received == old(received) + words
    {
      words := [];
      if copied { words := ReadBatch(count); }
      AdvanceHead(count, copied);
    }

    method NothingWaits() returns (empty: bool)
      requires Counted()
      ensures empty <==> heads == seenTails
    {
      EmptyAndFullAreExact(heads, seenTails, depth);
      empty := IsEmpty(head, cachedTail);
    }

    /** How many of the wanted words come out in one batch, by what the producer says now. */
    method Backlog(wanted: nat) returns (n: nat)
      requires Counted()
      modifies this`cachedTail, this`seenTails
      ensures Counted() && heads + n <= seenTails && Rem(heads, depth) + n <= depth
      ensures n == Min(wanted, Min(shownTails - heads, depth - Rem(heads, depth)))
    {
      RefreshTail();
      var empty := NothingWaits();
      if empty { return 0; }
      n := Popable();
      if n > wanted { n := wanted; }
    }

    /** Takes words out and tells of it, if that succeeds. */
    method TakeOut(count: nat, copied: bool, published: bool) returns (words: seq<nat>)
      requires Valid() && heads + count <= seenTails && Rem(heads, depth) + count <= depth
      modifies this`head, this`heads, this`received, this`lossless, this`shownHead, this`shownHeads
      ensures Valid() && heads == old(heads) + count && lossless == (old(lossless) && copied)
      ensures words == (if copied then history[old(heads)..heads] else []) && received == old(received) + words
      ensures published ==> shownHeads == heads
    {
      words := Take(count, copied);
      if published { PublishHead(); }
    }

    /** Takes out what waits, up to `wanted` words; an empty ring is left alone. */
    method TakeWaiting(wanted: nat, copied: bool, published: bool) returns (n: nat, words: seq<nat>)
      requires Valid()
      modifies this`cachedTail, this`seenTails, this`head, this`heads, this`received, this`lossless
      modifies this`shownHead, this`shownHeads
      ensures Valid() && heads == old(heads) + n && received == old(received) + words
      ensures n == Min(wanted, old(Min(shownTails - heads, depth - Rem(heads, depth))))
      ensures words == if n > 0 && copied then history[old(heads)..heads] else []
      ensures lossless == (old(lossless) && (n == 0 || copied)) && (n > 0 && published ==> shownHeads == heads)
    {
      n := Backlog(wanted);
      words := [];
      if n > 0 { words := TakeOut(n, copied, published); }
    }

    /** `ioctl_recv_cmds`, for at most `wanted` words: the words come in order and none is passed over. The head moves
        on whether or not the words could be copied, so a copy that fails loses the batch; the outcome of publishing it
        is not looked at either. */
    method ReceiveCommands(wanted: nat, contextRead: bool, copied: bool, published: bool)
      returns (count: int, words: seq<nat>)
      requires Valid() && wanted > 0
      modifies this`cachedTail, this`seenTails, this`head, this`heads, this`received, this`lossless
      modifies this`shownHead, this`shownHeads
      ensures Valid() && received == old(received) + words
      ensures count < 0 ==> !contextRead && heads == old(heads)
      ensures count >= 0 ==> heads == old(heads) + count
      ensures count >= 0 ==> count == Min(wanted, old(Min(shownTails - heads, depth - Rem(heads, depth))))
      ensures words == if count > 0 && copied then history[old(heads)..heads] else []
      ensures lossless == (old(lossless) && (count <= 0 || copied))
      ensures count > 0 && published ==> shownHeads == heads
    {
      if !contextRead { return -1, []; }
      count, words := TakeWaiting(wanted, copied, published);
    }

    // -------------------------------------------------------------------------------------------
    // First-generation queues: the same ring, in commands of four words
    // -------------------------------------------------------------------------------------------

    /** Only whole commands were ever put in or taken out, and each side tells its progress at once. */
    ghost predicate Aligned()
      reads this
    {
      && depth > 0 && Rem(depth, COMMAND) == 0 && Rem(tails, COMMAND) == 0 && Rem(heads, COMMAND) == 0
      && shownTails == tails && shownHeads == heads
    }

    method Free() returns (n: nat)
      requires Counted()
      ensures n == depth - (tails - seenHeads)
    {
      SpacesAreExact(seenHeads, tails, depth);
      n := FreeSpace(cachedHead, tail, depth);
    }

    /** `is_pushable`: with room for two commands in the cached view the context is not read. Reading it takes over both
        positions. */
    method IsPushable() returns (ok: bool)
      requires Valid() && Aligned()
      modifies this`cachedHead, this`seenHeads, this`tail
      ensures Valid() && Aligned() && (ok ==> tails - seenHeads + COMMAND <= depth)
      ensures !ok ==> tails - heads + COMMAND > depth
    {
      var n := Free();
      if n >= COMMAND * 2 { return true; }
      RefreshHead();
      tail := shownTail;
      n := Free();
      ok := n >= COMMAND;
    }

    /** `push_mx_command`: a command never straddles the end of the ring. */
    method PushCommand(command: seq<nat>)
      requires Valid() && Aligned() && |command| == COMMAND && tails - seenHeads + COMMAND <= depth
      modifies data, this`tail, this`tails, this`history, this`shownTail, this`shownTails
      ensures Valid() && Aligned() && history == old(history) + command
    {
      CommandFits(tails, depth);
      var _ := Put(command, COMMAND);
      RemStep(tails - COMMAND, COMMAND);
      PublishTail();
    }

    /** `is_popable`: a queue with nothing outstanding and no probe under way is not looked at. */
    method IsPopable(waitCount: int, probing: bool) returns (ok: bool)
      requires Valid() && Aligned()
      modifies this`cachedTail, this`seenTails, this`head
      ensures Valid() && Aligned() && (ok ==> heads + COMMAND <= seenTails)
      ensures ok <==> (waitCount > 0 || probing) && heads + COMMAND <= tails
    {
      if waitCount <= 0 && !probing { return false; }
      RefreshTail();
      head := shownHead;
      SpacesAreExact(heads, seenTails, depth);
      ok := PendingCount(head, cachedTail, depth) >= COMMAND;
    }

    /** `pop_mx_command`: the header and the result of the oldest command. */
    method PopCommand() returns (header: nat, result: nat)
      requires Valid() && Aligned() && heads + COMMAND <= seenTails
      modifies this`head, this`heads, this`received, this`lossless, this`shownHead, this`shownHeads
      ensures Valid() && Aligned() && heads == old(heads) + COMMAND && lossless == old(lossless)
      ensures received == old(received) + history[old(heads)..heads]
      ensures header == history[old(heads)] && result == history[old(heads) + 3]
    {
      CommandFits(heads, depth);
      Within(heads, 3, depth);
      header := data[head.index];
      result := data[head.index + 3];
      RemStep(heads, COMMAND);
      AdvanceHead(COMMAND, true);
      PublishHead();
    }
  }

  lemma Prefixes(history: seq<nat>, n: nat, count: nat)
    requires n + count <= |history|
    ensures history[..n] + history[n..n + count] == history[..n + count]
  {
  }

  /** Where every position starts. */
  const START: Index := Index(0, 0)

  /** Words in a first-generation command. */
  const COMMAND: nat := 4

  lemma RemStep(n: nat, d: nat)
    requires d > 0
    ensures Rem(n + d, d) == Rem(n, d)
  {
  }

  lemma {:induction false} CommandFits(n: nat, d: nat)
    requires d > 0 && Rem(n, COMMAND) == 0 && Rem(d, COMMAND) == 0
    ensures Rem(n, d) + COMMAND <= d
    decreases n
  {
    if n >= d {
      MultiplesDiffer(n, d);
      CommandFits(n - d, d);
    } else {
      MultiplesDiffer(d, n);
    }
  }

  /** The distance between two multiples is one. */
  lemma {:induction false} MultiplesDiffer(a: nat, b: nat)
    requires a >= b && Rem(a, COMMAND) == 0 && Rem(b, COMMAND) == 0
    ensures Rem(a - b, COMMAND) == 0
    decreases b
  {
    if b >= COMMAND { MultiplesDiffer(a - COMMAND, b - COMMAND); }
  }
}
