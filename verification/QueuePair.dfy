/** Second-generation queue pairs: a submission ring the device reports its progress in only by completions,
    and a completion ring read by phase bit, with doorbells that may lag behind (sections 4.1 and 4.6 of the
    NVM Express Base Specification 1.4). */
module QueuePair {

  import opened Arithmetic
  import opened Mailbox

  /** A completion entry: the command's id, its result, the submission head at the time, and the phase bit. */
  datatype Entry = Entry(id: nat, result: nat, sqHead: nat, phase: nat)

  /** What the device answered, with the number of commands it had fetched by then. */
  datatype Answer = Answer(id: nat, result: nat, fetched: nat)

  /** The phase a completion counter is written with: one in the first lap. */
  function Phase(k: nat, d: nat): (p: nat)
    requires d > 0
  {
    1 - Laps(k, d) % 2
  }

  function Stamp(a: Answer, k: nat, d: nat): (e: Entry)
    requires d > 0
  {
    Entry(a.id, a.result, Rem(a.fetched, d), Phase(k, d))
  }

  // ---------------------------------------------------------------------------------------------
  // Rings and counters
  // ---------------------------------------------------------------------------------------------

  /** One step round a ring. */
  function Succ(i: nat, d: nat): (j: nat) {
    if i + 1 == d then 0 else i + 1
  }

  lemma StepIndex(n: nat, d: nat)
    requires d > 0
    ensures Rem(n + 1, d) == Succ(Rem(n, d), d)
    ensures Laps(n + 1, d) == Laps(n, d) + (if Rem(n, d) + 1 == d then 1 else 0)
  {
    Advance(n, 1, d);
  }

  /** Indices less than a lap apart are equal only if the counters are. */
  lemma SameIndex(a: nat, b: nat, d: nat)
    requires d > 0 && a <= b < a + d
    ensures Rem(a, d) == Rem(b, d) <==> a == b
  {
    Advance(a, b - a, d);
  }

  /** The driver's test for room, `(tail + 1) % depth != head`. */
  lemma RoomTest(known: nat, pushed: nat, d: nat)
    requires d > 1 && known <= pushed <= known + d - 1
    ensures Succ(Rem(pushed, d), d) != Rem(known, d) <==> pushed < known + d - 1
    ensures (Rem(pushed, d) + 1) % d == Succ(Rem(pushed, d), d)
  {
    StepIndex(pushed, d);
    Advance(known, pushed + 1 - known, d);
    RemIsModulo(Rem(pushed, d) + 1, d);
  }

  lemma WaitingPush(slots: seq<nat>, commands: seq<nat>, from: nat, d: nat, x: nat)
    requires Waiting(slots, commands, from, d) && |commands| < from + d
    ensures Waiting(slots[Rem(|commands|, d) := x], commands + [x], from, d)
  {
    var at := Rem(|commands|, d);
    forall k | from <= k < |commands| + 1 ensures slots[at := x][Rem(k, d)] == (commands + [x])[k] {
      if k < |commands| { SlotsAreDistinct(k, |commands|, d); }
    }
  }

  /** Every slot of a completion ring holds its latest answer; slots never written have phase zero. */
  ghost predicate Posted(slots: seq<Entry>, answers: seq<Answer>, d: nat) {
    && d > 0 && |slots| == d
    && (forall k {:trigger Stamp(answers[k], k, d)} :: 0 <= k < |answers| && |answers| <= k + d ==>
          slots[Rem(k, d)] == Stamp(answers[k], k, d))
    && (forall i :: |answers| <= i < d ==> slots[i].phase == 0)
  }

  lemma PostedNext(slots: seq<Entry>, answers: seq<Answer>, d: nat, a: Answer)
    requires Posted(slots, answers, d)
    ensures Posted(slots[Rem(|answers|, d) := Stamp(a, |answers|, d)], answers + [a], d)
  {
    var c := |answers|;
    var slots', answers' := slots[Rem(c, d) := Stamp(a, c, d)], answers + [a];
    forall k | 0 <= k < c + 1 && c + 1 <= k + d ensures slots'[Rem(k, d)] == Stamp(answers'[k], k, d) {
      if k < c { SlotsAreDistinct(k, c, d); }
    }
  }

  /** The phase test: the slot of a counter shows its phase exactly when that answer has been posted. */
  lemma PhaseTells(slots: seq<Entry>, answers: seq<Answer>, d: nat, popped: nat)
    requires Posted(slots, answers, d) && popped <= |answers| < popped + d
    ensures slots[Rem(popped, d)].phase == Phase(popped, d) <==> popped < |answers|
    ensures popped < |answers| ==> slots[Rem(popped, d)] == Stamp(answers[popped], popped, d)
  {
    if popped < |answers| {
      assert slots[Rem(popped, d)] == Stamp(answers[popped], popped, d);
    } else if popped >= d {
      LapBefore(popped, d);
      assert slots[Rem(popped - d, d)] == Stamp(answers[popped - d], popped - d, d);
    }
  }

  lemma LapBefore(n: nat, d: nat)
    requires 0 < d <= n
    ensures Rem(n - d, d) == Rem(n, d) && Phase(n - d, d) != Phase(n, d)
  {
  }

  lemma PhaseStep(n: nat, d: nat)
    requires d > 0
    ensures Phase(n + 1, d) == if Rem(n, d) + 1 == d then Xor(Phase(n, d), 1) else Phase(n, d)
  {
    StepIndex(n, d);
  }

  /** Answers tell of fetches that happened, in order, and the host knows what the last one popped told. */
  ghost predicate Tells(answers: seq<Answer>, fetched: nat, popped: nat, known: nat) {
    && popped <= |answers| && known == (if popped == 0 then 0 else answers[popped - 1].fetched) <= fetched
    && (forall k :: 0 <= k < |answers| ==> answers[k].fetched <= fetched)
    && (forall j, k :: 0 <= j <= k < |answers| ==> answers[j].fetched <= answers[k].fetched)
  }

  lemma TellsNext(answers: seq<Answer>, all: seq<Answer>, fetched: nat, popped: nat, known: nat, a: Answer)
    requires Tells(answers, fetched, popped, known) && a.fetched == fetched && all == answers + [a]
    ensures Tells(all, fetched, popped, known)
  {
  }

  lemma TellsPopped(answers: seq<Answer>, fetched: nat, popped: nat, known: nat)
    requires Tells(answers, fetched, popped, known) && popped < |answers|
    ensures known <= answers[popped].fetched <= fetched && Tells(answers, fetched, popped + 1, answers[popped].fetched)
  {
  }

  lemma TellsFetched(answers: seq<Answer>, fetched: nat, popped: nat, known: nat)
    requires Tells(answers, fetched, popped, known)
    ensures Tells(answers, fetched + 1, popped, known)
  {
  }

  /** What the host was handed is, one for one and in order, what the device answered. */
  ghost predicate Replied(delivered: seq<(nat, nat)>, answers: seq<Answer>) {
    && |delivered| <= |answers|
    && forall k :: 0 <= k < |delivered| ==> delivered[k] == (answers[k].id, answers[k].result)
  }

  lemma RepliedNext(delivered: seq<(nat, nat)>, answers: seq<Answer>)
    requires Replied(delivered, answers) && |delivered| < |answers|
    ensures var a := answers[|delivered|]; Replied(delivered + [(a.id, a.result)], answers)
  {
  }

  lemma RepliedStill(delivered: seq<(nat, nat)>, answers: seq<Answer>, all: seq<Answer>)
    requires Replied(delivered, answers) && answers <= all
    ensures Replied(delivered, all)
  {
  }

  class Pair {
    const depth: nat
    const sqes: array<nat>
    const cqes: array<Entry>
    var sqTail: nat
    var sqHead: nat
    var lastSqTail: nat
    var cqHead: nat
    var cqPhase: nat
    var lastCqHead: nat

    // The device: commands it has fetched, answers it has posted.
    var fetched: nat
    var answers: seq<Answer>

    // Commands pushed; how many of them the device was told of, and how many fetches the host was told of.
    ghost var commands: seq<nat>
    ghost var rung: nat
    ghost var known: nat

    // Completions popped, and acknowledged by doorbell.
    ghost var popped: nat
    ghost var acknowledged: nat

    // Every command the device was handed, and every id and result the host was.
    ghost var obtained: seq<nat>
    ghost var delivered: seq<(nat, nat)>

    constructor (depth: nat)
      requires depth > 1
      ensures Valid() && this.depth == depth && fresh(sqes) && fresh(cqes) && commands == [] && answers == []
    {
      this.depth := depth;
      sqes := new nat[depth](_ => 0);
      cqes := new Entry[depth](_ => Entry(0, 0, 0, 0));
      sqTail, sqHead, lastSqTail, cqHead, cqPhase, lastCqHead := 0, 0, 0, 0, 1, 0;
      fetched, answers, commands, rung, known, popped, acknowledged := 0, [], [], 0, 0, 0, 0;
      obtained, delivered := [], [];
    }

    ghost predicate SubmissionValid()
      reads this`sqTail, this`sqHead, this`lastSqTail, this`fetched, this`commands, this`rung, this`known, sqes
    {
      && depth > 1 && sqes.Length == depth
      && sqTail == Rem(|commands|, depth) && sqHead == Rem(known, depth) && lastSqTail == Rem(rung, depth)
      && known <= fetched <= rung <= |commands| <= known + depth - 1
      && Waiting(sqes[..], commands, fetched, depth)
    }

    ghost predicate CompletionValid()
      reads this`cqHead, this`cqPhase, this`lastCqHead, this`answers, this`popped, this`acknowledged, cqes
    {
      && depth > 1 && cqes.Length == depth
      && cqHead == Rem(popped, depth) && cqPhase == Phase(popped, depth) && lastCqHead == Rem(acknowledged, depth)
      && acknowledged <= popped <= |answers| <= acknowledged + depth - 1
      && Posted(cqes[..], answers, depth)
    }

    ghost predicate ProgressValid()
      reads this`answers, this`fetched, this`popped, this`known
    {
      Tells(answers, fetched, popped, known)
    }

    /** Answers reach the host in order, each once. */
    ghost predicate AnswersInOrder()
      reads this`answers, this`popped, this`delivered
    {
      popped == |delivered| && Replied(delivered, answers)
    }

    /** Commands reach the device in order, each once. */
    ghost predicate CommandsInOrder()
      reads this`commands, this`fetched, this`obtained
    {
      obtained <= commands && |obtained| == fetched
    }

    /** What the operations together keep; each names the parts it reads or changes, the others it leaves alone. */
    ghost predicate Valid()
      reads this, sqes, cqes
    {
      SubmissionValid() && CompletionValid() && ProgressValid() && AnswersInOrder() && CommandsInOrder()
    }

    // -------------------------------------------------------------------------------------------
    // The host
    // -------------------------------------------------------------------------------------------

    /** `is_pushable`: exactly when one more command leaves the ring short of full, as far as the host knows. */
    method IsPushable() returns (ok: bool)
      requires SubmissionValid()
      ensures ok <==> |commands| < known + depth - 1
    {
      RoomTest(known, |commands|, depth);
      ok := (sqTail + 1) % depth != sqHead;
    }

    /** `push_mx_command`: the slot holds no command the device has yet to fetch, however old the known head is. */
    method Push(command: nat)
      requires SubmissionValid() && |commands| < known + depth - 1
      modifies sqes, this`sqTail, this`commands
      ensures SubmissionValid() && commands == old(commands) + [command]
    {
      WaitingPush(sqes[..], commands, fetched, depth, command);
      StepIndex(|commands|, depth);
      ghost var slots := sqes[..][sqTail := command];
      sqes[sqTail] := command;
      assert sqes[..] == slots;
      sqTail := if sqTail + 1 == depth then 0 else sqTail + 1;
      commands := commands + [command];
    }

    /** `ring_sq_doorbell`: the write is skipped only when the device has been told of everything. */
    method RingSubmission()
      requires SubmissionValid()
      modifies this`lastSqTail, this`rung
      ensures SubmissionValid() && rung == |commands|
    {
      SameIndex(rung, |commands|, depth);
      if lastSqTail == sqTail { return; }
      lastSqTail := sqTail;
      rung := |commands|;
    }

    /** `is_popable`: a queue with nothing outstanding and no probe under way is not looked at; otherwise exactly when
        an answer is unread. */
    method IsPopable(waitCount: int, probing: bool) returns (ok: bool)
      requires CompletionValid()
      ensures ok <==> (waitCount > 0 || probing) && popped < |answers|
    {
      if waitCount <= 0 && !probing { return false; }
      PhaseTells(cqes[..], answers, depth, popped);
      ok := cqes[cqHead].phase == cqPhase;
    }

    /** `pop_mx_completion`: the oldest unread answer, each once and in order, and with it how far the device has
        fetched. */
    method Pop() returns (id: nat, result: nat)
      requires SubmissionValid() && CompletionValid() && ProgressValid() && AnswersInOrder() && popped < |answers|
      modifies this`sqHead, this`known, this`cqHead, this`cqPhase, this`popped, this`delivered
      ensures SubmissionValid() && CompletionValid() && ProgressValid() && AnswersInOrder()
      ensures popped == old(popped) + 1 && id == answers[old(popped)].id && result == answers[old(popped)].result
      ensures delivered == old(delivered) + [(id, result)]
      ensures known == answers[old(popped)].fetched >= old(known)
    {
      TellsPopped(answers, fetched, popped, known);
      var head;
      id, result, head := Consume();
      Learn(head, answers[popped - 1].fetched);
    }

    /** Hands the answer at the head over and moves on. */
    method Consume() returns (id: nat, result: nat, head: nat)
      requires CompletionValid() && AnswersInOrder() && popped < |answers|
      modifies this`cqHead, this`cqPhase, this`popped, this`delivered
      ensures CompletionValid() && AnswersInOrder() && popped == old(popped) + 1
      ensures Answer(id, result, answers[old(popped)].fetched) == answers[old(popped)]
      ensures head == Rem(answers[old(popped)].fetched, depth) && delivered == old(delivered) + [(id, result)]
    {
      var e := Peek();
      id, result, head := e.id, e.result, e.sqHead;
      RepliedNext(delivered, answers);
      delivered := delivered + [(id, result)];
      AdvanceHead();
    }

    method Peek() returns (e: Entry)
      requires CompletionValid() && popped < |answers|
      ensures var a := answers[popped]; e.id == a.id && e.result == a.result && e.sqHead == Rem(a.fetched, depth)
    {
      PhaseTells(cqes[..], answers, depth, popped);
      e := cqes[cqHead];
    }

    /** The head a completion carries becomes the one the host knows. */
    method Learn(head: nat, ghost fetches: nat)
      requires SubmissionValid() && known <= fetches <= fetched && head == Rem(fetches, depth)
      modifies this`sqHead, this`known
      ensures SubmissionValid() && known == fetches
    {
      sqHead := head;
      known := fetches;
    }

    method AdvanceHead()
      requires CompletionValid() && popped < |answers|
      modifies this`cqHead, this`cqPhase, this`popped
      ensures CompletionValid() && popped == old(popped) + 1
    {
      StepIndex(popped, depth);
      PhaseStep(popped, depth);
      if cqHead + 1 == depth {
        cqHead := 0;
        cqPhase := Xor(cqPhase, 1);
      } else {
        cqHead := cqHead + 1;
      }
      popped := popped + 1;
    }

    /** `ring_cq_doorbell` */
    method RingCompletion()
      requires CompletionValid()
      modifies this`lastCqHead, this`acknowledged
      ensures CompletionValid() && acknowledged == popped
    {
      SameIndex(acknowledged, popped, depth);
      if lastCqHead == cqHead { return; }
      lastCqHead := cqHead;
      acknowledged := popped;
    }

    // -------------------------------------------------------------------------------------------
    // The device
    // -------------------------------------------------------------------------------------------

    /** The device fetches the oldest command it was told of. */
    method Fetch() returns (command: nat)
      requires SubmissionValid() && ProgressValid() && CommandsInOrder() && fetched < rung
      modifies this`fetched, this`obtained
      ensures SubmissionValid() && ProgressValid() && CommandsInOrder()
      ensures fetched == old(fetched) + 1 && obtained == old(obtained) + [command]
    {
      command := sqes[Rem(fetched, depth)];
      TellsFetched(answers, fetched, popped, known);
      obtained := obtained + [command];
      fetched := fetched + 1;
    }

    /** The device posts an answer; it leaves one slot free of what it knows the host has read. */
    method Post(id: nat, result: nat)
      requires CompletionValid() && ProgressValid() && AnswersInOrder() && |answers| < acknowledged + depth - 1
      modifies cqes, this`answers
      ensures CompletionValid() && ProgressValid() && AnswersInOrder()
      ensures answers == old(answers) + [Answer(id, result, fetched)]
    {
      ghost var all := answers + [Answer(id, result, fetched)];
      TellsNext(answers, all, fetched, popped, known, Answer(id, result, fetched));
      RepliedStill(delivered, answers, all);
      Write(Answer(id, result, fetched), all);
    }

    method Write(a: Answer, ghost all: seq<Answer>)
      requires CompletionValid() && |answers| < acknowledged + depth - 1 && all == answers + [a]
      modifies cqes, this`answers
      ensures CompletionValid() && answers == all
    {
      var at := Rem(|answers|, depth);
      PostedNext(cqes[..], answers, depth, a);
      ghost var slots := cqes[..][at := Stamp(a, |answers|, depth)];
      cqes[at] := Stamp(a, |answers|, depth);
      assert cqes[..] == slots;
      answers := answers + [a];
    }
  }
}
