/** Runs in which a reply that cannot be delivered breaks what delivered runs promise. */
module LeaseCounterexamples {

  import opened LeaseMachine
  import opened LeaseSections
  import opened LeaseWorld
  import opened LeaseActivity
  import opened Options

  const START: World := World(Device(1, false, FRESH_SM, None, 0, 0, None), map[], map[], map[])

  function Publish(id: nat, call: nat): (s: Step) {
    Section(id, call, AcquireReq(1, 0, StandalonePublisher, 7, 9))
  }

  /** The device after a publisher's acquire and activation, neither of whose replies has arrived. */
  function Unanswered(): (w: World) {
    var sm := Sm(Standalone, 1, 1, 0, 0, true, false);
    var h := Holder(StandalonePublisher, Quiescent, false);
    var sm' := sm.(quiescent := false, workloads := 1);
    World(Device(1, false, sm', Some(Anchor(7, 9, Standalone)), 1, 1, None),
          map[0 := FRESH_CONTEXT.(holder := h.(phase := Workload))], map[],
          map[0 := Pending(0, AcquireCall(h, true, 1, 7)),
              1 := Pending(0, TransitionCall(sm, sm', h, h.(phase := Workload)))])
  }

  const JOIN: Step := Section(1, 2, AcquireReq(1, 1, StandaloneWorkload, 7, 9))
  const ACTIVATE: Step := Section(0, 1, TransitionReq(1, 1, ActivateWorkload))

  ghost predicate Leads(w: World, steps: seq<Step>, w': World)
    decreases |steps|
  {
    if steps == [] then w == w' else Enabled(w, steps[0]) && Leads(Next(w, steps[0]), steps[1..], w')
  }

  lemma {:induction false} LeadsOn(w: World, a: seq<Step>, mid: World, b: seq<Step>, w': World)
    requires Leads(w, a, mid) && Leads(mid, b, w')
    ensures Leads(w, a + b, w')
    decreases |a|
  {
    if a == [] {
      assert a + b == b;
    } else {
      LeadsOn(Next(w, a[0]), a[1..], mid, b, w');
      assert (a + b)[1..] == a[1..] + b;
    }
  }

  lemma LeadsTwo(w: World, s: Step, t: Step)
    requires Enabled(w, s) && Enabled(Next(w, s), t)
    ensures Leads(w, [s, t], Next(Next(w, s), t))
  {
    assert [s, t][1..] == [t] && [t][1..] == [];
    assert Leads(Next(w, s), [t], Next(Next(w, s), t));
  }

  /** A publisher acquires and activates; neither reply has arrived. */
  lemma UnansweredIsReached()
    ensures Enabled(START, Open(0))
    ensures Leads(Next(START, Open(0)), [Publish(0, 0), ACTIVATE], Unanswered())
  {
    LeadsTwo(Next(START, Open(0)), Publish(0, 0), ACTIVATE);
  }

  /** The device while a guest has joined and its reply is on the way. */
  function Joined(): (w: World) {
    var w := Unanswered();
    var h := Holder(StandaloneWorkload, Workload, false);
    w.(dev := w.dev.(sm := w.dev.sm.(familyHolders := 2, workloads := 2)),
       ctxs := w.ctxs[1 := FRESH_CONTEXT.(holder := h)],
       calls := w.calls[2 := Pending(1, AcquireCall(h, false, 1, 7))])
  }

  lemma GuestComes()
    ensures Leads(Unanswered(), [Open(1), JOIN], Joined())
  {
    LeadsTwo(Unanswered(), Open(1), JOIN);
  }

  /** It is told so, and leaves: the words are back. */
  lemma GuestGoes()
    ensures Leads(Joined(), [Deliver(2), Close(1)], Unanswered())
  {
    LeadsTwo(Joined(), Deliver(2), Close(1));
    assert Next(Joined(), Deliver(2)).calls == Unanswered().calls;
    assert Next(Next(Joined(), Deliver(2)), Close(1)).ctxs == Unanswered().ctxs;
  }

  lemma BothTakenBack()
    ensures Enabled(Unanswered(), Fault(1)) && Enabled(Next(Unanswered(), Fault(1)), Fault(0))
    ensures Next(Next(Unanswered(), Fault(1)), Fault(0)).dev.state == None
  {
  }

  /** A delivered acquire does not make the anchor permanent while the one that set it is still unanswered: a
      workload joins, is told so and leaves, and the two calls before it then fault and take the anchor away. */
  lemma DeliveredGuestDoesNotPin() returns (w: World)
    ensures Init(START)
    ensures Leads(START, [Open(0)] + [Publish(0, 0), ACTIVATE] + [Open(1), JOIN], Joined())
    ensures 2 in Joined().calls && Joined().calls[2].call.AcquireCall? && Joined().dev.state.Some?
    ensures Leads(Joined(), [Deliver(2), Close(1)] + [Fault(1), Fault(0)], w) && w.dev.state.None?
  {
    JoinedIsReached();
    GuestGoes();
    BothTakenBack();
    w := Next(Next(Unanswered(), Fault(1)), Fault(0));
    LeadsTwo(Unanswered(), Fault(1), Fault(0));
    LeadsOn(Joined(), [Deliver(2), Close(1)], Unanswered(), [Fault(1), Fault(0)], w);
  }

  /** A file with a direct call under way whose acquire has not been answered. */
  function Unsure(): (w: World) {
    var h := Holder(StandalonePublisher, Quiescent, false);
    World(Device(1, false, Sm(Standalone, 1, 1, 0, 0, true, false), Some(Anchor(7, 9, Standalone)), 1, 1, None),
          map[0 := FRESH_CONTEXT.(holder := h, direct := 1)], map[], map[0 := Pending(0, AcquireCall(h, true, 1, 7))])
  }

  lemma CallBegins()
    ensures var w := Unsure(); var w' := w.(ctxs := map[0 := w.ctxs[0].(direct := 0)]);
            Enabled(w', Section(0, 1, DirectBegin)) && Next(w', Section(0, 1, DirectBegin)) == w
  {
  }

  lemma UnsureIsReached()
    ensures Enabled(START, Open(0))
    ensures Leads(Next(START, Open(0)), [Publish(0, 0), Section(0, 1, DirectBegin)], Unsure())
  {
    var w := Unsure();
    CallBegins();
    assert Next(Next(START, Open(0)), Publish(0, 0)) == w.(ctxs := map[0 := w.ctxs[0].(direct := 0)]);
    LeadsTwo(Next(START, Open(0)), Publish(0, 0), Section(0, 1, DirectBegin));
  }

  /** The fault takes the lease and the anchor, but not the call; another file opens. */
  function Stranded(): (w: World) {
    World(Device(1, false, FRESH_SM, None, 0, 1, None),
          map[0 := FRESH_CONTEXT.(direct := 1), 1 := FRESH_CONTEXT], map[], map[])
  }

  lemma StrandedIsReached()
    ensures Leads(Unsure(), [Fault(0), Open(1)], Stranded())
  {
    LeadsTwo(Unsure(), Fault(0), Open(1));
    assert Next(Unsure(), Fault(0)).calls == map[];
  }

  lemma AnotherPublishes() returns (w: World)
    ensures Leads(Stranded(), [Publish(1, 0)], w)
    ensures w.dev.sm.quiescent && 0 in w.ctxs && 1 in w.ctxs
    ensures Active(w.ctxs[0]) && w.ctxs[1].holder.phase == Quiescent
  {
    w := Next(Stranded(), Publish(1, 0));
    assert [Publish(1, 0)][1..] == [];
  }

  /** Exclusivity does fail when replies fault: a file whose acquire is taken back during its direct call leaves
      the device open to another publisher, which is then quiescent beside it. */
  lemma FaultBreaksExclusivity() returns (w: World)
    ensures Init(START)
    ensures Leads(START, [Open(0)] + [Publish(0, 0), Section(0, 1, DirectBegin)] + [Fault(0), Open(1)] + [Publish(1, 0)], w)
    ensures w.dev.sm.quiescent && 0 in w.ctxs && 1 in w.ctxs
    ensures Active(w.ctxs[0]) && w.ctxs[1].holder.phase == Quiescent
  {
    UnsureIsReached();
    StrandedIsReached();
    w := AnotherPublishes();
    var a, b := [Open(0)], [Publish(0, 0), Section(0, 1, DirectBegin)];
    assert a[1..] == [];
    assert Leads(START, a, Next(START, Open(0)));
    LeadsOn(START, a, Next(START, Open(0)), b, Unsure());
    LeadsOn(START, a + b, Unsure(), [Fault(0), Open(1)], Stranded());
    LeadsOn(START, a + b + [Fault(0), Open(1)], Stranded(), [Publish(1, 0)], w);
  }

  // ---------------------------------------------------------------------------------------------
  // A bind taken back under a call
  // ---------------------------------------------------------------------------------------------

  const BIND: Step :=
    Section(1, 3, BindReq(StandaloneWorkload, 1, 1, 9, None, Some(File(5, 6)), 0, 0, Ok, Locked(0), Locked(0)))

  /** The guest has bound a pipe as its proof and its reply is on the way. */
  function Bound(): (w: World) {
    var w := Joined();
    var p := UNBOUND.(lifetimeProof := Some(PipeEnd(5)));
    w.(ctxs := w.ctxs[1 := w.ctxs[1].(proofs := p, everBound := true)], calls := w.calls[3 := Pending(1, BindCall(true, p))])
  }

  lemma GuestBinds()
    ensures Leads(Joined(), [Look(1, 3), BIND], Bound())
  {
    LeadsTwo(Joined(), Look(1, 3), BIND);
    assert Next(Next(Joined(), Look(1, 3)), BIND).calls == Bound().calls;
  }

  lemma BindTakenBack() returns (w: World)
    ensures Leads(Bound(), [Section(1, 4, DirectBegin), Fault(3)], w)
    ensures 1 in w.ctxs && w.ctxs[1].direct == 1 && !Covered(w.ctxs[1])
  {
    LeadsTwo(Bound(), Section(1, 4, DirectBegin), Fault(3));
    w := Next(Next(Bound(), Section(1, 4, DirectBegin)), Fault(3));
  }

  lemma JoinedIsReached()
    ensures Init(START) && Leads(START, [Open(0)] + [Publish(0, 0), ACTIVATE] + [Open(1), JOIN], Joined())
  {
    UnansweredIsReached();
    GuestComes();
    assert [Open(0)][1..] == [];
    assert Leads(START, [Open(0)], Next(START, Open(0)));
    LeadsOn(START, [Open(0)], Next(START, Open(0)), [Publish(0, 0), ACTIVATE], Unanswered());
    LeadsOn(START, [Open(0)] + [Publish(0, 0), ACTIVATE], Unanswered(), [Open(1), JOIN], Joined());
  }

  /** Proofs are lost under a call when replies fault: a workload binds, begins a direct call before it learns so,
      and the bind is taken back. */
  lemma FaultUncoversCall() returns (w: World)
    ensures Init(START) && Leads(START, [Open(0)] + [Publish(0, 0), ACTIVATE] + [Open(1), JOIN], Joined())
    ensures Leads(Joined(), [Look(1, 3), BIND] + [Section(1, 4, DirectBegin), Fault(3)], w)
    ensures 1 in w.ctxs && w.ctxs[1].direct == 1 && !Covered(w.ctxs[1])
  {
    JoinedIsReached();
    GuestBinds();
    w := BindTakenBack();
    LeadsOn(Joined(), [Look(1, 3), BIND], Bound(), [Section(1, 4, DirectBegin), Fault(3)], w);
  }
}
