/** Reference counts of file contexts over every run: a context lives exactly as long as its file,
    its transfers, its mappings and the references still to be dropped. */
module LeaseReferences {

  import opened Counting
  import opened LeaseMachine
  import opened LeaseSections
  import opened LeaseWorld

  function Owned(w: World, id: nat): (ts: set<nat>) {
    set t | t in w.transfers && w.transfers[t].ctx == id
  }

  predicate Balanced(ctx: Context) {
    && ctx.refs == One(ctx.open) + ctx.transfers + ctx.bars + ctx.owed && ctx.refs > 0
    && (ctx.direct > 0 ==> ctx.open)
  }

  ghost predicate Referenced(w: World) {
    && (forall id :: id in w.ctxs ==> Balanced(w.ctxs[id]) && w.ctxs[id].transfers == |Owned(w, id)|)
    && (forall t :: t in w.transfers ==> w.transfers[t].ctx in w.ctxs)
  }

  /** A section moves the reference count with what it adds, and never closes the file. */
  lemma ServeBalances(dev: Device, ctx: Context, req: Request)
    requires Balanced(ctx) && ctx.open
    ensures var r := Serve(dev, ctx, req);
            && Balanced(r.ctx) && r.ctx.open
            && r.ctx.transfers == ctx.transfers + One(req.TransferGet? && r.err == Ok)
  {
  }

  lemma TakeBackBalances(dev: Device, ctx: Context, call: Call)
    requires Balanced(ctx)
    ensures var r := TakeBack(dev, ctx, call);
            Balanced(r.1) && r.1.open == ctx.open && r.1.transfers == ctx.transfers
  {
  }

  lemma OwnedAdd(w: World, w': World, t: nat, x: Transfer)
    requires t !in w.transfers && w'.transfers == w.transfers[t := x]
    ensures forall id :: |Owned(w', id)| == |Owned(w, id)| + One(id == x.ctx)
  {
    forall id ensures |Owned(w', id)| == |Owned(w, id)| + One(id == x.ctx) {
      assert Owned(w', id) - {t} == Owned(w, id);
      WithOrWithout(Owned(w', id), t);
    }
  }

  lemma OwnedRemove(w: World, w': World, t: nat)
    requires t in w.transfers && w'.transfers == w.transfers - {t}
    ensures forall id :: |Owned(w', id)| == |Owned(w, id)| - One(id == w.transfers[t].ctx)
  {
    forall id ensures |Owned(w', id)| == |Owned(w, id)| - One(id == w.transfers[t].ctx) {
      assert Owned(w', id) == Owned(w, id) - {t};
      WithOrWithout(Owned(w, id), t);
    }
  }

  lemma OwnedSame(w: World, w': World)
    requires w'.transfers == w.transfers
    ensures forall id :: Owned(w', id) == Owned(w, id)
  {
  }

  lemma DropKeepsReferences(w: World, id: nat, ctx: Context)
    requires Referenced(w) && id in w.ctxs && w.ctxs[id].direct == ctx.direct
    requires ctx == w.ctxs[id].(open := false) || ctx == w.ctxs[id].(owed := Dec(w.ctxs[id].owed))
    requires ctx.refs == One(ctx.open) + ctx.transfers + ctx.bars + ctx.owed + 1 && (ctx.direct > 0 ==> ctx.open)
    ensures Referenced(DropReference(w, id, ctx))
  {
    var w' := DropReference(w, id, ctx);
    OwnedSame(w, w');
    if ctx.refs == 1 {
      forall t | t in w'.transfers ensures w'.transfers[t].ctx in w'.ctxs {
        assert t !in Owned(w, id);
      }
    }
  }

  lemma StepKeepsReferences(w: World, s: Step)
    requires Referenced(w) && CallsSound(w) && Enabled(w, s)
    ensures Referenced(Next(w, s))
  {
    if s.Section? {
      SectionKeepsReferences(w, s);
    } else if s.Fault? {
      FaultKeepsReferences(w, s);
    } else if s.RefPut? || s.Close? {
      PutKeepsReferences(w, s);
    } else {
      CountingKeepsReferences(w, s);
    }
  }

  lemma PutKeepsReferences(w: World, s: Step)
    requires Referenced(w) && Enabled(w, s) && (s.RefPut? || s.Close?)
    ensures Referenced(Next(w, s))
  {
    assert Balanced(w.ctxs[s.id]);
    if s.RefPut? {
      DropKeepsReferences(w, s.id, w.ctxs[s.id].(owed := w.ctxs[s.id].owed - 1));
    } else {
      DropKeepsReferences(w, s.id, w.ctxs[s.id].(open := false));
    }
  }

  lemma CountingKeepsReferences(w: World, s: Step)
    requires Referenced(w) && Enabled(w, s)
    requires s.Open? || s.Look? || s.Deliver? || s.TransferPut? || s.BarClose? || s.Remove?
    ensures Referenced(Next(w, s))
  {
    if s.TransferPut? {
      OwnedRemove(w, Next(w, s), s.transfer);
    } else {
      OwnedSame(w, Next(w, s));
      if s.Open? { NobodyOwned(w, s.id); }
    }
  }

  lemma NobodyOwned(w: World, id: nat)
    requires Referenced(w) && id !in w.ctxs
    ensures Owned(w, id) == {}
  {
  }

  lemma SectionKeepsReferences(w: World, s: Step)
    requires Referenced(w) && Enabled(w, s) && s.Section?
    ensures Referenced(Next(w, s))
  {
    var w' := Next(w, s);
    var ctx := w.ctxs[s.id];
    ServeBalances(w.dev, ctx, s.req);
    if s.req.TransferGet? && Serve(w.dev, ctx, s.req).err == Ok {
      OwnedAdd(w, w', s.req.transfer, w'.transfers[s.req.transfer]);
    } else {
      OwnedSame(w, w');
    }
  }

  lemma FaultKeepsReferences(w: World, s: Step)
    requires Referenced(w) && Enabled(w, s) && s.Fault?
    ensures Referenced(Next(w, s))
  {
    var id := w.calls[s.call].ctx;
    TakeBackBalances(w.dev, w.ctxs[id], w.calls[s.call].call);
    OwnedSame(w, Next(w, s));
  }

  lemma SectionKeepsCalls(w: World, s: Step)
    requires Enabled(w, s) && s.Section? && Knows(w.dev.sm, w.ctxs[s.id].holder) && Balanced(w.ctxs[s.id]) && CallsSound(w)
    ensures CallsSound(Next(w, s))
  {
    ServeReplaces(w.dev, w.ctxs[s.id], s.req);
    ServeBalances(w.dev, w.ctxs[s.id], s.req);
  }

  /** A file with a call on its way cannot lose its context. */
  lemma StepKeepsCalls(w: World, s: Step)
    requires Referenced(w) && CallsSound(w) && Enabled(w, s)
    requires s.Section? ==> Knows(w.dev.sm, w.ctxs[s.id].holder)
    ensures CallsSound(Next(w, s))
  {
    if s.Section? {
      SectionKeepsCalls(w, s);
    } else if s.Fault? {
      TakeBackBalances(w.dev, w.ctxs[w.calls[s.call].ctx], w.calls[s.call].call);
    } else if s.RefPut? {
      assert Balanced(w.ctxs[s.id]);
    }
  }

  /** What holds after every run, faulted replies included: the counters are the counts over holders, the exclusions
      hold, every reference is accounted for and every pending call can still be taken back. */
  ghost predicate Sound(w: World) {
    Inv(w.dev.sm, Holdings(w)) && CallsSound(w) && Referenced(w)
  }

  lemma InitSound(w: World)
    requires Init(w)
    ensures Sound(w)
  {
    assert Holdings(w) == map[];
    InvInit();
  }

  lemma StepKeepsSound(w: World, s: Step)
    requires Sound(w) && Enabled(w, s)
    ensures Sound(Next(w, s))
  {
    if s.Section? { InvKnows(w.dev.sm, Holdings(w), s.id); }
    StepKeepsInv(w, s);
    StepKeepsReferences(w, s);
    StepKeepsCalls(w, s);
  }

  lemma {:induction false} RunsAreSound(ws: seq<World>, steps: seq<Step>, k: nat)
    requires Run(ws, steps) && k < |ws|
    ensures Sound(ws[k])
  {
    if k == 0 {
      InitSound(ws[0]);
    } else {
      RunsAreSound(ws, steps, k - 1);
      StepKeepsSound(ws[k - 1], steps[k - 1]);
    }
  }

  lemma ReachedIsSound(w: World)
    requires Reached(w)
    ensures Sound(w)
  {
    var ws, steps :| Run(ws, steps) && ws[|steps|] == w;
    RunsAreSound(ws, steps, |steps|);
  }

  /** When the last reference goes, nothing of the file is still at work: the warning in `mx_file_ctx_free` cannot fire. */
  lemma FreeFindsNoActivity(w: World, s: Step)
    requires Reached(w) && Enabled(w, s) && (s.Close? || s.RefPut?) && s.id !in Next(w, s).ctxs
    ensures var ctx := w.ctxs[s.id]; ctx.direct == 0 && ctx.transfers == 0 && ctx.bars == 0 && Owned(w, s.id) == {}
  {
    ReachedIsSound(w);
    assert Balanced(w.ctxs[s.id]);
  }
}
