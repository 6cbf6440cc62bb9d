/** All open files of one device, their transfers in flight and their calls between unlock and reply:
    every run of the lease protocol, one critical section a step. */
module LeaseWorld {

  import opened LeaseMachine
  import opened LeaseSections
  import opened Options

  /** A transfer in flight: the file charged for it, the binding it was issued under and the proofs it pins. */
  datatype Transfer = Transfer(ctx: nat, slot: nat, tag: nat, slotProof: Option<Pin>, lifetimeProof: Option<Pin>)

  /** A call that has left the lock and not yet learned whether its reply arrived. */
  datatype Pending = Pending(ctx: nat, call: Call)

  datatype World = World(dev: Device, ctxs: map<nat, Context>, transfers: map<nat, Transfer>, calls: map<nat, Pending>)

  datatype Step =
    | Open(id: nat)
    | Look(id: nat, call: nat)
    | Section(id: nat, call: nat, req: Request)
    | Deliver(call: nat)
    | Fault(call: nat)
    | TransferPut(transfer: nat)
    | BarClose(id: nat)
    | RefPut(id: nat)
    | Close(id: nat)
    | Remove

  /** When the kernel can make the step: a file in use is not released, a mapping is made inside a direct call. */
  predicate Enabled(w: World, s: Step) {
    match s
    case Open(id) => id !in w.ctxs
    case Look(id, call) => id in w.ctxs && w.ctxs[id].open && call !in w.calls
    case Section(id, call, req) =>
      && id in w.ctxs && w.ctxs[id].open
      && (if req.BindReq? || req.UnbindReq? then call in w.calls && w.calls[call] == Pending(id, Looked(req.seen))
          else call !in w.calls)
      && (req.TransferGet? ==> req.transfer !in w.transfers)
      && (req.DirectEnd? || req.BarMap? ==> w.ctxs[id].direct > 0)
    case Deliver(call) => call in w.calls && w.calls[call].ctx in w.ctxs
    case Fault(call) => call in w.calls && w.calls[call].ctx in w.ctxs
    case TransferPut(t) => t in w.transfers && w.transfers[t].ctx in w.ctxs && w.ctxs[w.transfers[t].ctx].transfers > 0
    case BarClose(id) => id in w.ctxs && w.ctxs[id].bars > 0
    case RefPut(id) => id in w.ctxs && w.ctxs[id].owed > 0
    case Close(id) =>
      id in w.ctxs && w.ctxs[id].open && w.ctxs[id].direct == 0 && forall c :: c in w.calls ==> w.calls[c].ctx != id
    case Remove => true
  }

  function Next(w: World, s: Step): (w': World)
    requires Enabled(w, s)
  {
    match s
    case Open(id) => if w.dev.removed then w else w.(ctxs := w.ctxs[id := FRESH_CONTEXT])
    case Look(id, call) => w.(calls := w.calls[call := Pending(id, Looked(w.ctxs[id].holder.profile))])
    case Section(id, call, req) => AfterSection(w, id, call, req, Serve(w.dev, w.ctxs[id], req))
    case Deliver(call) => w.(calls := w.calls - {call})
    case Fault(call) => AfterFault(w, call)
    case TransferPut(t) => AfterTransferPut(w, t)
    case BarClose(id) => AfterBarClose(w, id)
    case RefPut(id) => DropReference(w, id, w.ctxs[id].(owed := w.ctxs[id].owed - 1))
    case Close(id) => DropReference(w, id, w.ctxs[id].(open := false))
    case Remove => w.(dev := w.dev.(removed := true))
  }

  function AfterFault(w: World, call: nat): (w': World)
    requires call in w.calls && w.calls[call].ctx in w.ctxs
  {
    var id := w.calls[call].ctx;
    var (dev, ctx) := TakeBack(w.dev, w.ctxs[id], w.calls[call].call);
    World(dev, w.ctxs[id := ctx], w.transfers, w.calls - {call})
  }

  function AfterTransferPut(w: World, t: nat): (w': World)
    requires t in w.transfers && w.transfers[t].ctx in w.ctxs
  {
    var id := w.transfers[t].ctx;
    var ctx := w.ctxs[id];
    w.(ctxs := w.ctxs[id := ctx.(transfers := Dec(ctx.transfers), owed := ctx.owed + 1)], transfers := w.transfers - {t})
  }

  function AfterBarClose(w: World, id: nat): (w': World)
    requires id in w.ctxs
  {
    var ctx := w.ctxs[id];
    w.(ctxs := w.ctxs[id := ctx.(bars := Dec(ctx.bars), owed := ctx.owed + 1)])
  }

  /** A new transfer pins what its file has bound. */
  function TransfersAfter(ts: map<nat, Transfer>, id: nat, req: Request, err: Errno, p: Proofs): (ts': map<nat, Transfer>) {
    if req.TransferGet? && err == Ok
    then ts[req.transfer := Transfer(id, p.slot, p.tag, p.slotProof, p.lifetimeProof)] else ts
  }

  function CallsAfter(cs: map<nat, Pending>, id: nat, call: nat, made: Option<Call>): (cs': map<nat, Pending>) {
    if made.Some? then cs[call := Pending(id, made.value)] else cs - {call}
  }

  /** The outcome of a section, put where it belongs. */
  function AfterSection(w: World, id: nat, call: nat, req: Request, r: Outcome): (w': World)
    requires id in w.ctxs
  {
    World(r.dev, w.ctxs[id := r.ctx], TransfersAfter(w.transfers, id, req, r.err, w.ctxs[id].proofs),
          CallsAfter(w.calls, id, call, r.call))
  }

  /** `mx_file_ctx_put`: the last reference releases the lease and frees the context. */
  function DropReference(w: World, id: nat, ctx: Context): (w': World)
    requires id in w.ctxs
  {
    if ctx.refs != 1 then w.(ctxs := w.ctxs[id := ctx.(refs := Dec(ctx.refs))])
    else w.(dev := w.dev.(sm := Release(w.dev.sm, ctx.holder).sm), ctxs := w.ctxs - {id})
  }

  ghost predicate Init(w: World) {
    && w.ctxs == map[] && w.transfers == map[] && w.calls == map[] && w.dev.incarnation != 0 && !w.dev.removed
    && w.dev == Device(w.dev.incarnation, false, FRESH_SM, None, 0, 0, None)
  }

  /** A run: worlds joined by enabled steps. */
  ghost predicate Run(ws: seq<World>, steps: seq<Step>) {
    && |ws| == |steps| + 1 && Init(ws[0])
    && forall k :: 0 <= k < |steps| ==> Enabled(ws[k], steps[k]) && ws[k + 1] == Next(ws[k], steps[k])
  }

  /** A world some run leads to. */
  ghost predicate Reached(w: World) {
    exists ws, steps :: Run(ws, steps) && ws[|steps|] == w
  }

  function Holdings(w: World): (hs: Holders) {
    map i | i in w.ctxs :: w.ctxs[i].holder
  }

  // ---------------------------------------------------------------------------------------------
  // Counters and exclusion, in every run
  // ---------------------------------------------------------------------------------------------

  /** A pending transition still knows how to be undone. */
  predicate CallSound(call: Call) {
    && (call.AcquireCall? ==> call.holder.profile != NoProfile)
    && (call.TransitionCall? ==>
          && Replaces(call.newSm, call.oldSm, call.newHolder, call.oldHolder) && SameFamily(call.newSm, call.oldSm)
          && call.oldHolder.profile.IsPublisher() && call.newHolder.profile == call.oldHolder.profile
          && (call.oldHolder.phase == Prepared ==> call.newHolder == call.oldHolder))
  }

  ghost predicate CallsSound(w: World) {
    forall c :: c in w.calls ==>
      CallSound(w.calls[c].call) && w.calls[c].ctx in w.ctxs && w.ctxs[w.calls[c].ctx].open
  }

  lemma StayingReplaces(sm: Sm, h: Holder)
    requires Knows(sm, h)
    ensures Replaces(sm, sm, h, h)
  {
  }

  lemma AcquireSectionWords(dev: Device, ctx: Context, req: Request)
    requires req.AcquireReq?
    ensures var r, reply := AcquireSection(dev, ctx, req), Acquire(dev.sm, ctx.holder, req.profile);
            && (r.call.Some? ==> r.call.value.AcquireCall? && r.call.value.holder.profile != NoProfile)
            && if r.err == Ok then reply.err == Ok && r.dev.sm == reply.sm && r.ctx.holder == reply.holder
               else r.dev == dev && r.ctx == ctx
  {
  }

  lemma TransitionSectionWords(dev: Device, ctx: Context, req: Request)
    requires req.TransitionReq?
    ensures var r := TransitionSection(dev, ctx, req);
            var reply := Transition(dev.sm, ctx.holder, req.op, ctx.direct, ctx.transfers, ctx.bars, dev.slotDomain.Some?);
            && (r.call.Some? ==>
                  && r.call.value == TransitionCall(dev.sm, reply.sm, ctx.holder, reply.holder)
                  && ctx.holder.profile.IsPublisher() && reply.holder.profile == ctx.holder.profile
                  && (ctx.holder.phase == Prepared ==> reply.holder == ctx.holder))
            && (r.err == EUCLEAN ==> reply.err == EUCLEAN)
            && if r.err == Ok then r.dev.sm == reply.sm && r.ctx.holder == reply.holder
               else r.dev == dev && r.ctx == ctx
  {
  }

  lemma DirectBeginWords(dev: Device, ctx: Context)
    ensures var r, reply := DirectBeginSection(dev, ctx), AuthorizeDirect(dev.sm, ctx.holder, dev.state.Some?);
            && r.call == None
            && ((r.dev.sm == reply.sm && r.ctx.holder == reply.holder) || (r.dev.sm == dev.sm && r.ctx.holder == ctx.holder))
  {
  }

  lemma OtherSectionsWords(dev: Device, ctx: Context, req: Request)
    requires !req.AcquireReq? && !req.TransitionReq? && !req.DirectBegin?
    ensures var r := Serve(dev, ctx, req);
            && r.dev.sm == dev.sm && r.ctx.holder == ctx.holder
            && (r.call.Some? ==> !r.call.value.TransitionCall? && !r.call.value.AcquireCall?)
  {
  }

  lemma AcquireSectionReplaces(dev: Device, ctx: Context, req: Request)
    requires Knows(dev.sm, ctx.holder) && req.AcquireReq?
    ensures var r := AcquireSection(dev, ctx, req); Replaces(dev.sm, r.dev.sm, ctx.holder, r.ctx.holder)
  {
    StayingReplaces(dev.sm, ctx.holder);
    AcquireSectionWords(dev, ctx, req);
    AcquireReplaces(dev.sm, ctx.holder, req.profile);
  }

  lemma TransitionSectionReplaces(dev: Device, ctx: Context, req: Request)
    requires Knows(dev.sm, ctx.holder) && req.TransitionReq?
    ensures var r := TransitionSection(dev, ctx, req);
            && Replaces(dev.sm, r.dev.sm, ctx.holder, r.ctx.holder) && (r.call.Some? ==> CallSound(r.call.value))
            && r.err != EUCLEAN
  {
    StayingReplaces(dev.sm, ctx.holder);
    TransitionSectionWords(dev, ctx, req);
    TransitionReplaces(dev.sm, ctx.holder, req.op, ctx.direct, ctx.transfers, ctx.bars, dev.slotDomain.Some?);
  }

  lemma DirectBeginReplaces(dev: Device, ctx: Context)
    requires Knows(dev.sm, ctx.holder)
    ensures var r := DirectBeginSection(dev, ctx); Replaces(dev.sm, r.dev.sm, ctx.holder, r.ctx.holder)
  {
    StayingReplaces(dev.sm, ctx.holder);
    DirectBeginWords(dev, ctx);
    AuthorizeReplaces(dev.sm, ctx.holder, dev.state.Some?);
  }

  /** Every section replaces one holder's words and the machine's consistently, or leaves both. */
  lemma ServeReplaces(dev: Device, ctx: Context, req: Request)
    requires Knows(dev.sm, ctx.holder)
    ensures var r := Serve(dev, ctx, req);
            && Replaces(dev.sm, r.dev.sm, ctx.holder, r.ctx.holder) && (r.call.Some? ==> CallSound(r.call.value))
            && (req.TransitionReq? ==> r.err != EUCLEAN)
  {
    if req.AcquireReq? {
      AcquireSectionReplaces(dev, ctx, req);
      AcquireSectionWords(dev, ctx, req);
    } else if req.TransitionReq? {
      TransitionSectionReplaces(dev, ctx, req);
    } else if req.DirectBegin? {
      DirectBeginReplaces(dev, ctx);
      DirectBeginWords(dev, ctx);
    } else {
      StayingReplaces(dev.sm, ctx.holder);
      OtherSectionsWords(dev, ctx, req);
    }
  }

  lemma TakeBackReplaces(dev: Device, ctx: Context, call: Call)
    requires Knows(dev.sm, ctx.holder) && CallSound(call)
    ensures var r := TakeBack(dev, ctx, call); Replaces(dev.sm, r.0.sm, ctx.holder, r.1.holder)
  {
    StayingReplaces(dev.sm, ctx.holder);
    if call.AcquireCall? {
      ReleaseReplaces(dev.sm, ctx.holder);
    } else {
      UndoReplaces(dev, ctx, call);
    }
  }

  lemma UndoReplaces(dev: Device, ctx: Context, call: Call)
    requires Replaces(dev.sm, dev.sm, ctx.holder, ctx.holder) && CallSound(call) && !call.AcquireCall?
    ensures var r := TakeBack(dev, ctx, call); Replaces(dev.sm, r.0.sm, ctx.holder, r.1.holder)
  {
  }

  lemma HoldingsUpdate(w: World, w': World, id: nat, ctx: Context)
    requires w'.ctxs == w.ctxs[id := ctx]
    ensures Holdings(w') == Holdings(w)[id := ctx.holder]
    ensures id in w.ctxs && w.ctxs[id].holder == ctx.holder ==> Holdings(w') == Holdings(w)
  {
  }

  lemma HoldingsRemove(w: World, w': World, id: nat)
    requires w'.ctxs == w.ctxs - {id}
    ensures Holdings(w') == Holdings(w)[id := FRESH_HOLDER] - {id}
  {
  }

  lemma DropKeepsCounts(w: World, id: nat, ctx: Context)
    requires Inv(w.dev.sm, Holdings(w)) && id in w.ctxs && ctx.holder == w.ctxs[id].holder
    ensures var w' := DropReference(w, id, ctx); Inv(w'.dev.sm, Holdings(w'))
  {
    var w' := DropReference(w, id, ctx);
    if ctx.refs != 1 {
      HoldingsUpdate(w, w', id, ctx.(refs := Dec(ctx.refs)));
    } else {
      HoldingsRemove(w, w', id);
      ReleaseKeeps(w.dev.sm, Holdings(w), id);
      ForgetKeeps(w'.dev.sm, Holdings(w)[id := FRESH_HOLDER], id);
    }
  }

  lemma SectionKeepsInv(w: World, s: Step)
    requires Inv(w.dev.sm, Holdings(w)) && Enabled(w, s) && s.Section?
    ensures var w' := Next(w, s); Inv(w'.dev.sm, Holdings(w'))
  {
    var r := Serve(w.dev, w.ctxs[s.id], s.req);
    InvKnows(w.dev.sm, Holdings(w), s.id);
    ServeReplaces(w.dev, w.ctxs[s.id], s.req);
    ReplaceKeeps(w.dev.sm, r.dev.sm, Holdings(w), s.id, r.ctx.holder);
    HoldingsUpdate(w, Next(w, s), s.id, r.ctx);
  }

  lemma FaultKeepsInv(w: World, s: Step)
    requires Inv(w.dev.sm, Holdings(w)) && CallsSound(w) && Enabled(w, s) && s.Fault?
    ensures var w' := Next(w, s); Inv(w'.dev.sm, Holdings(w'))
  {
    var id, call := w.calls[s.call].ctx, w.calls[s.call].call;
    var (dev, ctx) := TakeBack(w.dev, w.ctxs[id], call);
    InvKnows(w.dev.sm, Holdings(w), id);
    TakeBackReplaces(w.dev, w.ctxs[id], call);
    ReplaceKeeps(w.dev.sm, dev.sm, Holdings(w), id, ctx.holder);
    HoldingsUpdate(w, Next(w, s), id, ctx);
  }

  /** Steps in which no lock section of the lease runs leave all holders as they are. */
  lemma QuietKeepsHoldings(w: World, s: Step)
    requires Enabled(w, s) && (s.Look? || s.Deliver? || s.TransferPut? || s.BarClose? || s.Remove?)
    ensures Holdings(Next(w, s)) == Holdings(w) && Next(w, s).dev.sm == w.dev.sm
  {
  }

  lemma OpenKeepsInv(w: World, s: Step)
    requires Inv(w.dev.sm, Holdings(w)) && Enabled(w, s) && s.Open?
    ensures var w' := Next(w, s); Inv(w'.dev.sm, Holdings(w'))
  {
    OpenKeeps(w.dev.sm, Holdings(w), s.id);
    if !w.dev.removed { HoldingsUpdate(w, Next(w, s), s.id, FRESH_CONTEXT); }
  }

  lemma StepKeepsInv(w: World, s: Step)
    requires Inv(w.dev.sm, Holdings(w)) && CallsSound(w) && Enabled(w, s)
    ensures var w' := Next(w, s); Inv(w'.dev.sm, Holdings(w'))
  {
    if s.Open? {
      OpenKeepsInv(w, s);
    } else if s.Section? {
      SectionKeepsInv(w, s);
    } else if s.Fault? {
      FaultKeepsInv(w, s);
    } else if s.RefPut? {
      DropKeepsCounts(w, s.id, w.ctxs[s.id].(owed := w.ctxs[s.id].owed - 1));
    } else if s.Close? {
      DropKeepsCounts(w, s.id, w.ctxs[s.id].(open := false));
    } else {
      QuietKeepsHoldings(w, s);
    }
  }
}
