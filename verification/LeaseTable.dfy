/** The device lease with all its open files, as the driver keeps them: records updated in place. Every operation is a
    step of the protocol, so whatever holds of every run holds of these records. */
module LeaseTable {

  import opened LeaseMachine
  import opened LeaseCode
  import opened LeaseSections
  import opened LeaseMethods
  import opened LeaseWorld
  import opened LeaseReferences
  import opened Options

  class Table {
    const device: DeviceLease
    var files: map<nat, FileContext>
    var transfers: map<nat, Transfer>
    var calls: map<nat, Pending>

    constructor (incarnation: nat)
      requires incarnation != 0
      ensures Separate() && Init(Current()) && fresh(device) && fresh(device.state)
    {
      device := new DeviceLease(incarnation);
      files, transfers, calls := map[], map[], map[];
    }

    /** Every file has records of its own. */
    ghost predicate Separate()
      reads this`files, files.Values
    {
      forall i, j :: i in files && j in files && i != j ==> files[i] != files[j] && files[i].lease != files[j].lease
    }

    ghost function Leases(): (ls: set<HolderRecord>)
      reads this`files, files.Values
    {
      set i | i in files :: files[i].lease
    }

    ghost function Contexts(): (cs: map<nat, Context>)
      reads this`files, files.Values, Leases()
    {
      map i | i in files :: files[i].Value()
    }

    /** The world these records stand for. */
    ghost function Current(): (w: World)
      reads this, device, device.state, files.Values, Leases()
    {
      World(device.Value(), Contexts(), transfers, calls)
    }

    /** `mxdma_device_open` */
    method OpenFile(id: nat)
      requires Separate() && id !in files
      modifies this`files
      ensures Separate() && Contexts() == if device.removed then old(Contexts()) else old(Contexts())[id := FRESH_CONTEXT]
    {
      if device.removed { return; }
      var ctx := new FileContext();
      files := files[id := ctx];
    }

    /** The lock section of a request, on the file's own records. */
    method Locked(ctx: FileContext, req: Request) returns (err: Errno, call: Option<Call>)
      requires req.DirectEnd? || req.BarMap? ==> ctx.direct > 0
      modifies device, device.state, ctx, ctx.lease
      ensures Outcome(err, device.Value(), ctx.Value(), call)
           == LeaseSections.Serve(old(device.Value()), old(ctx.Value()), req)
    {
      call := None;
      err := Ok;
      match req {
        case AcquireReq(_, _, _, _, _) => err, call := device.AcquireLocked(ctx, req);
        case TransitionReq(_, _, _) => err, call := device.TransitionLocked(ctx, req);
        case AnchorReq(_, _, _, _) => err, call := device.AnchorLocked(ctx, req);
        case BindReq(_, _, _, _, _, _, _, _, _, _, _) => err, call := device.BindLocked(ctx, req);
        case UnbindReq(_, _, _, _, _, _) => err, call := device.UnbindLocked(ctx, req);
        case DirectBegin => err := device.BeginDirect(ctx);
        case DirectEnd => ctx.direct := ctx.direct - 1;
        case TransferGet(_) =>
          var slotPin, lifetimePin;
          err, slotPin, lifetimePin := device.GetTransfer(ctx);
        case BarMap =>
          if ctx.bars == U32_MAX { return EOVERFLOW, None; }
          ctx.refs, ctx.bars := ctx.refs + 1, ctx.bars + 1;
      }
    }

    /** Only one file's records have changed. */
    twostate lemma OnlyOne(id: nat)
      requires Separate() && files == old(files) && id in files
      requires forall i :: i in files && i != id ==> unchanged(files[i], files[i].lease)
      ensures Contexts() == old(Contexts())[id := files[id].Value()]
    {
    }

    /** One call's lock section, and what it leaves: the call, and the transfer it may have begun. */
    method ServeSection(id: nat, call: nat, req: Request) returns (err: Errno)
      requires Separate() && id in files && (req.DirectEnd? || req.BarMap? ==> files[id].direct > 0)
      modifies this`transfers, this`calls, device, device.state, files[id], files[id].lease
      ensures Separate()
      ensures var r := LeaseSections.Serve(old(device.Value()), old(files[id].Value()), req);
              Current() == AfterSection(old(Current()), id, call, req, r)
    {
      var p := files[id].proofs;
      var made;
      err, made := Locked(files[id], req);
      Keep(id, call, req, err, made, p);
      OnlyOne(id);
    }

    method Keep(id: nat, call: nat, req: Request, err: Errno, made: Option<Call>, p: Proofs)
      modifies this`transfers, this`calls
      ensures transfers == TransfersAfter(old(transfers), id, req, err, p) && calls == CallsAfter(old(calls), id, call, made)
    {
      if req.TransferGet? && err == Ok {
        transfers := transfers[req.transfer := Transfer(id, p.slot, p.tag, p.slotProof, p.lifetimeProof)];
      }
      calls := if made.Some? then calls[call := Pending(id, made.value)] else calls - {call};
    }

    /** The end of a call whose reply could not be copied out. */
    method TakeBackLocked(ctx: FileContext, call: Call)
      modifies device, device.state, ctx, ctx.lease
      ensures (device.Value(), ctx.Value()) == TakeBack(old(device.Value()), old(ctx.Value()), call)
    {
      match call {
        case AcquireCall(_, _, _, _) => device.TakeBackAcquire(ctx, call);
        case TransitionCall(_, _, _, _) => device.TakeBackTransition(ctx, call);
        case AnchorCall(_, _) => device.TakeBackAnchor(ctx, call);
        case BindCall(_, _) => device.TakeBackProofs(ctx, call);
        case UnbindCall(_) => device.TakeBackProofs(ctx, call);
        case Looked(_) =>
      }
    }

    method FaultCall(call: nat)
      requires Separate() && call in calls && calls[call].ctx in files
      modifies this`calls, device, device.state, files[calls[call].ctx], files[calls[call].ctx].lease
      ensures Separate() && Current() == AfterFault(old(Current()), call)
    {
      var id, made := calls[call].ctx, calls[call].call;
      TakeBackLocked(files[id], made);
      calls := calls - {call};
      OnlyOne(id);
    }

    /** `mx_lease_transfer_put`, up to its reference on the file. */
    method PutTransfer(t: nat)
      requires Separate() && t in transfers && transfers[t].ctx in files
      modifies this`transfers, files[transfers[t].ctx]
      ensures Separate() && Current() == AfterTransferPut(old(Current()), t)
    {
      var id := transfers[t].ctx;
      EndTransfer(files[id]);
      transfers := transfers - {t};
      OnlyOne(id);
    }

    static method EndTransfer(file: FileContext)
      modifies file
      ensures var ctx := old(file.Value()); file.Value() == ctx.(transfers := Dec(ctx.transfers), owed := ctx.owed + 1)
    {
      file.transfers, file.owed := Dec(file.transfers), file.owed + 1;
    }

    /** The accounting of the last `mx_bar_vma_close` of a mapping, up to its reference on the file. */
    method CloseBar(id: nat)
      requires Separate() && id in files
      modifies files[id]
      ensures Separate() && Current() == AfterBarClose(old(Current()), id)
    {
      var ctx := files[id];
      ctx.bars, ctx.owed := Dec(ctx.bars), ctx.owed + 1;
      OnlyOne(id);
    }

    /** What the put of a reference leaves of a file: the file's own, or one owed since a transfer or mapping ended. */
    ghost function Dropped(ctx: Context, closing: bool): (ctx': Context) {
      if closing then ctx.(open := false) else ctx.(owed := Dec(ctx.owed))
    }

    /** `mx_file_ctx_put`: the last reference releases the lease and frees the context. */
    method PutReference(id: nat, closing: bool)
      requires Separate() && id in files && files[id].refs > 0
      modifies this`files, device.state, files[id], files[id].lease
      ensures Separate() && Current() == DropReference(old(Current()), id, Dropped(old(files[id].Value()), closing))
    {
      if files[id].refs == 1 { FreeFile(id); } else { PutShared(id, closing); }
    }

    method PutShared(id: nat, closing: bool)
      requires Separate() && id in files && files[id].refs > 1
      modifies files[id]
      ensures Separate()
      ensures var ctx := Dropped(old(files[id].Value()), closing);
              Contexts() == old(Contexts())[id := ctx.(refs := ctx.refs - 1)]
    {
      var file := files[id];
      if closing { file.open := false; } else { file.owed := Dec(file.owed); }
      file.refs := file.refs - 1;
      OnlyOne(id);
    }

    /** `mx_file_ctx_free` */
    method FreeFile(id: nat)
      requires Separate() && id in files
      modifies this`files, device.state, files[id].lease
      ensures Separate() && device.state.Value() == Release(old(device.state.Value()), old(files[id].lease.Value())).sm
      ensures Contexts() == old(Contexts()) - {id}
    {
      device.state.ReleaseLease(files[id].lease);
      files := files - {id};
      OneLess(id);
    }

    /** Only one file's records have gone. */
    twostate lemma OneLess(id: nat)
      requires files == old(files) - {id}
      requires forall i :: i in files ==> unchanged(files[i], files[i].lease)
      ensures Contexts() == old(Contexts()) - {id}
    {
    }

    /** Any step of the protocol, on the records: the protocol's invariant holds of them afterwards. */
    method Perform(s: Step)
      requires Separate() && Sound(Current()) && Enabled(Current(), s)
      modifies this, device, device.state, files.Values, Leases()
      ensures Separate() && Current() == Next(old(Current()), s) && Sound(Current())
    {
      ghost var w := Current();
      Do(s);
      StepKeepsSound(w, s);
    }

    method Do(s: Step)
      requires Separate() && Enabled(Current(), s) && (s.RefPut? || s.Close? ==> files[s.id].refs > 0)
      modifies this, device, device.state, files.Values, Leases()
      ensures Separate() && Current() == Next(old(Current()), s)
    {
      if s.Look? || s.Section? || s.Deliver? || s.Fault? { DoCall(s); } else { DoRest(s); }
    }

    method DoCall(s: Step)
      requires Separate() && Enabled(Current(), s) && (s.Look? || s.Section? || s.Deliver? || s.Fault?)
      modifies this, device, device.state, files.Values, Leases()
      ensures Separate() && Current() == Next(old(Current()), s)
    {
      match s {
        case Look(id, call) => BeginProofs(id, call);
        case Section(id, call, req) => var _ := ServeSection(id, call, req);
        case Deliver(call) => EndCall(call);
        case Fault(call) => FaultCall(call);
      }
    }

    method DoRest(s: Step)
      requires Separate() && Enabled(Current(), s) && !s.Look? && !s.Section? && !s.Deliver? && !s.Fault?
      requires s.RefPut? || s.Close? ==> files[s.id].refs > 0
      modifies this, device, device.state, files.Values, Leases()
      ensures Separate() && Current() == Next(old(Current()), s)
    {
      match s {
        case Open(id) => OpenFile(id);
        case TransferPut(t) => PutTransfer(t);
        case BarClose(id) => CloseBar(id);
        case RefPut(id) => PutReference(id, false);
        case Close(id) => PutReference(id, true);
        case Remove => device.removed := true;
      }
    }

    /** A proof call reads its file's profile before it takes the lock. */
    method BeginProofs(id: nat, call: nat)
      requires id in files
      modifies this`calls
      ensures Contexts() == old(Contexts()) && calls == old(calls)[call := Pending(id, Looked(files[id].lease.profile))]
    {
      calls := calls[call := Pending(id, Looked(files[id].lease.profile))];
    }

    /** A call whose reply was delivered, or which failed before its section. */
    method EndCall(call: nat)
      modifies this`calls
      ensures Contexts() == old(Contexts()) && calls == old(calls) - {call}
    {
      calls := calls - {call};
    }
  }
}
