/** Mappings of the device's register window into processes, their accounting across fork, split and close, and
    their exclusion of kernel-driven mailboxes. */
module BarMaps {

  import opened Counting

  const U32_MAX: nat := 0xffff_ffff
  const MAX_MAILBOXES: nat := 80

  /** One mmap() call: the file it is charged to, and its live areas. */
  datatype MapObject = MapObject(owner: nat, refs: nat)

  /** A registration that passed its first check and is building its mailboxes outside the lock. */
  datatype Registration = Registration(qid: nat, address: nat)

  /** `areas` are the live memory areas with the mapping they descend from; `charged` is each file's mapping count;
      `mailboxes` are the registered queues with their context address, `reserved` the queue the driver keeps for itself. */
  datatype System = System(areas: map<nat, nat>, objects: map<nat, MapObject>, count: nat, charged: map<nat, nat>,
                           mailboxes: map<nat, nat>, building: map<nat, Registration>, reserved: int, enabled: bool)

  datatype Step =
    | Mmap(area: nat, mapping: nat, ctx: nat, valid: bool)
    | OpenArea(area: nat, of: nat)
    | CloseArea(area: nat)
    | Uncharge(mapping: nat)
    | RegisterBegin(call: nat, qid: nat, address: nat)
    | RegisterCommit(call: nat, built: bool)
    | Disable

  function Charge(w: System, ctx: nat): (n: nat) {
    if ctx in w.charged then w.charged[ctx] else 0
  }

  /** A fork or split happens to a live area; a mapping is uncharged once, after its last area closed. */
  predicate Enabled(w: System, s: Step) {
    match s
    case Mmap(area, mapping, _, _) => area !in w.areas && mapping !in w.objects
    case OpenArea(area, of) => area !in w.areas && of in w.areas && w.areas[of] in w.objects
    case CloseArea(area) => area in w.areas && w.areas[area] in w.objects
    case Uncharge(mapping) => mapping in w.objects && w.objects[mapping].refs == 0
    case RegisterBegin(call, qid, _) => call !in w.building && qid < MAX_MAILBOXES
    case RegisterCommit(call, _) => call in w.building
    case Disable => true
  }

  function Next(w: System, s: Step): (w': System)
    requires Enabled(w, s)
  {
    match s
    case Mmap(area, mapping, ctx, valid) =>
      if !w.enabled || w.mailboxes != map[] || !valid || Charge(w, ctx) == U32_MAX then w
      else
        w.(areas := w.areas[area := mapping], objects := w.objects[mapping := MapObject(ctx, 1)], count := w.count + 1,
           charged := w.charged[ctx := Charge(w, ctx) + 1])
    case OpenArea(area, of) =>
      var mapping := w.areas[of];
      w.(areas := w.areas[area := mapping], count := w.count + 1,
         objects := w.objects[mapping := w.objects[mapping].(refs := w.objects[mapping].refs + 1)])
    case CloseArea(area) =>
      var mapping := w.areas[area];
      w.(areas := w.areas - {area}, count := Less(w.count),
         objects := w.objects[mapping := w.objects[mapping].(refs := Less(w.objects[mapping].refs))])
    case Uncharge(mapping) =>
      var ctx := w.objects[mapping].owner;
      w.(objects := w.objects - {mapping}, charged := w.charged[ctx := Less(Charge(w, ctx))])
    case RegisterBegin(call, qid, address) =>
      if qid == w.reserved || w.count > 0 || qid in w.mailboxes then w
      else w.(building := w.building[call := Registration(qid, address)])
    case RegisterCommit(call, built) =>
      var r := w.building[call];
      var w' := w.(building := w.building - {call});
      if !built || w.count > 0 || r.qid in w.mailboxes then w'
      else w'.(mailboxes := w.mailboxes[r.qid := r.address])
    case Disable => w.(enabled := false)
  }

  function Less(n: nat): nat {
    if n > 0 then n - 1 else 0
  }

  ghost predicate Init(w: System) {
    w == System(map[], map[], 0, map[], map[], map[], w.reserved, true)
  }

  ghost predicate Run(ws: seq<System>, steps: seq<Step>) {
    && |ws| == |steps| + 1 && Init(ws[0])
    && forall k :: 0 <= k < |steps| ==> Enabled(ws[k], steps[k]) && ws[k + 1] == Next(ws[k], steps[k])
  }

  // ---------------------------------------------------------------------------------------------
  // Accounting
  // ---------------------------------------------------------------------------------------------

  function Of(mapping: nat): nat -> bool { (o: nat) => o == mapping }
  function OwnedBy(ctx: nat): MapObject -> bool { (m: MapObject) => m.owner == ctx }

  /** The device-wide count is the number of live areas, and no area lives beside a registered mailbox. */
  predicate CountRight(w: System) {
    w.count == |w.areas| && (w.areas == map[] || w.mailboxes == map[])
  }

  /** Every area belongs to a mapping, which counts its areas. */
  ghost predicate AreasRight(w: System) {
    && (forall a :: a in w.areas ==> w.areas[a] in w.objects)
    && (forall o :: o in w.objects ==> w.objects[o].refs == Count(w.areas, Of(o)))
  }

  /** Every file is charged for exactly its mappings that have not been uncharged. */
  ghost predicate ChargesRight(w: System) {
    forall ctx: nat :: Charge(w, ctx) == Count(w.objects, OwnedBy(ctx))
  }

  ghost predicate Accounted(w: System) {
    CountRight(w) && AreasRight(w) && ChargesRight(w)
  }

  /** Mappings and mailboxes never coexist: each side checks the other under the lock, and a registration checks again
      after building. */
  lemma StepKeepsCount(w: System, s: Step)
    requires CountRight(w) && Enabled(w, s)
    ensures CountRight(Next(w, s))
  {
  }

  lemma AreaAdded(areas: map<nat, nat>, area: nat, mapping: nat, o: nat)
    requires area !in areas
    ensures Count(areas[area := mapping], Of(o)) == Count(areas, Of(o)) + One(o == mapping)
  {
    CountUpdate(areas, area, mapping, Of(o));
  }

  lemma NoArea(w: System, o: nat)
    requires AreasRight(w) && (o !in w.objects || w.objects[o].refs == 0)
    ensures Count(w.areas, Of(o)) == 0 && forall a :: a in w.areas ==> w.areas[a] != o
  {
    if Count(w.areas, Of(o)) > 0 {
      var a := CountWitness(w.areas, Of(o));
    }
    forall a | a in w.areas ensures w.areas[a] != o { CountAtLeast(w.areas, a, Of(o)); }
  }

  lemma MmapKeepsAreas(w: System, s: Step)
    requires AreasRight(w) && Enabled(w, s) && s.Mmap? && Next(w, s) != w
    ensures AreasRight(Next(w, s))
  {
    var w' := Next(w, s);
    NoArea(w, s.mapping);
    forall o | o in w'.objects ensures w'.objects[o].refs == Count(w'.areas, Of(o)) {
      AreaAdded(w.areas, s.area, s.mapping, o);
    }
  }

  lemma StepKeepsAreas(w: System, s: Step)
    requires AreasRight(w) && Enabled(w, s)
    ensures AreasRight(Next(w, s))
  {
    var w' := Next(w, s);
    if s.Mmap? && w' != w {
      MmapKeepsAreas(w, s);
    } else if s.OpenArea? {
      forall o | o in w'.objects ensures w'.objects[o].refs == Count(w'.areas, Of(o)) {
        AreaAdded(w.areas, s.area, w.areas[s.of], o);
      }
    } else if s.CloseArea? {
      forall o | o in w'.objects ensures w'.objects[o].refs == Count(w'.areas, Of(o)) {
        CountRemove(w.areas, s.area, Of(o));
      }
    } else if s.Uncharge? {
      NoArea(w, s.mapping);
    }
  }

  lemma StepKeepsCharges(w: System, s: Step)
    requires ChargesRight(w) && Enabled(w, s)
    ensures ChargesRight(Next(w, s))
  {
    var w' := Next(w, s);
    if s.Mmap? && w' != w {
      forall c: nat ensures Charge(w', c) == Count(w'.objects, OwnedBy(c)) {
        CountUpdate(w.objects, s.mapping, MapObject(s.ctx, 1), OwnedBy(c));
      }
    } else if s.OpenArea? || s.CloseArea? {
      var o := w.areas[if s.OpenArea? then s.of else s.area];
      forall c: nat ensures Charge(w', c) == Count(w'.objects, OwnedBy(c)) {
        CountUpdate(w.objects, o, w'.objects[o], OwnedBy(c));
      }
    } else if s.Uncharge? {
      forall c: nat ensures Charge(w', c) == Count(w'.objects, OwnedBy(c)) {
        CountRemove(w.objects, s.mapping, OwnedBy(c));
        CountAtLeast(w.objects, s.mapping, OwnedBy(c));
      }
    }
  }

  lemma {:induction false} RunsAreAccounted(ws: seq<System>, steps: seq<Step>, k: nat)
    requires Run(ws, steps) && k < |ws|
    ensures Accounted(ws[k])
  {
    if k == 0 {
      forall c: nat ensures Count(ws[0].objects, OwnedBy(c)) == 0 { assert Matching(ws[0].objects, OwnedBy(c)) == {}; }
    } else {
      RunsAreAccounted(ws, steps, k - 1);
      StepKeepsCount(ws[k - 1], steps[k - 1]);
      StepKeepsAreas(ws[k - 1], steps[k - 1]);
      StepKeepsCharges(ws[k - 1], steps[k - 1]);
    }
  }

  /** A state some run leads to. */
  ghost predicate Reached(w: System) {
    exists ws, steps :: Run(ws, steps) && ws[|steps|] == w
  }

  lemma ReachedIsAccounted(w: System)
    requires Reached(w)
    ensures Accounted(w)
  {
    var ws, steps :| Run(ws, steps) && ws[|steps|] == w;
    RunsAreAccounted(ws, steps, |steps|);
  }

  /** A live area, in whatever process it ended up, is charged to the file that made the mapping, and nobody has
      registered a mailbox. */
  lemma LiveAreaIsCharged(w: System, a: nat)
    requires Reached(w) && a in w.areas
    ensures w.areas[a] in w.objects && Charge(w, w.objects[w.areas[a]].owner) > 0 && w.mailboxes == map[] && w.count > 0
  {
    ReachedIsAccounted(w);
    var o := w.areas[a];
    CountAtLeast(w.objects, o, OwnedBy(w.objects[o].owner));
  }

  /** A mapping is uncharged when its last area has gone, and its areas are then really gone. */
  lemma UnchargedHasNoArea(w: System, o: nat)
    requires Reached(w) && Enabled(w, Uncharge(o))
    ensures forall a :: a in w.areas ==> w.areas[a] != o
  {
    ReachedIsAccounted(w);
    NoArea(w, o);
  }
}
