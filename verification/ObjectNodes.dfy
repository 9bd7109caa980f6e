/**
 Where the objects of attached replicas are. Attachments are on distinct nodes (Placement), but the
 data file is on the node of the object, and a create keeps an object that is there already.
 */
module ObjectNodes {
  import opened Wrappers
  import opened Names
  import opened Types
  import opened Nodes
  import opened Plan
  import opened Scale
  import opened Passes
  import opened VolumeController
  import opened Runs
  import opened Placement
  import opened Healing
  import opened CrashRetry

  /** The object of every attached replica, where there is one, sits on the attachment's node. */
  ghost predicate Agrees(w: World) {
    w.engine.Some? ==> ObjectsAgree(w.replicas, List(w))
  }

  // ---- The first pass ----

  /** The slots of the first pass. */
  function SlotsOf(w: World): seq<Slot>
    requires Target(w.volume.replicaCount, w.nodes).Ok?
  {
    FirstSlots(Settled(w), FirstWorkers(w.nodes, Target(w.volume.replicaCount, w.nodes).value))
  }

  /** The state after a whole first pass, whether or not it has to settle the volume's node. */
  lemma FirstPassEffect(w: World, now: int)
    requires w.present && !w.volume.status.engineRef && FirstPlan(w) != []
    requires Target(w.volume.replicaCount, w.nodes).Ok?
    ensures var v, slots := Settled(w), SlotsOf(w);
            && FullPass(w, now) == w.(volume := Recorded(v), replicas := Made(v, slots) + w.replicas,
                 engine := if w.engine.Some? then w.engine
                           else Some(Engine(v.nodeID, Attachments(v, slots), EnginePhase.Unset)))
  {
    var n := Target(w.volume.replicaCount, w.nodes).value;
    if w.volume.nodeID != "" {
      CreateEffect(w, n);
    } else {
      var settle := SetVolumeNode(AnyWorker(w.nodes).value);
      CreateEffect(Apply(w, settle), n);
      AfterOne(w, settle, CreatePlan(Apply(w, settle)));
    }
  }

  /**
   Exactly when a first pass leaves attachments and objects in agreement. With no engine there, it
   attaches what it creates: no leftover object of a created name may sit on another node. With an
   engine there, it attaches nothing: no object it really creates may be of a replica attached elsewhere.
   */
  lemma CreateAgreement(w: World, now: int)
    requires w.present && !w.volume.status.engineRef && FirstPlan(w) != []
    requires Target(w.volume.replicaCount, w.nodes).Ok? && Agrees(w)
    ensures var slots := SlotsOf(w);
            Agrees(FullPass(w, now)) <==>
              forall k :: 0 <= k < |slots| ==>
                var name := ReplicaName(w.volume.name, slots[k].index);
                if w.engine.None? then name in w.replicas ==> w.replicas[name].spec.node == slots[k].node
                else name !in w.replicas ==>
                       forall j :: 0 <= j < |List(w)| && List(w)[j].name == name ==> List(w)[j].node == slots[k].node
  {
    FirstPassEffect(w, now);
    if w.engine.None? {
      NewListAgrees(w.replicas, Settled(w), SlotsOf(w));
    } else {
      OldListAgrees(w, Settled(w), SlotsOf(w));
    }
  }

  lemma NewListAgrees(replicas: map<string, Replica>, v: Volume, slots: seq<Slot>)
    requires forall i, j :: 0 <= i < j < |slots| ==> slots[i].index != slots[j].index
    ensures ObjectsAgree(Made(v, slots) + replicas, Attachments(v, slots)) <==>
              forall k :: 0 <= k < |slots| ==>
                var name := ReplicaName(v.name, slots[k].index);
                name in replicas ==> replicas[name].spec.node == slots[k].node
  {
    var after, list := Made(v, slots) + replicas, Attachments(v, slots);
    forall k | 0 <= k < |slots|
      ensures list[k] == NewAttachment(ReplicaName(v.name, slots[k].index), slots[k].node) && list[k].name in after
      ensures after[list[k].name].spec.node ==
              if list[k].name in replicas then replicas[list[k].name].spec.node else slots[k].node
    {
      MadeOn(v, slots, k);
    }
  }

  lemma OldListAgrees(w: World, v: Volume, slots: seq<Slot>)
    requires w.engine.Some? && Agrees(w) && v.name == w.volume.name
    requires forall i, j :: 0 <= i < j < |slots| ==> slots[i].index != slots[j].index
    ensures ObjectsAgree(Made(v, slots) + w.replicas, List(w)) <==>
              forall k :: 0 <= k < |slots| ==>
                var name := ReplicaName(w.volume.name, slots[k].index);
                name !in w.replicas ==>
                  forall j :: 0 <= j < |List(w)| && List(w)[j].name == name ==> List(w)[j].node == slots[k].node
  {
    var after, list := Made(v, slots) + w.replicas, List(w);
    forall k | 0 <= k < |slots|
      ensures ReplicaName(v.name, slots[k].index) in Made(v, slots)
              && Made(v, slots)[ReplicaName(v.name, slots[k].index)].spec.node == slots[k].node
    {
      MadeOn(v, slots, k);
    }
    if forall k :: 0 <= k < |slots| ==>
         var name := ReplicaName(w.volume.name, slots[k].index);
         name !in w.replicas ==> forall j :: 0 <= j < |list| && list[j].name == name ==> list[j].node == slots[k].node {
      forall j | 0 <= j < |list| && list[j].name in after ensures after[list[j].name].spec.node == list[j].node {
        if list[j].name !in w.replicas {
          var k := MadeFrom(v, slots, list[j].name);
        }
      }
    }
  }

  // ---- Where objects come from ----

  predicate CreateAt(write: Write, name: string, node: string) {
    write.CreateReplica? && write.name == name && write.replica.spec.node == node
  }

  /** After a plan every object is where it was or where a create of the plan put it. */
  lemma {:induction false} ObjectOrigin(w: World, plan: seq<Write>, name: string)
    requires name in ApplyAll(w, plan).replicas
    ensures var node := ApplyAll(w, plan).replicas[name].spec.node;
            || (name in w.replicas && w.replicas[name].spec.node == node)
            || exists k :: 0 <= k < |plan| && CreateAt(plan[k], name, node)
  {
    if plan != [] {
      var n := |plan| - 1;
      var front, node := plan[..n], ApplyAll(w, plan).replicas[name].spec.node;
      if name in ApplyAll(w, front).replicas {
        ObjectOrigin(w, front, name);
        if k :| 0 <= k < |front| && CreateAt(front[k], name, node) {
          assert CreateAt(plan[k], name, node);
        }
      } else {
        assert CreateAt(plan[n], name, node);
      }
    }
  }

  predicate SameCreated(a: Write, b: Write) {
    a.CreateReplica? && b.CreateReplica? && a.name == b.name
  }

  /** The creates of a plan put a name on one node only. */
  ghost predicate OneNodeEach(plan: seq<Write>) {
    forall i, j :: 0 <= i < |plan| && 0 <= j < |plan| && SameCreated(plan[i], plan[j]) ==>
                     plan[i].replica.spec.node == plan[j].replica.spec.node
  }

  /** Every entry of the list is an old one, or the plan creates its object before the last two writes. */
  ghost predicate Sourced(w: World, plan: seq<Write>, list: seq<Attachment>) {
    forall a :: a in list ==>
      || (w.engine.Some? && a in List(w))
      || exists k :: 0 <= k < |plan| - 2 && CreateAt(plan[k], a.name, a.node)
  }

  /** No engine write but, at most, the last but one. */
  ghost predicate EngineLate(plan: seq<Write>) {
    forall k :: 0 <= k < |plan| - 2 ==> !TouchesEngine(plan[k])
  }

  /**
   A create of the pass fits: it finds no object of its name, or one on its node; and no replica of its
   name is attached on another node already.
   */
  ghost predicate CreateFits(w: World, write: Write) {
    write.CreateReplica? ==>
      && (write.name in w.replicas ==> w.replicas[write.name].spec.node == write.replica.spec.node)
      && (w.engine.Some? ==>
            forall j :: 0 <= j < |List(w)| && List(w)[j].name == write.name ==> List(w)[j].node == write.replica.spec.node)
  }

  /** The creates of a plan that are issued fit. */
  ghost predicate CreatesFit(w: World, plan: seq<Write>, cut: nat)
    requires cut <= |plan|
  {
    forall k :: 0 <= k < cut ==> CreateFits(w, plan[k])
  }

  /** An old list stays in agreement with the objects after any plan whose creates fit. */
  lemma OldListStays(w: World, plan: seq<Write>, cut: nat, a: Attachment)
    requires cut <= |plan| && CreatesFit(w, plan, cut) && Agrees(w) && w.engine.Some? && a in List(w)
    ensures var x := ApplyAll(w, plan[..cut]); a.name in x.replicas ==> x.replicas[a.name].spec.node == a.node
  {
    var x := ApplyAll(w, plan[..cut]);
    var j :| 0 <= j < |List(w)| && List(w)[j] == a;
    if a.name in x.replicas {
      ObjectOrigin(w, plan[..cut], a.name);
      if k :| 0 <= k < cut && CreateAt(plan[..cut][k], a.name, x.replicas[a.name].spec.node) {
        assert CreateFits(w, plan[k]);
      }
    }
  }

  /** A new entry agrees with its object once the create for it was issued. */
  lemma NewEntryAgrees(w: World, plan: seq<Write>, cut: nat, a: Attachment, k: nat)
    requires cut <= |plan| && CreatesFit(w, plan, cut) && OneNodeEach(plan)
    requires k < cut && CreateAt(plan[k], a.name, a.node)
    ensures var x := ApplyAll(w, plan[..cut]); a.name in x.replicas ==> x.replicas[a.name].spec.node == a.node
  {
    var x := ApplyAll(w, plan[..cut]);
    if a.name in x.replicas {
      ObjectOrigin(w, plan[..cut], a.name);
      assert CreateFits(w, plan[k]);
      if j :| 0 <= j < cut && CreateAt(plan[..cut][j], a.name, x.replicas[a.name].spec.node) {
        assert SameCreated(plan[j], plan[k]);
      }
    }
  }

  /** A list of old entries only. */
  lemma OldEntriesAgree(w: World, plan: seq<Write>, cut: nat)
    requires cut <= |plan| && CreatesFit(w, plan, cut) && Agrees(w)
    requires var x := ApplyAll(w, plan[..cut]);
             x.engine.Some? ==> w.engine.Some? && forall a :: a in List(x) ==> a in List(w)
    ensures Agrees(ApplyAll(w, plan[..cut]))
  {
    var x := ApplyAll(w, plan[..cut]);
    if x.engine.Some? {
      forall i | 0 <= i < |List(x)|
        ensures List(x)[i].name in x.replicas ==> x.replicas[List(x)[i].name].spec.node == List(x)[i].node
      {
        OldListStays(w, plan, cut, List(x)[i]);
      }
    }
  }

  /** From the shape of a plan that extends the list: whatever part of it is issued, agreement is kept. */
  lemma NewEntriesAgree(w: World, plan: seq<Write>, cut: nat, list: seq<Attachment>)
    requires cut <= |plan| && CreatesFit(w, plan, cut) && Agrees(w)
    requires OneNodeEach(plan) && Sourced(w, plan, list) && EngineLate(plan)
    requires var x := ApplyAll(w, plan[..cut]); x.engine == w.engine || (x.engine.Some? && List(x) == list)
    ensures Agrees(ApplyAll(w, plan[..cut]))
  {
    var x := ApplyAll(w, plan[..cut]);
    if x.engine == w.engine {
      OldEntriesAgree(w, plan, cut);
    } else {
      if cut <= |plan| - 2 {
        EngineUntouched(w, plan[..cut]);
      }
      forall i | 0 <= i < |list|
        ensures list[i].name in x.replicas ==> x.replicas[list[i].name].spec.node == list[i].node
      {
        if w.engine.Some? && list[i] in List(w) {
          OldListStays(w, plan, cut, list[i]);
        } else {
          var k :| 0 <= k < |plan| - 2 && CreateAt(plan[k], list[i].name, list[i].node);
          NewEntryAgrees(w, plan, cut, list[i], k);
        }
      }
    }
  }

  // ---- The shapes of the plans ----

  lemma CreatesOneNodeEach(v: Volume, slots: seq<Slot>, before: seq<Write>, after: seq<Write>)
    requires forall i, j :: 0 <= i < j < |slots| ==> slots[i].index != slots[j].index
    requires forall i :: 0 <= i < |before| ==> !before[i].CreateReplica?
    requires forall i :: 0 <= i < |after| ==> !after[i].CreateReplica?
    ensures OneNodeEach(before + Creates(v, slots) + after)
  {
    var plan, b := before + Creates(v, slots) + after, |before|;
    forall i, j | 0 <= i < |plan| && 0 <= j < |plan| && SameCreated(plan[i], plan[j])
      ensures plan[i].replica.spec.node == plan[j].replica.spec.node
    {
      assert b <= i < b + |slots| && b <= j < b + |slots|;
      ReplicaNameInjective(v.name, slots[i - b].index, v.name, slots[j - b].index);
    }
  }

  lemma CreatesSource(w: World, v: Volume, slots: seq<Slot>, before: seq<Write>, after: seq<Write>)
    requires |after| == 2
    ensures Sourced(w, before + Creates(v, slots) + after, Attachments(v, slots))
  {
    var plan, list := before + Creates(v, slots) + after, Attachments(v, slots);
    forall a | a in list ensures exists k :: 0 <= k < |plan| - 2 && CreateAt(plan[k], a.name, a.node) {
      var i :| 0 <= i < |list| && list[i] == a;
      assert CreateAt(plan[|before| + i], a.name, a.node);
    }
  }

  function FirstWrites(w: World): seq<Write> {
    if w.volume.nodeID != "" then [] else [SetVolumeNode(Settled(w).nodeID)]
  }

  function LastWrites(w: World): seq<Write>
    requires Target(w.volume.replicaCount, w.nodes).Ok?
  {
    var v := Settled(w);
    [CreateEngine(Engine(v.nodeID, FirstList(w), EnginePhase.Unset)),
     SetVolumeStatus(v.status.(engineRef := true, phase := VolumePhase.Creating))]
  }

  /** The plan of a first pass: settle the node, create the objects, create the engine, record it. */
  lemma FirstPlanParts(w: World)
    requires FirstPlan(w) != [] && Target(w.volume.replicaCount, w.nodes).Ok?
    ensures FirstPlan(w) == FirstWrites(w) + Creates(Settled(w), SlotsOf(w)) + LastWrites(w)
  {
    CreatePlanParts(w.(volume := Settled(w)));
    FirstPlanFromCreate(w);
  }

  lemma FirstPlanFromCreate(w: World)
    requires FirstPlan(w) != []
    ensures FirstPlan(w) == FirstWrites(w) + CreatePlan(w.(volume := Settled(w)))
  {
  }

  lemma CreatePlanParts(w: World)
    requires Target(w.volume.replicaCount, w.nodes).Ok? && w.volume == Settled(w)
    ensures CreatePlan(w) == Creates(w.volume, SlotsOf(w)) + LastWrites(w)
  {
  }

  lemma PartsEngineLate(before: seq<Write>, v: Volume, slots: seq<Slot>, after: seq<Write>)
    requires |after| == 2 && forall i :: 0 <= i < |before| ==> !TouchesEngine(before[i])
    ensures EngineLate(before + Creates(v, slots) + after)
  {
  }

  lemma FirstPlanShape(w: World)
    requires FirstPlan(w) != [] && Target(w.volume.replicaCount, w.nodes).Ok?
    ensures OneNodeEach(FirstPlan(w)) && Sourced(w, FirstPlan(w), FirstList(w)) && EngineLate(FirstPlan(w))
  {
    FirstPlanParts(w);
    CreatesOneNodeEach(Settled(w), SlotsOf(w), FirstWrites(w), LastWrites(w));
    CreatesSource(w, Settled(w), SlotsOf(w), FirstWrites(w), LastWrites(w));
    PartsEngineLate(FirstWrites(w), Settled(w), SlotsOf(w), LastWrites(w));
  }

  /** The plan of an upkeep pass that scales up. */
  lemma ScaleUpShape(w: World, now: int, desired: nat)
    requires UpkeepDue(w) && Target(w.volume.replicaCount, w.nodes) == Ok(desired) && |List(w)| < desired
    ensures var plan := PassPlan(w, now);
            OneNodeEach(plan) && Sourced(w, plan, ListAfter(w, now)) && EngineLate(plan)
  {
    var list, types, y := List(w), Corrections(w), Typed(w);
    TypePlanTypesOnly(w, list, 0);
    PassInParts(w, now, 0);
    var slots := NewSlots(y, list, desired);
    FreshIndices(y, list, desired);
    var after := [SetAttachments(list + Attachments(y.volume, slots)),
                  SetVolumeStatus(y.volume.status.(phase := VolumePhase.Degraded))];
    assert PassPlan(w, now) == types + Creates(y.volume, slots) + after;
    CreatesOneNodeEach(y.volume, slots, types, after);
    CreatesSource(w, y.volume, slots, types, after);
  }

  // ---- One pass, one run ----

  /** A list that is not extended holds old entries only. */
  lemma ListAfterIsPart(w: World, now: int)
    requires UpkeepDue(w)
    requires var t := Target(w.volume.replicaCount, w.nodes); t.Ok? ==> t.value <= |List(w)|
    ensures forall a :: a in ListAfter(w, now) ==> a in List(w)
  {
  }

  lemma UpkeepKeepsAgreement(w: World, now: int, cut: nat)
    requires UpkeepDue(w) && cut <= |PassPlan(w, now)| && CreatesFit(w, PassPlan(w, now), cut) && Agrees(w)
    ensures Agrees(CutPass(w, now, cut))
  {
    var t := Target(w.volume.replicaCount, w.nodes);
    ListIsAtomic(w, now, cut);
    if t.Ok? && t.value > |List(w)| {
      ScaleUpShape(w, now, t.value);
      NewEntriesAgree(w, PassPlan(w, now), cut, ListAfter(w, now));
    } else {
      ListAfterIsPart(w, now);
      OldEntriesAgree(w, PassPlan(w, now), cut);
    }
  }

  /** A pass, cut off anywhere, keeps agreement if the creates it issues fit. */
  lemma PassKeepsAgreement(w: World, now: int, cut: nat)
    requires cut <= |PassPlan(w, now)| && CreatesFit(w, PassPlan(w, now), cut) && Agrees(w)
    ensures Agrees(CutPass(w, now, cut))
  {
    if UpkeepDue(w) {
      UpkeepKeepsAgreement(w, now, cut);
    } else {
      OtherPasses(w, now, cut);
      if CutPass(w, now, cut).engine == w.engine {
        OldEntriesAgree(w, PassPlan(w, now), cut);
      } else {
        FirstPassBuilds(w, now, cut);
        FirstPlanShape(w);
        NewEntriesAgree(w, FirstPlan(w), cut, FirstList(w));
      }
    }
  }

  lemma FirstPassBuilds(w: World, now: int, cut: nat)
    requires !UpkeepDue(w) && cut <= |PassPlan(w, now)| && CutPass(w, now, cut).engine != w.engine
    ensures PassPlan(w, now) == FirstPlan(w) && FirstPlan(w) != [] && Target(w.volume.replicaCount, w.nodes).Ok?
  {
    if !(w.present && !w.volume.status.engineRef && FirstPlan(w) != [] && Target(w.volume.replicaCount, w.nodes).Ok?) {
      NoEngineWrites(w, now);
      EngineUntouched(w, PassPlan(w, now)[..cut]);
    }
  }

  /** A dashboard delete creates nothing and attaches nothing. */
  lemma DashboardKeepsAgreement(w: World, name: string, cut: nat)
    requires cut <= |DashboardPlan(w, name)| && Agrees(w)
    ensures Agrees(ApplyAll(w, DashboardPlan(w, name)[..cut]))
  {
    DashboardList(w, name, cut);
    assert CreatesFit(w, DashboardPlan(w, name), cut);
    OldEntriesAgree(w, DashboardPlan(w, name), cut);
  }

  /** Objects do not move, and nobody but the volume controller makes them. */
  ghost predicate ObjectsStay(w: World, x: World) {
    forall n :: n in x.replicas ==> n in w.replicas && x.replicas[n].spec.node == w.replicas[n].spec.node
  }

  ghost predicate Fitting(w: World, e: Event, x: World) {
    match e
    case Pass(now, cut) => cut <= |PassPlan(w, now)| && CreatesFit(w, PassPlan(w, now), cut)
    case UserDelete(_, _) => true
    case Environment => ObjectsStay(w, x)
  }

  lemma StepKeepsAgreement(w: World, e: Event, x: World)
    requires Next(w, e, x) && Fitting(w, e, x) && Agrees(w)
    ensures Agrees(x)
  {
    match e
    case Pass(now, cut) => PassKeepsAgreement(w, now, cut);
    case UserDelete(name, cut) => DashboardKeepsAgreement(w, name, cut);
    case Environment =>
  }

  /**
   If every create that a pass issues finds no object of its name, or one on its slot's node, and none is
   for a replica attached elsewhere, then in every reachable state each attached object sits on its
   attachment's node.
   */
  lemma {:induction false} AgreementOverRuns(ws: seq<World>, es: seq<Event>, i: nat)
    requires IsRun(ws, es) && i < |ws| && Agrees(ws[0])
    requires forall k :: 0 <= k < |es| ==> Fitting(ws[k], es[k], ws[k + 1])
    ensures Agrees(ws[i])
  {
    if i > 0 {
      AgreementOverRuns(ws, es, i - 1);
      assert Next(ws[i - 1], es[i - 1], ws[i]) && Fitting(ws[i - 1], es[i - 1], ws[i]);
      StepKeepsAgreement(ws[i - 1], es[i - 1], ws[i]);
    }
  }

  /** The objects of the attached replicas that exist are on pairwise distinct nodes. */
  ghost predicate ObjectsApart(w: World) {
    w.engine.Some? ==> forall j, k :: 0 <= j < k < |List(w)| ==> Apart(w.replicas, List(w)[j].name, List(w)[k].name)
  }

  predicate Apart(replicas: map<string, Replica>, a: string, b: string) {
    a in replicas && b in replicas ==> replicas[a].spec.node != replicas[b].spec.node
  }

  /**
   So with an automatic count and no snapshot source the objects of the attached replicas, and with them
   the data files, are on pairwise distinct nodes in every reachable state.
   */
  lemma ObjectsOnDistinctNodes(ws: seq<World>, es: seq<Event>, i: nat)
    requires IsRun(ws, es) && i < |ws| && Agrees(ws[0]) && Placed(ws[0])
    requires forall k :: 0 <= k < |es| ==> Fitting(ws[k], es[k], ws[k + 1]) && SeesWorker(ws[k], es[k])
    requires forall k :: 0 <= k < |ws| ==> Automatic(ws[k])
    ensures ObjectsApart(ws[i])
  {
    AgreementOverRuns(ws, es, i);
    PlacementOverRuns(ws, es);
    assert Placed(ws[i]);
  }

  // ---- How a create does not fit ----

  /**
   A first pass on leftover objects: the object of one replica is kept on the node another replica is
   created on. Their attachments are on different nodes, the objects on one, with one data file.
   */
  lemma RecreationSharesANode(w: World, now: int, i: nat, j: nat)
    requires w.present && !w.volume.status.engineRef && FirstPlan(w) != [] && w.engine.None?
    requires Target(w.volume.replicaCount, w.nodes).Ok? && w.volume.snapshotSource.None? && DistinctNames(w.nodes)
    requires var slots, v := SlotsOf(w), w.volume.name;
             && i < |slots| && j < |slots| && i != j
             && ReplicaName(v, i) in w.replicas && ReplicaName(v, j) !in w.replicas
             && w.replicas[ReplicaName(v, i)].spec.node == slots[j].node
             && w.replicas[ReplicaName(v, i)].spec.dataPath == DataPath(v)
    ensures var x := FullPass(w, now);
            && x.engine.Some? && i < |List(x)| && j < |List(x)|
            && var a, b := List(x)[i], List(x)[j];
               && a.name != b.name && a.node != b.node && a.name in x.replicas && b.name in x.replicas
               && x.replicas[a.name].spec.node == x.replicas[b.name].spec.node
               && x.replicas[a.name].spec.dataPath == x.replicas[b.name].spec.dataPath
  {
    var slots, v := SlotsOf(w), Settled(w);
    FirstPassEffect(w, now);
    MadeOn(v, slots, j);
    DifferentIndices(v.name, i, j);
    var n := Target(w.volume.replicaCount, w.nodes).value;
    FirstWorkersDistinct(w.nodes, n);
    assert slots[i].node == FirstWorkers(w.nodes, n)[i] && slots[j].node == FirstWorkers(w.nodes, n)[j];
  }

  /** A volume that is to be created on a cluster with the one worker b. */
  predicate NewOnB(w: World) {
    && w.present && !w.volume.status.engineRef && w.volume.nodeID == "b" && w.volume.replicaCount == "auto"
    && w.nodes == [Node("b", false)] && w.replicas == map[] && w.engine.None? && w.volume.snapshotSource.None?
  }

  /** An event of a run of whole passes: the pass, if it is one, is not cut off and sees a worker. */
  ghost predicate WholeStep(w: World, e: Event, x: World) {
    Next(w, e, x) && SeesWorker(w, e) && (e.Pass? ==> e.cut == |PassPlan(w, e.now)|)
  }

  ghost predicate WholeRun(ws: seq<World>, es: seq<Event>) {
    && |ws| == |es| + 1
    && (forall k :: 0 <= k < |es| ==> WholeStep(ws[k], es[k], ws[k + 1]))
    && forall k :: 0 <= k < |ws| ==> Automatic(ws[k])
  }

  lemma ExtendRun(ws: seq<World>, es: seq<Event>, e: Event, x: World) returns (xs: seq<World>, fs: seq<Event>)
    requires WholeRun(ws, es) && WholeStep(ws[|es|], e, x) && Automatic(x)
    ensures WholeRun(xs, fs) && xs == ws + [x]
  {
    xs, fs := ws + [x], es + [e];
    forall k | 0 <= k < |fs| ensures WholeStep(xs[k], fs[k], xs[k + 1]) {
      if k < |es| {
        assert WholeStep(ws[k], es[k], ws[k + 1]);
      }
    }
  }

  lemma WholeRunIsRun(ws: seq<World>, es: seq<Event>)
    requires WholeRun(ws, es)
    ensures IsRun(ws, es)
  {
    forall k | 0 <= k < |es| ensures Next(ws[k], es[k], ws[k + 1]) {
      assert WholeStep(ws[k], es[k], ws[k + 1]);
    }
  }

  /**
   That is reachable without a pass being cut off, without scaling and without a heal: the one replica of
   a new volume is created on node b, node a joins, the engine is lost, and the passes that follow forget
   it and create it again.
   */
  lemma RecreationRun(w: World) returns (ws: seq<World>, es: seq<Event>)
    requires NewOnB(w)
    ensures WholeRun(ws, es) && IsRun(ws, es) && ws[0] == w
    ensures Placed(ws[|es|]) && !ObjectsApart(ws[|es|])
  {
    ws, es := CreatedOnB(w);
    ws, es := Rejoined(ws, es);
    ws, es := Forgotten(ws, es);
    ws, es := Recreated(ws, es);
    WholeRunIsRun(ws, es);
  }

  /** The volume with the object of replica-0 on node b. */
  predicate WithZeroOnB(w: World) {
    var zero := ReplicaName(w.volume.name, 0);
    && w.present && w.volume.nodeID == "b" && w.volume.replicaCount == "auto" && w.volume.snapshotSource.None?
    && w.replicas.Keys == {zero}
    && w.replicas[zero].spec.node == "b" && w.replicas[zero].spec.dataPath == DataPath(w.volume.name)
  }

  predicate OnTwoWithoutEngine(w: World) {
    w.nodes == [Node("b", false), Node("a", false)] && w.engine.None?
  }

  lemma CreatedOnB(w: World) returns (ws: seq<World>, es: seq<Event>)
    requires NewOnB(w)
    ensures WholeRun(ws, es) && ws[0] == w && |ws| == 2
    ensures WithZeroOnB(ws[|es|]) && ws[|es|].volume.status.engineRef
  {
    OneWorker(w);
    WholePass(w, FullPass(w, 0));
    ws, es := ExtendRun([w], [], Pass(0, |PassPlan(w, 0)|), FullPass(w, 0));
  }

  /** Node a joins and the engine is lost. */
  lemma Rejoined(ws: seq<World>, es: seq<Event>) returns (xs: seq<World>, fs: seq<Event>)
    requires WholeRun(ws, es) && WithZeroOnB(ws[|es|]) && ws[|es|].volume.status.engineRef
    ensures WholeRun(xs, fs) && xs[0] == ws[0]
    ensures WithZeroOnB(xs[|fs|]) && OnTwoWithoutEngine(xs[|fs|]) && xs[|fs|].volume.status.engineRef
  {
    var x := ws[|es|].(nodes := [Node("b", false), Node("a", false)], engine := None);
    xs, fs := ExtendRun(ws, es, Environment, x);
  }

  lemma Forgotten(ws: seq<World>, es: seq<Event>) returns (xs: seq<World>, fs: seq<Event>)
    requires WholeRun(ws, es) && WithZeroOnB(ws[|es|]) && OnTwoWithoutEngine(ws[|es|]) && ws[|es|].volume.status.engineRef
    ensures WholeRun(xs, fs) && xs[0] == ws[0]
    ensures WithZeroOnB(xs[|fs|]) && OnTwoWithoutEngine(xs[|fs|]) && !xs[|fs|].volume.status.engineRef
  {
    var w := ws[|es|];
    ForgettingPass(w);
    WholePass(w, FullPass(w, 0));
    xs, fs := ExtendRun(ws, es, Pass(0, |PassPlan(w, 0)|), FullPass(w, 0));
  }

  lemma Recreated(ws: seq<World>, es: seq<Event>) returns (xs: seq<World>, fs: seq<Event>)
    requires WholeRun(ws, es) && WithZeroOnB(ws[|es|]) && OnTwoWithoutEngine(ws[|es|]) && !ws[|es|].volume.status.engineRef
    ensures WholeRun(xs, fs) && xs[0] == ws[0]
    ensures Placed(xs[|fs|]) && !ObjectsApart(xs[|fs|])
  {
    var w := ws[|es|];
    RecreatedTogether(w);
    WholePass(w, FullPass(w, 0));
    xs, fs := ExtendRun(ws, es, Pass(0, |PassPlan(w, 0)|), FullPass(w, 0));
  }

  lemma WholePass(w: World, x: World)
    requires x == FullPass(w, 0) && w.engine.None?
    ensures WholeStep(w, Pass(0, |PassPlan(w, 0)|), x) && (Automatic(w) ==> Automatic(x))
  {
    WritesKeepVolume(w, PassPlan(w, 0));
    assert PassPlan(w, 0)[..|PassPlan(w, 0)|] == PassPlan(w, 0);
  }

  /** A pass that finds no engine forgets the record of it. */
  lemma ForgettingPass(w: World)
    requires w.present && w.volume.status.engineRef && w.engine.None?
    ensures FullPass(w, 0)
            == w.(volume := w.volume.(status := w.volume.status.(engineRef := false, phase := VolumePhase.Creating)))
  {
    var forget := SetVolumeStatus(w.volume.status.(engineRef := false, phase := VolumePhase.Creating));
    assert PassPlan(w, 0) == [forget];
    ApplyOne(w, forget);
  }

  /** Creating the volume again, on the workers b and a, with the old replica-0 on b. */
  lemma RecreatedTogether(w: World)
    requires WithZeroOnB(w) && OnTwoWithoutEngine(w) && !w.volume.status.engineRef && Automatic(w)
    ensures Placed(FullPass(w, 0)) && !ObjectsApart(FullPass(w, 0))
  {
    var x := FullPass(w, 0);
    TwoWorkers(w);
    DifferentIndices(w.volume.name, 0, 1);
    assert ReplicaName(w.volume.name, 1) !in w.replicas.Keys && ReplicaName(w.volume.name, 0) in w.replicas.Keys;
    RecreationSharesANode(w, 0, 0, 1);
    assert !Apart(x.replicas, List(x)[0].name, List(x)[1].name);
    FirstPassEffect(w, 0);
    FirstListPlaced(w);
  }

  /** The first pass of a volume on a cluster with the one worker b. */
  lemma OneWorker(w: World)
    requires NewOnB(w)
    ensures var x, r := FullPass(w, 0), ReplicaName(w.volume.name, 0);
            && x == w.(volume := Recorded(w.volume), replicas := map[r := NewReplica(w.volume, "b")], engine := x.engine)
  {
    OneName(Node("b", false));
    var one := ["b"];
    assert one[1..] == [] && SortStrings(one) == one;
    assert FirstWorkers(w.nodes, 1) == one;
    FirstPassEffect(w, 0);
    var slots := SlotsOf(w);
    assert slots == [Slot(0, "b")] && slots[..0] == [];
    assert Made(w.volume, slots) + w.replicas == map[ReplicaName(w.volume.name, 0) := NewReplica(w.volume, "b")];
  }

  /** The slots of a first pass on a cluster with the workers b and a. */
  lemma TwoWorkers(w: World)
    requires w.volume.nodeID == "b" && w.volume.replicaCount == "auto" && w.volume.snapshotSource.None?
    requires w.nodes == [Node("b", false), Node("a", false)]
    ensures Target(w.volume.replicaCount, w.nodes) == Ok(2)
    ensures SlotsOf(w) == [Slot(0, "a"), Slot(1, "b")]
  {
    var a, b := Node("a", false), Node("b", false);
    TwoNames(b, a);
    SortedPair();
    assert FirstWorkers(w.nodes, 2) == ["a", "b"];
  }

  lemma OneName(n: Node)
    ensures WorkerNames([n]) == if n.controlPlane then [] else [n.name]
  {
    assert [n][..0] == [];
  }

  lemma TwoNames(m: Node, n: Node)
    requires !m.controlPlane && !n.controlPlane
    ensures WorkerNames([m, n]) == [m.name, n.name]
  {
    OneName(m);
    assert [m, n][..1] == [m];
  }

  lemma SortedPair()
    ensures SortStrings(["b", "a"]) == ["a", "b"]
  {
    var one, two := ["a"], ["b", "a"];
    assert one[1..] == [] && two[1..] == one;
    assert SortStrings(one) == one;
    assert !LexLessEq("b", "a");
    assert Insert("b", one) == ["a", "b"];
  }

}
