/** What a pass, whole or cut off, can do to the engine's list of attachments. */
module Passes {
  import opened Wrappers
  import opened Names
  import opened Types
  import opened Nodes
  import opened Plan
  import opened Scale

  function EngineAfter(e: Option<Engine>, write: Write): Option<Engine> {
    match write
    case CreateEngine(engine) => if e.Some? then e else Some(engine)
    case SetAttachments(list) => if e.None? then e else Some(e.value.(replicas := list))
    case _ => e
  }

  predicate TouchesEngine(write: Write) {
    write.CreateEngine? || write.SetAttachments?
  }

  lemma {:induction false} EngineUntouched(w: World, plan: seq<Write>)
    requires forall i :: 0 <= i < |plan| ==> !TouchesEngine(plan[i])
    ensures ApplyAll(w, plan).engine == w.engine
  {
    if plan != [] {
      EngineUntouched(w, plan[..|plan| - 1]);
    }
  }

  /** A plan with one engine write changes the engine exactly there. */
  lemma {:induction false} EngineWrittenOnce(w: World, plan: seq<Write>, at: nat, cut: nat)
    requires at < |plan| && cut <= |plan|
    requires forall i :: 0 <= i < |plan| && i != at ==> !TouchesEngine(plan[i])
    ensures ApplyAll(w, plan[..cut]).engine == if cut <= at then w.engine else EngineAfter(w.engine, plan[at])
  {
    if cut > 0 {
      assert plan[..cut][..cut - 1] == plan[..cut - 1];
      EngineWrittenOnce(w, plan, at, cut - 1);
    }
  }

  // ---- Type corrections touch nothing else ----

  predicate SameButType(a: Replica, b: Replica) {
    a.(spec := a.spec.(rtype := Local)) == b.(spec := b.spec.(rtype := Local))
  }

  /** Two states that differ at most in the types of replicas. */
  ghost predicate SameButTypes(w: World, x: World) {
    && x == w.(replicas := x.replicas)
    && x.replicas.Keys == w.replicas.Keys
    && forall n :: n in w.replicas ==> SameButType(w.replicas[n], x.replicas[n])
  }

  lemma {:induction false} TypesOnly(w: World, list: seq<Attachment>, i: nat, cut: nat)
    requires i <= |list| && cut <= |TypePlan(w, list, i)|
    ensures SameButTypes(w, ApplyAll(w, TypePlan(w, list, i)[..cut]))
    decreases |list| - i
  {
    if cut > 0 {
      var name, rtype := list[i].name, ExpectedType(w.volume, list[i].node);
      if name in w.replicas && w.replicas[name].spec.rtype != rtype {
        var write := SetReplicaType(name, rtype);
        var x := Apply(w, write);
        TypesOnly(x, list, i + 1, cut - 1);
        assert TypePlan(w, list, i)[..cut] == [write] + TypePlan(x, list, i + 1)[..cut - 1];
        ApplyAllAppend(w, [write], TypePlan(x, list, i + 1)[..cut - 1]);
        assert [write][..0] == [];
      } else {
        TypesOnly(w, list, i + 1, cut);
      }
    }
  }

  lemma {:induction false} TypePlanTypesOnly(w: World, list: seq<Attachment>, i: nat)
    requires i <= |list|
    ensures forall k :: 0 <= k < |TypePlan(w, list, i)| ==> TypePlan(w, list, i)[k].SetReplicaType?
    decreases |list| - i
  {
    if i < |list| {
      TypePlanTypesOnly(w, list, i + 1);
      TypePlanTypesOnly(Apply(w, SetReplicaType(list[i].name, ExpectedType(w.volume, list[i].node))), list, i + 1);
    }
  }

  /** What is seen of replicas, and so what healing does, does not depend on their types. */
  lemma {:induction false} HealingIgnoresTypes(w: World, x: World, list: seq<Attachment>, desired: nat, now: int)
    requires SameButTypes(w, x)
    ensures forall n :: Healthy(w, n) == Healthy(x, n) && Observe(w, n) == Observe(x, n)
    ensures HealthyCount(w, list) == HealthyCount(x, list)
    ensures Rebuilt(w, list) == Rebuilt(x, list)
    ensures forall h :: Decide(w, h, now) == Decide(x, h, now)
    ensures Repaired(w, list, desired, now) == Repaired(x, list, desired, now)
  {
    CountIgnoresTypes(w, x, list);
    forall h: Health ensures Decide(w, h, now) == Decide(x, h, now) {
      assert h.name in w.replicas <==> h.name in x.replicas.Keys;
    }
    assert Rebuilt(w, list) == Rebuilt(x, list);
    RepairIgnoresTypes(w, x, Rebuilt(w, list), now, 0);
  }

  lemma {:induction false} CountIgnoresTypes(w: World, x: World, list: seq<Attachment>)
    requires SameButTypes(w, x)
    ensures HealthyCount(w, list) == HealthyCount(x, list)
  {
    if list != [] {
      CountIgnoresTypes(w, x, list[..|list| - 1]);
      assert list[|list| - 1].name in w.replicas <==> list[|list| - 1].name in x.replicas.Keys;
    }
  }

  lemma {:induction false} RepairIgnoresTypes(w: World, x: World, health: seq<Health>, now: int, i: nat)
    requires SameButTypes(w, x) && i <= |health|
    requires forall h :: Decide(w, h, now) == Decide(x, h, now)
    ensures FirstRepair(w, health, now, i) == FirstRepair(x, health, now, i)
    decreases |health| - i
  {
    if i < |health| {
      RepairIgnoresTypes(w, x, health, now, i + 1);
    }
  }

  // ---- The list after a pass ----

  /** The volume an upkeep pass works for has an engine that is not about to be marked ready. */
  predicate UpkeepDue(w: World) {
    && w.present && w.volume.status.engineRef && w.engine.Some?
    && !(ChildrenReady(w) && w.volume.status.phase != VolumePhase.Ready)
  }

  function List(w: World): seq<Attachment>
    requires w.engine.Some?
  {
    w.engine.value.replicas
  }

  /** The list after a whole upkeep pass. */
  function ListAfter(w: World, now: int): seq<Attachment>
    requires w.engine.Some?
  {
    var list := List(w);
    match Target(w.volume.replicaCount, w.nodes)
    case Err => list
    case Ok(desired) =>
      if desired > |list| then GrownList(w, list, desired)
      else if desired < |list| then list[..desired]
      else if ChildrenReady(w) then list
      else HealedList(w, list, desired, now)
  }

  /** A plan that writes the engine at most once: not at all if the list is to stay, else the new list. */
  ghost predicate WritesList(plan: seq<Write>, before: seq<Attachment>, list: seq<Attachment>) {
    || (list == before && forall i :: 0 <= i < |plan| ==> !TouchesEngine(plan[i]))
    || exists at :: WritesListAt(plan, list, at)
  }

  ghost predicate WritesListAt(plan: seq<Write>, list: seq<Attachment>, at: int) {
    && 0 <= at < |plan| && plan[at] == SetAttachments(list)
    && forall i :: 0 <= i < |plan| && i != at ==> !TouchesEngine(plan[i])
  }

  lemma WritesListLater(types: seq<Write>, rest: seq<Write>, before: seq<Attachment>, list: seq<Attachment>)
    requires WritesList(rest, before, list)
    requires forall i :: 0 <= i < |types| ==> !TouchesEngine(types[i])
    ensures WritesList(types + rest, before, list)
  {
    if at :| WritesListAt(rest, list, at) {
      assert WritesListAt(types + rest, list, |types| + at);
    }
  }

  /** The list a healing pass leaves. */
  function HealedList(w: World, list: seq<Attachment>, desired: nat, now: int): seq<Attachment> {
    match Repaired(w, list, desired, now)
    case None => list
    case Some(i) => if Decide(w, HealthOf(w, list[i]), now).Restart? then list else Without(list, i)
  }

  lemma HealWritesList(w: World, list: seq<Attachment>, desired: nat, now: int)
    ensures WritesList(HealPlan(w, list, desired, now), list, HealedList(w, list, desired, now))
  {
    var plan := HealPlan(w, list, desired, now);
    var r := Repaired(w, list, desired, now);
    if r.Some? {
      match Decide(w, Rebuilt(w, list)[r.value], now)
      case RemoveMissing => assert WritesListAt(plan, Without(list, r.value), 0);
      case Recreate => assert WritesListAt(plan, Without(list, r.value), 1);
      case Restart =>
    }
  }

  lemma ScaleWritesList(w: World, list: seq<Attachment>, desired: nat)
    requires desired != |list|
    ensures WritesList(ScalePlan(w, list, desired), list,
                       if desired > |list| then GrownList(w, list, desired) else list[..desired])
  {
    var plan := ScalePlan(w, list, desired);
    assert WritesListAt(plan, if desired > |list| then GrownList(w, list, desired) else list[..desired], |plan| - 2);
  }

  lemma UpkeepWritesList(w: World, now: int)
    requires UpkeepDue(w)
    ensures WritesList(PassPlan(w, now), List(w), ListAfter(w, now))
  {
    var list, types := List(w), TypePlan(w, List(w), 0);
    TypePlanTypesOnly(w, list, 0);
    assert types[..|types|] == types;
    TypesOnly(w, list, 0, |types|);
    var x := ApplyAll(w, types);
    var rest := UpkeepPlan(x, list, ChildrenReady(w), now);
    if Target(w.volume.replicaCount, w.nodes).Ok? {
      var desired := Target(w.volume.replicaCount, w.nodes).value;
      if desired != |list| {
        ScaleWritesList(x, list, desired);
      } else if !ChildrenReady(w) {
        HealWritesList(x, list, desired, now);
        HealingIgnoresTypes(w, x, list, desired, now);
      }
    }
    WritesListLater(types, rest, list, ListAfter(w, now));
  }

  /** An upkeep pass that is cut off leaves the old list or the new one, nothing in between. */
  lemma ListIsAtomic(w: World, now: int, cut: nat)
    requires UpkeepDue(w) && cut <= |PassPlan(w, now)|
    ensures var x := CutPass(w, now, cut);
            && (x.engine == w.engine || x.engine == Some(w.engine.value.(replicas := ListAfter(w, now))))
            && (cut == |PassPlan(w, now)| ==> x.engine == Some(w.engine.value.(replicas := ListAfter(w, now))))
  {
    var plan := PassPlan(w, now);
    UpkeepWritesList(w, now);
    if at :| WritesListAt(plan, ListAfter(w, now), at) {
      EngineWrittenOnce(w, plan, at, cut);
    } else {
      EngineUntouched(w, plan[..cut]);
    }
  }

  /** The volume with its node settled, as the first pass works on it. */
  function Settled(w: World): Volume {
    if w.volume.nodeID == "" && AnyWorker(w.nodes).Some?
    then w.volume.(nodeID := AnyWorker(w.nodes).value) else w.volume
  }

  /** The list of a new engine. */
  function FirstList(w: World): seq<Attachment>
    requires Target(w.volume.replicaCount, w.nodes).Ok?
  {
    Attachments(Settled(w), FirstSlots(Settled(w), FirstWorkers(w.nodes, Target(w.volume.replicaCount, w.nodes).value)))
  }

  /** A pass that is no upkeep changes the engine only by creating the first one. */
  lemma OtherPasses(w: World, now: int, cut: nat)
    requires !UpkeepDue(w) && cut <= |PassPlan(w, now)|
    ensures var x := CutPass(w, now, cut);
            || x.engine == w.engine
            || (w.engine.None? && Target(w.volume.replicaCount, w.nodes).Ok?
                && x.engine == Some(Engine(Settled(w).nodeID, FirstList(w), EnginePhase.Unset)))
  {
    if w.present && !w.volume.status.engineRef && FirstPlan(w) != [] && Target(w.volume.replicaCount, w.nodes).Ok? {
      FirstPassEngine(w, cut);
    } else {
      NoEngineWrites(w, now);
      EngineUntouched(w, PassPlan(w, now)[..cut]);
    }
  }

  lemma FirstPassEngine(w: World, cut: nat)
    requires w.present && !w.volume.status.engineRef && FirstPlan(w) != [] && cut <= |FirstPlan(w)|
    requires Target(w.volume.replicaCount, w.nodes).Ok?
    ensures var first := Engine(Settled(w).nodeID, FirstList(w), EnginePhase.Unset);
            ApplyAll(w, FirstPlan(w)[..cut]).engine in {w.engine, EngineAfter(w.engine, CreateEngine(first))}
  {
    CreateWritesEngine(w);
    EngineWrittenOnce(w, FirstPlan(w), |FirstPlan(w)| - 2, cut);
  }

  lemma NoEngineWrites(w: World, now: int)
    requires !UpkeepDue(w)
    requires w.present && !w.volume.status.engineRef && PassPlan(w, now) != [] ==> Target(w.volume.replicaCount, w.nodes).Err?
    ensures forall i :: 0 <= i < |PassPlan(w, now)| ==> !TouchesEngine(PassPlan(w, now)[i])
  {
  }

  ghost predicate CreatesEngineAt(plan: seq<Write>, engine: Engine, at: int) {
    && 0 <= at < |plan| && plan[at] == CreateEngine(engine)
    && forall i :: 0 <= i < |plan| && i != at ==> !TouchesEngine(plan[i])
  }

  lemma CreatesEngineLater(write: Write, plan: seq<Write>, engine: Engine, at: int)
    requires CreatesEngineAt(plan, engine, at) && !TouchesEngine(write)
    ensures CreatesEngineAt([write] + plan, engine, at + 1)
  {
  }

  lemma CreatePlanWritesEngine(w: World, n: nat)
    requires Target(w.volume.replicaCount, w.nodes) == Ok(n)
    ensures var list := Attachments(w.volume, FirstSlots(w.volume, FirstWorkers(w.nodes, n)));
            CreatesEngineAt(CreatePlan(w), Engine(w.volume.nodeID, list, EnginePhase.Unset), |CreatePlan(w)| - 2)
  {
  }

  lemma CreateWritesEngine(w: World)
    requires w.present && !w.volume.status.engineRef && FirstPlan(w) != []
    requires Target(w.volume.replicaCount, w.nodes).Ok?
    ensures CreatesEngineAt(FirstPlan(w), Engine(Settled(w).nodeID, FirstList(w), EnginePhase.Unset), |FirstPlan(w)| - 2)
  {
    var x := w.(volume := Settled(w));
    CreatePlanWritesEngine(x, Target(w.volume.replicaCount, w.nodes).value);
    if w.volume.nodeID == "" {
      var settle := SetVolumeNode(x.volume.nodeID);
      assert x == Apply(w, settle);
      CreatesEngineLater(settle, CreatePlan(x), Engine(x.volume.nodeID, FirstList(w), EnginePhase.Unset),
            |CreatePlan(x)| - 2);
    }
  }

}
