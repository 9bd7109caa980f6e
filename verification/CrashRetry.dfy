/**
 Crash and retry: a pass that is cut off after any prefix of its writes is finished by the next pass
 on the same nodes and spec, with the same attachments and the same replica objects as an
 uninterrupted pass.
 */
module CrashRetry {
  import opened Wrappers
  import opened Names
  import opened Types
  import opened Nodes
  import opened Plan
  import opened Scale
  import opened Passes
  import opened Healing

  // ---- Type corrections can be repeated ----

  /** From position i on, every attached object has the type its node calls for. */
  ghost predicate TypesRight(x: World, list: seq<Attachment>, i: nat) {
    forall j :: i <= j < |list| && list[j].name in x.replicas ==>
      x.replicas[list[j].name].spec.rtype == ExpectedType(x.volume, list[j].node)
  }

  /** Objects that are not attached are as before. */
  ghost predicate OthersKept(w: World, x: World, list: seq<Attachment>) {
    forall n :: n in w.replicas && n !in AttachedNames(list) ==> n in x.replicas && x.replicas[n] == w.replicas[n]
  }

  lemma {:induction false} TypePlanKeepsOthers(w: World, list: seq<Attachment>, i: nat, cut: nat)
    requires i <= |list| && cut <= |TypePlan(w, list, i)|
    ensures OthersKept(w, ApplyAll(w, TypePlan(w, list, i)[..cut]), list)
    decreases |list| - i
  {
    if cut > 0 {
      var name, rtype := list[i].name, ExpectedType(w.volume, list[i].node);
      if name in w.replicas && w.replicas[name].spec.rtype != rtype {
        var write := SetReplicaType(name, rtype);
        var x := Apply(w, write);
        assert name in AttachedNames(list);
        TypePlanKeepsOthers(x, list, i + 1, cut - 1);
        assert TypePlan(w, list, i)[..cut] == [write] + TypePlan(x, list, i + 1)[..cut - 1];
        ApplyAllAppend(w, [write], TypePlan(x, list, i + 1)[..cut - 1]);
        ApplyOne(w, write);
      } else {
        TypePlanKeepsOthers(w, list, i + 1, cut);
      }
    }
  }

  /** The object at position i after a plan for the later positions. */
  lemma {:induction false} TypePlanSkipsEarlier(w: World, list: seq<Attachment>, i: nat, j: nat)
    requires j < i <= |list| && DistinctAttached(list) && list[j].name in w.replicas
    ensures var x := ApplyAll(w, TypePlan(w, list, i));
            list[j].name in x.replicas && x.replicas[list[j].name] == w.replicas[list[j].name]
    decreases |list| - i
  {
    if i < |list| {
      var name, rtype := list[i].name, ExpectedType(w.volume, list[i].node);
      var write := SetReplicaType(name, rtype);
      if name in w.replicas && w.replicas[name].spec.rtype != rtype {
        TypePlanSkipsEarlier(Apply(w, write), list, i + 1, j);
        ApplyAllAppend(w, [write], TypePlan(Apply(w, write), list, i + 1));
        ApplyOne(w, write);
      } else {
        TypePlanSkipsEarlier(w, list, i + 1, j);
      }
    }
  }

  /** A whole type plan gets all types right. */
  lemma {:induction false} TypePlanGetsTypesRight(w: World, list: seq<Attachment>, i: nat)
    requires i <= |list| && DistinctAttached(list)
    ensures TypesRight(ApplyAll(w, TypePlan(w, list, i)), list, i)
    decreases |list| - i
  {
    if i < |list| {
      var name, rtype := list[i].name, ExpectedType(w.volume, list[i].node);
      var write := SetReplicaType(name, rtype);
      var y := if name in w.replicas && w.replicas[name].spec.rtype != rtype then Apply(w, write) else w;
      var rest := TypePlan(y, list, i + 1);
      TypePlanGetsTypesRight(y, list, i + 1);
      assert rest[..|rest|] == rest;
      TypesOnly(y, list, i + 1, |rest|);
      if name in y.replicas {
        TypePlanSkipsEarlier(y, list, i + 1, i);
      }
      if y != w {
        ApplyAllAppend(w, [write], rest);
        ApplyOne(w, write);
      }
      assert name in ApplyAll(y, rest).replicas.Keys <==> name in y.replicas.Keys;
    }
  }

  lemma {:induction false} NothingToCorrect(w: World, list: seq<Attachment>, i: nat)
    requires i <= |list| && TypesRight(w, list, i)
    ensures TypePlan(w, list, i) == []
    decreases |list| - i
  {
    if i < |list| {
      NothingToCorrect(w, list, i + 1);
    }
  }

  /** Two corrections of the same state that keep the other objects agree. */
  lemma CorrectionsAgree(w: World, x: World, y: World, list: seq<Attachment>)
    requires SameButTypes(w, x) && SameButTypes(w, y)
    requires TypesRight(x, list, 0) && TypesRight(y, list, 0)
    requires OthersKept(w, x, list) && OthersKept(w, y, list)
    ensures x == y
  {
    forall n | n in w.replicas ensures x.replicas[n] == y.replicas[n] {
      if n in AttachedNames(list) {
        var j :| 0 <= j < |list| && list[j].name == n;
        assert n in x.replicas.Keys && n in y.replicas.Keys;
      }
    }
    assert x.replicas == y.replicas;
  }

  lemma TypesRetry(w: World, list: seq<Attachment>, cut: nat)
    requires DistinctAttached(list) && cut <= |TypePlan(w, list, 0)|
    ensures var x := ApplyAll(w, TypePlan(w, list, 0)[..cut]);
            && SameButTypes(w, x)
            && ApplyAll(x, TypePlan(x, list, 0)) == ApplyAll(w, TypePlan(w, list, 0))
  {
    var plan := TypePlan(w, list, 0);
    var x := ApplyAll(w, plan[..cut]);
    var again := TypePlan(x, list, 0);
    assert plan[..|plan|] == plan && again[..|again|] == again;
    TypesOnly(w, list, 0, cut);
    TypesOnly(w, list, 0, |plan|);
    TypesOnly(x, list, 0, |again|);
    TypePlanKeepsOthers(w, list, 0, cut);
    TypePlanKeepsOthers(w, list, 0, |plan|);
    TypePlanKeepsOthers(x, list, 0, |again|);
    TypePlanGetsTypesRight(w, list, 0);
    TypePlanGetsTypesRight(x, list, 0);
    CorrectionsAgree(w, ApplyAll(x, again), ApplyAll(w, plan), list);
  }

  /** Replacing the objects of attached names by others with the same status does not change readiness. */
  lemma ReadyIgnoresTypes(w: World, x: World)
    requires SameButTypes(w, x)
    ensures ChildrenReady(x) == ChildrenReady(w)
    ensures UpkeepDue(x) == UpkeepDue(w)
  {
    if w.engine.Some? {
      forall i | 0 <= i < |List(w)|
        ensures List(w)[i].name in x.replicas <==> List(w)[i].name in w.replicas
      {
        assert List(w)[i].name in x.replicas.Keys <==> List(w)[i].name in w.replicas.Keys;
      }
    }
  }

  // ---- Plans in two parts ----

  function Corrections(w: World): seq<Write>
    requires w.engine.Some?
  {
    TypePlan(w, List(w), 0)
  }

  function Typed(w: World): World
    requires w.engine.Some?
  {
    ApplyAll(w, Corrections(w))
  }

  /** A whole upkeep pass. */
  lemma WholeUpkeep(w: World, now: int)
    requires UpkeepDue(w)
    ensures var rest := UpkeepPlan(Typed(w), List(w), ChildrenReady(w), now);
            FullPass(w, now) == ApplyAll(Typed(w), rest) && |PassPlan(w, now)| == |Corrections(w)| + |rest|
    ensures SameButTypes(w, Typed(w))
  {
    ApplyAllAppend(w, Corrections(w), UpkeepPlan(Typed(w), List(w), ChildrenReady(w), now));
    PassInParts(w, now, 0);
  }

  /** A pass that finds the types right goes straight to the rest. */
  lemma UpkeepWithoutTypes(x: World, now: int)
    requires UpkeepDue(x) && TypesRight(x, List(x), 0)
    ensures FullPass(x, now) == ApplyAll(x, UpkeepPlan(x, List(x), ChildrenReady(x), now))
  {
    NothingToCorrect(x, List(x), 0);
    WholeUpkeep(x, now);
  }

  /** A status write at the end of a plan changes only the volume. */
  lemma StatusWriteLast(w: World, plan: seq<Write>, cut: nat)
    requires plan != [] && plan[|plan| - 1].SetVolumeStatus? && |plan| - 1 <= cut <= |plan|
    ensures var x := ApplyAll(w, plan[..cut]); x == ApplyAll(w, plan).(volume := x.volume)
  {
    assert plan[..|plan|] == plan;
  }

  lemma UpkeepEnds(w: World, now: int)
    requires UpkeepDue(w)
    ensures var rest, plan := UpkeepPlan(Typed(w), List(w), ChildrenReady(w), now), PassPlan(w, now);
            && (rest != [] ==> plan != [] && plan[|plan| - 1] == rest[|rest| - 1])
            && (rest != [] ==> rest[|rest| - 1].SetVolumeStatus?)
  {
    HealEnds(Typed(w), List(w), |List(w)|, now);
  }

  lemma HealEnds(w: World, list: seq<Attachment>, desired: nat, now: int)
    ensures var plan := HealPlan(w, list, desired, now); plan != [] && plan[|plan| - 1].SetVolumeStatus?
  {
  }

  // ---- Scaling ----

  lemma {:induction false} MadePrefix(volume: Volume, slots: seq<Slot>, j: nat)
    requires j <= |slots|
    ensures forall n :: n in Made(volume, slots[..j]) ==>
              n in Made(volume, slots) && Made(volume, slots)[n] == Made(volume, slots[..j])[n]
  {
    if j == |slots| {
      assert slots[..j] == slots;
    } else {
      MadePrefix(volume, slots[..|slots| - 1], j);
      assert slots[..|slots| - 1][..j] == slots[..j];
    }
  }

  /** Making all objects after some of them were made gives what making them all at once gives. */
  lemma MadeAgain(volume: Volume, slots: seq<Slot>, j: nat, base: map<string, Replica>)
    requires j <= |slots|
    ensures Made(volume, slots) + (Made(volume, slots[..j]) + base) == Made(volume, slots) + base
  {
    MadePrefix(volume, slots, j);
  }

  /** A scale up that was cut off among its creates leaves everything but new, unattached objects. */
  lemma CutScaleUp(y: World, desired: nat, j: nat)
    requires UpkeepDue(y) && TypesRight(y, List(y), 0) && |List(y)| < desired && j <= desired - |List(y)|
    ensures var x, slots := ApplyAll(y, ScaleUpPlan(y, List(y), desired)[..j]), NewSlots(y, List(y), desired);
            && x == y.(replicas := Made(y.volume, slots[..j]) + y.replicas)
            && UpkeepDue(x) && TypesRight(x, List(x), 0)
  {
    var list := List(y);
    var slots := NewSlots(y, list, desired);
    var x := ApplyAll(y, ScaleUpPlan(y, list, desired)[..j]);
    assert ScaleUpPlan(y, list, desired)[..j] == Creates(y.volume, slots[..j]);
    CreatesEffect(y, y.volume, slots[..j]);
    forall i | 0 <= i < |list|
      ensures list[i].name in x.replicas <==> list[i].name in y.replicas
      ensures list[i].name in x.replicas ==> x.replicas[list[i].name] == y.replicas[list[i].name]
    {
      AttachedIsNotMade(y, list, desired, j, i);
    }
  }

  lemma AttachedIsNotMade(y: World, list: seq<Attachment>, desired: nat, j: nat, i: nat)
    requires |list| <= desired && j <= desired - |list| && i < |list|
    ensures list[i].name !in Made(y.volume, NewSlots(y, list, desired)[..j])
  {
    var slots := NewSlots(y, list, desired);
    FreshIndices(y, list, desired);
    assert list[i].name in AttachedNames(list);
    if list[i].name in Made(y.volume, slots[..j]) {
      var k := MadeFrom(y.volume, slots[..j], list[i].name);
    }
  }

  /** Repeating the scale up from there ends where a whole one ends. */
  lemma ScaleUpAgain(y: World, x: World, desired: nat, j: nat)
    requires y.engine.Some? && |List(y)| < desired && j <= desired - |List(y)|
    requires x == y.(replicas := Made(y.volume, NewSlots(y, List(y), desired)[..j]) + y.replicas)
    ensures ApplyAll(x, ScaleUpPlan(x, List(y), desired)) == ApplyAll(y, ScaleUpPlan(y, List(y), desired))
  {
    var list, slots := List(y), NewSlots(y, List(y), desired);
    assert NewSlots(x, list, desired) == slots;
    ScaleUpEffect(x, list, desired);
    ScaleUpEffect(y, list, desired);
    MadeAgain(y.volume, slots, j, y.replicas);
  }

  lemma ScaleUpRetry(y: World, desired: nat, j: nat, now: int)
    requires UpkeepDue(y) && TypesRight(y, List(y), 0)
    requires Target(y.volume.replicaCount, y.nodes) == Ok(desired) && |List(y)| < desired
    requires j <= desired - |List(y)|
    ensures FullPass(ApplyAll(y, ScaleUpPlan(y, List(y), desired)[..j]), now)
            == ApplyAll(y, ScaleUpPlan(y, List(y), desired))
  {
    var x := ApplyAll(y, ScaleUpPlan(y, List(y), desired)[..j]);
    CutScaleUp(y, desired, j);
    UpkeepWithoutTypes(x, now);
    assert UpkeepPlan(x, List(x), ChildrenReady(x), now) == ScaleUpPlan(x, List(y), desired);
    ScaleUpAgain(y, x, desired, j);
  }

  /** The same for a scale down that was cut off among its deletes. */
  lemma ScaleDownRetry(y: World, desired: nat, j: nat, now: int)
    requires UpkeepDue(y) && TypesRight(y, List(y), 0)
    requires Target(y.volume.replicaCount, y.nodes) == Ok(desired) && desired < |List(y)|
    requires j <= |List(y)| - desired
    ensures var x := ApplyAll(y, ScaleDownPlan(y, List(y), desired)[..j]);
            FullPass(x, now) == ApplyAll(y, ScaleDownPlan(y, List(y), desired))
  {
    var x := ApplyAll(y, ScaleDownPlan(y, List(y), desired)[..j]);
    CutScaleDown(y, desired, j);
    UpkeepWithoutTypes(x, now);
    assert UpkeepPlan(x, List(x), ChildrenReady(x), now) == ScaleDownPlan(x, List(y), desired);
    ScaleDownAgain(y, x, desired, j);
  }

  lemma CutScaleDown(y: World, desired: nat, j: nat)
    requires UpkeepDue(y) && TypesRight(y, List(y), 0) && desired < |List(y)| && j <= |List(y)| - desired
    ensures var x := ApplyAll(y, ScaleDownPlan(y, List(y), desired)[..j]);
            && x == y.(replicas := y.replicas - IndexNames(y.volume.name, desired, desired + j))
            && UpkeepDue(x) && TypesRight(x, List(x), 0)
  {
    var x := ApplyAll(y, ScaleDownPlan(y, List(y), desired)[..j]);
    assert ScaleDownPlan(y, List(y), desired)[..j] == Deletes(y.volume.name, desired, desired + j);
    DeletesEffect(y, y.volume.name, desired, desired + j);
    assert ChildrenReady(x) ==> ChildrenReady(y);
  }

  lemma ScaleDownAgain(y: World, x: World, desired: nat, j: nat)
    requires y.engine.Some? && desired < |List(y)| && j <= |List(y)| - desired
    requires x == y.(replicas := y.replicas - IndexNames(y.volume.name, desired, desired + j))
    ensures ApplyAll(x, ScaleDownPlan(x, List(y), desired)) == ApplyAll(y, ScaleDownPlan(y, List(y), desired))
  {
    var list, v := List(y), y.volume.name;
    ScaleDownEffect(x, list, desired);
    ScaleDownEffect(y, list, desired);
    assert IndexNames(v, desired, desired + j) <= IndexNames(v, desired, |list|);
    assert x.replicas - IndexNames(v, desired, |list|) == y.replicas - IndexNames(v, desired, |list|);
  }

  /** A pass cut off among its type corrections is repeated in full. */
  lemma CutAmongTypes(w: World, now: int, cut: nat, later: int)
    requires UpkeepDue(w) && DistinctAttached(List(w)) && cut <= |Corrections(w)| && cut <= |PassPlan(w, now)|
    ensures var x := CutPass(w, now, cut);
            && UpkeepDue(x) && List(x) == List(w) && ChildrenReady(x) == ChildrenReady(w)
            && FullPass(x, later) == ApplyAll(Typed(w), UpkeepPlan(Typed(w), List(w), ChildrenReady(w), later))
  {
    var x := CutPass(w, now, cut);
    assert PassPlan(w, now)[..cut] == Corrections(w)[..cut];
    TypesRetry(w, List(w), cut);
    ReadyIgnoresTypes(w, x);
    WholeUpkeep(x, later);
  }

  /** After the type corrections the pass is still due and the types are right. */
  lemma TypedIsDue(w: World)
    requires UpkeepDue(w) && DistinctAttached(List(w))
    ensures var y := Typed(w);
            SameButTypes(w, y) && UpkeepDue(y) && List(y) == List(w) && TypesRight(y, List(y), 0)
            && ChildrenReady(y) == ChildrenReady(w)
  {
    WholeUpkeep(w, 0);
    ReadyIgnoresTypes(w, Typed(w));
    TypePlanGetsTypesRight(w, List(w), 0);
  }

  /**
   Crash and retry of scaling: cut off anywhere before its engine write, a scaling pass is completed
   by the next pass to the very state an uninterrupted pass reaches; cut off later, it already has the
   attachments, objects and pods of that state.
   */
  lemma ScalingIsRetried(w: World, now: int, cut: nat, later: int)
    requires UpkeepDue(w) && DistinctAttached(List(w)) && cut <= |PassPlan(w, now)|
    requires var t := Target(w.volume.replicaCount, w.nodes); t.Ok? && t.value != |List(w)|
    ensures var x, done := CutPass(w, now, cut), FullPass(w, now);
            if cut <= |PassPlan(w, now)| - 2 then FullPass(x, later) == done
            else x == done.(volume := x.volume)
  {
    if cut > |PassPlan(w, now)| - 2 {
      WholeUpkeep(w, now);
      UpkeepEnds(w, now);
      StatusWriteLast(w, PassPlan(w, now), cut);
    } else {
      ScalingCutEarlier(w, now, cut, later);
    }
  }

  lemma ScalingCutEarlier(w: World, now: int, cut: nat, later: int)
    requires UpkeepDue(w) && DistinctAttached(List(w)) && cut <= |PassPlan(w, now)| - 2
    requires var t := Target(w.volume.replicaCount, w.nodes); t.Ok? && t.value != |List(w)|
    ensures FullPass(CutPass(w, now, cut), later) == FullPass(w, now)
  {
    WholeUpkeep(w, now);
    if cut <= |Corrections(w)| {
      CutAmongTypes(w, now, cut, later);
    } else {
      PassInParts(w, now, cut);
      ScalingCutLater(w, cut - |Corrections(w)|, later);
    }
  }

  lemma ScalingCutLater(w: World, j: nat, later: int)
    requires UpkeepDue(w) && DistinctAttached(List(w))
    requires var t := Target(w.volume.replicaCount, w.nodes);
             t.Ok? && t.value != |List(w)| && j <= |ScalePlan(Typed(w), List(w), t.value)| - 2
    ensures var rest := ScalePlan(Typed(w), List(w), Target(w.volume.replicaCount, w.nodes).value);
            FullPass(ApplyAll(Typed(w), rest[..j]), later) == ApplyAll(Typed(w), rest)
  {
    var desired := Target(w.volume.replicaCount, w.nodes).value;
    TypedIsDue(w);
    if desired > |List(w)| {
      ScaleUpRetry(Typed(w), desired, j, later);
    } else {
      ScaleDownRetry(Typed(w), desired, j, later);
    }
  }

  // ---- Creation ----

  /** The state after a part of the first pass. */
  lemma CutCreate(w: World, n: nat, j: nat)
    requires Target(w.volume.replicaCount, w.nodes) == Ok(n) && j < |CreatePlan(w)|
    ensures var slots := FirstSlots(w.volume, FirstWorkers(w.nodes, n));
            var first := Engine(w.volume.nodeID, Attachments(w.volume, slots), EnginePhase.Unset);
            var m := if j <= |slots| then j else |slots|;
            ApplyAll(w, CreatePlan(w)[..j])
            == w.(replicas := Made(w.volume, slots[..m]) + w.replicas,
                  engine := if j <= |slots| || w.engine.Some? then w.engine else Some(first))
  {
    var slots := FirstSlots(w.volume, FirstWorkers(w.nodes, n));
    var first := Engine(w.volume.nodeID, Attachments(w.volume, slots), EnginePhase.Unset);
    if j <= |slots| {
      assert CreatePlan(w)[..j] == Creates(w.volume, slots[..j]);
      CreatesEffect(w, w.volume, slots[..j]);
    } else {
      assert slots[..|slots|] == slots;
      assert CreatePlan(w)[..j] == Creates(w.volume, slots) + [CreateEngine(first)];
      CreatesThenEngine(w, slots, first);
    }
  }

  lemma CreatesThenEngine(w: World, slots: seq<Slot>, first: Engine)
    ensures ApplyAll(w, Creates(w.volume, slots) + [CreateEngine(first)])
            == w.(replicas := Made(w.volume, slots) + w.replicas, engine := if w.engine.Some? then w.engine else Some(first))
  {
    var creates, mid := Creates(w.volume, slots), w.(replicas := Made(w.volume, slots) + w.replicas);
    CreatesEffect(w, w.volume, slots);
    ApplyAllAppend(w, creates, [CreateEngine(first)]);
    assert ApplyAll(w, creates) == mid;
    EngineCreated(mid, first);
  }

  lemma EngineCreated(w: World, first: Engine)
    ensures ApplyAll(w, [CreateEngine(first)]) == w.(engine := if w.engine.Some? then w.engine else Some(first))
  {
    ApplyOne(w, CreateEngine(first));
  }

  /** A first pass on a settled node, cut off anywhere, is completed to the same state. */
  lemma CreateRetry(w: World, n: nat, j: nat)
    requires Target(w.volume.replicaCount, w.nodes) == Ok(n) && j < |CreatePlan(w)|
    ensures var x := ApplyAll(w, CreatePlan(w)[..j]);
            x.volume == w.volume && ApplyAll(x, CreatePlan(x)) == ApplyAll(w, CreatePlan(w))
  {
    var slots := FirstSlots(w.volume, FirstWorkers(w.nodes, n));
    var x := ApplyAll(w, CreatePlan(w)[..j]);
    var m := if j <= |slots| then j else |slots|;
    CutCreate(w, n, j);
    MadeAgain(w.volume, slots, m, w.replicas);
    CreateAgain(w, x, n);
  }

  /** Creating again on top of a part of what creation makes. */
  lemma CreateAgain(w: World, x: World, n: nat)
    requires Target(w.volume.replicaCount, w.nodes) == Ok(n)
    requires var slots := FirstSlots(w.volume, FirstWorkers(w.nodes, n));
             var first := Engine(w.volume.nodeID, Attachments(w.volume, slots), EnginePhase.Unset);
             && x == w.(replicas := x.replicas, engine := x.engine)
             && Made(w.volume, slots) + x.replicas == Made(w.volume, slots) + w.replicas
             && (x.engine == w.engine || (w.engine.None? && x.engine == Some(first)))
    ensures ApplyAll(x, CreatePlan(x)) == ApplyAll(w, CreatePlan(w))
  {
    CreateEffect(w, n);
    CreateEffect(x, n);
  }

  lemma FirstRetrySettled(w: World, cut: nat)
    requires w.volume.nodeID != "" && cut < |FirstPlan(w)|
    ensures var x := ApplyAll(w, FirstPlan(w)[..cut]);
            x.volume == w.volume && ApplyAll(x, FirstPlan(x)) == ApplyAll(w, FirstPlan(w))
  {
    CreateRetry(w, Target(w.volume.replicaCount, w.nodes).value, cut);
  }

  lemma FirstPlanUnsettled(w: World, node: string)
    requires w.volume.nodeID == "" && AnyWorker(w.nodes) == Some(node) && node != ""
    ensures FirstPlan(w) == [SetVolumeNode(node)] + FirstPlan(Apply(w, SetVolumeNode(node)))
  {
  }

  lemma FirstRetryUnsettled(w: World, node: string, cut: nat)
    requires w.volume.nodeID == "" && AnyWorker(w.nodes) == Some(node) && node != ""
    requires cut < |FirstPlan(w)|
    ensures var x := ApplyAll(w, FirstPlan(w)[..cut]);
            x.volume.status == w.volume.status && ApplyAll(x, FirstPlan(x)) == ApplyAll(w, FirstPlan(w))
  {
    var settle := SetVolumeNode(node);
    var y := Apply(w, settle);
    FirstPlanUnsettled(w, node);
    CutAfterOne(w, settle, FirstPlan(y), cut);
    if cut > 0 {
      FirstRetrySettled(y, cut - 1);
    }
  }

  lemma CutAfterOne(w: World, write: Write, rest: seq<Write>, cut: nat)
    requires cut <= 1 + |rest|
    ensures ApplyAll(w, [write] + rest) == ApplyAll(Apply(w, write), rest)
    ensures ApplyAll(w, ([write] + rest)[..cut]) == if cut == 0 then w else ApplyAll(Apply(w, write), rest[..cut - 1])
  {
    AfterOne(w, write, rest);
    if cut > 0 {
      assert ([write] + rest)[..cut] == [write] + rest[..cut - 1];
      AfterOne(w, write, rest[..cut - 1]);
    }
  }

  lemma AfterOne(w: World, write: Write, rest: seq<Write>)
    ensures ApplyAll(w, [write] + rest) == ApplyAll(Apply(w, write), rest)
  {
    ApplyOne(w, write);
    ApplyAllAppend(w, [write], rest);
  }

  /** Crash and retry of creation: cut off anywhere, the first pass is completed to the very same state. */
  lemma CreationIsRetried(w: World, now: int, cut: nat, later: int)
    requires w.present && !w.volume.status.engineRef && cut < |PassPlan(w, now)|
    requires forall i :: 0 <= i < |w.nodes| ==> w.nodes[i].name != ""
    ensures FullPass(CutPass(w, now, cut), later) == FullPass(w, now)
  {
    if w.volume.nodeID != "" {
      FirstRetrySettled(w, cut);
    } else {
      FirstRetryUnsettled(w, AnyWorker(w.nodes).value, cut);
    }
  }

  // ---- Healing ----

  /** A repair that deletes or detaches, unlike a restart, is decided whatever the time. */
  lemma RepairAnyTime(y: World, list: seq<Attachment>, now: int, later: int)
    requires var r := Repaired(y, list, |list|, now);
             r.Some? && !Decide(y, HealthOf(y, list[r.value]), now).Restart?
    ensures HealPlan(y, list, |list|, later) == HealPlan(y, list, |list|, now)
    ensures Repaired(y, list, |list|, later) == Repaired(y, list, |list|, now)
  {
    RepairedIsAlone(y, list, now);
    var i := Repaired(y, list, |list|, now).value;
    RepairedWhenAlone(y, list, i, later);
    assert Decide(y, Rebuilt(y, list)[i], later) == Decide(y, Rebuilt(y, list)[i], now);
  }

  /** Half of a healing delete: the object is gone, the attachment is not. */
  lemma HalfDeletedIsDue(y: World, i: nat, now: int, later: int)
    requires UpkeepDue(y) && TypesRight(y, List(y), 0) && DistinctAttached(List(y))
    requires Repaired(y, List(y), |List(y)|, now) == Some(i)
    ensures var x := Apply(y, DeleteReplica(List(y)[i].name));
            && UpkeepDue(x) && !ChildrenReady(x) && TypesRight(x, List(x), 0)
            && Repaired(x, List(y), |List(y)|, later) == Some(i)
            && Decide(x, HealthOf(x, List(y)[i]), later) == RemoveMissing
  {
    var list := List(y);
    var name := list[i].name;
    var x := Apply(y, DeleteReplica(name));
    RepairedIsAlone(y, list, now);
    forall j | 0 <= j < |list| && j != i ensures Healthy(x, list[j].name) {
      assert list[j].name != name;
    }
    RepairedWhenAlone(x, list, i, later);
  }

  lemma RemoveMissingEffect(x: World, i: nat, now: int)
    requires x.engine.Some? && Repaired(x, List(x), |List(x)|, now) == Some(i)
    requires Decide(x, HealthOf(x, List(x)[i]), now) == RemoveMissing
    ensures var z := ApplyAll(x, HealPlan(x, List(x), |List(x)|, now));
            && z == x.(volume := z.volume, engine := Some(x.engine.value.(replicas := Without(List(x), i))))
            && z.volume == x.volume.(status := x.volume.status.(health := z.volume.status.health))
  {
    var status := x.volume.status.(health := Rebuilt(x, List(x)));
    assert HealPlan(x, List(x), |List(x)|, now) == [SetAttachments(Without(List(x), i)), SetVolumeStatus(status)];
    DetachEffect(x, Without(List(x), i), status);
  }

  lemma DetachEffect(x: World, rest: seq<Attachment>, status: VolumeStatus)
    requires x.engine.Some?
    ensures ApplyAll(x, [SetAttachments(rest), SetVolumeStatus(status)])
            == x.(volume := x.volume.(status := status), engine := Some(x.engine.value.(replicas := rest)))
  {
    ApplyTwo(x, SetAttachments(rest), SetVolumeStatus(status));
  }

  /** A heal that deleted the object but not the attachment is finished by the missing case. */
  lemma HalfDeletedIsFinished(y: World, i: nat, now: int, later: int)
    requires UpkeepDue(y) && TypesRight(y, List(y), 0) && DistinctAttached(List(y))
    requires Target(y.volume.replicaCount, y.nodes) == Ok(|List(y)|)
    requires Repaired(y, List(y), |List(y)|, now) == Some(i)
    ensures var x := Apply(y, DeleteReplica(List(y)[i].name));
            FullPass(x, later) == x.(volume := FullPass(x, later).volume,
                                     engine := Some(y.engine.value.(replicas := Without(List(y), i))))
  {
    var x := Apply(y, DeleteReplica(List(y)[i].name));
    HalfDeletedIsDue(y, i, now, later);
    HealingWithoutTypes(x, later);
    RemoveMissingEffect(x, i, later);
  }

  lemma HealingWithoutTypes(x: World, now: int)
    requires UpkeepDue(x) && TypesRight(x, List(x), 0) && !ChildrenReady(x)
    requires Target(x.volume.replicaCount, x.nodes) == Ok(|List(x)|)
    ensures FullPass(x, now) == ApplyAll(x, HealPlan(x, List(x), |List(x)|, now))
  {
    UpkeepWithoutTypes(x, now);
  }

  lemma RecreateEffect(y: World, list: seq<Attachment>, i: nat, now: int)
    requires y.engine.Some? && List(y) == list && Repaired(y, list, |list|, now) == Some(i)
    requires Decide(y, HealthOf(y, list[i]), now).Recreate?
    ensures var x := ApplyAll(y, HealPlan(y, list, |list|, now));
            x == y.(volume := x.volume, replicas := y.replicas - {list[i].name},
                    engine := Some(y.engine.value.(replicas := Without(list, i))))
  {
    var status := y.volume.status.(health := Rebuilt(y, list));
    assert HealPlan(y, list, |list|, now)
        == [DeleteReplica(list[i].name), SetAttachments(Without(list, i)), SetVolumeStatus(status)];
    DropEffect(y, list[i].name, Without(list, i), status);
  }

  lemma DropEffect(y: World, name: string, rest: seq<Attachment>, status: VolumeStatus)
    requires y.engine.Some?
    ensures ApplyAll(y, [DeleteReplica(name), SetAttachments(rest), SetVolumeStatus(status)])
            == y.(volume := y.volume.(status := status), replicas := y.replicas - {name},
                  engine := Some(y.engine.value.(replicas := rest)))
  {
    var drop, ends := DeleteReplica(name), [SetAttachments(rest), SetVolumeStatus(status)];
    assert [drop] + ends == [drop, SetAttachments(rest), SetVolumeStatus(status)];
    AfterOne(y, drop, ends);
    DetachEffect(Apply(y, DeleteReplica(name)), rest, status);
  }

  lemma HealingCutAtTheEnd(w: World, now: int, cut: nat)
    requires UpkeepDue(w) && DistinctAttached(List(w)) && !ChildrenReady(w)
    requires |PassPlan(w, now)| - 2 < cut <= |PassPlan(w, now)|
    requires Target(w.volume.replicaCount, w.nodes) == Ok(|List(w)|)
    requires Repaired(w, List(w), |List(w)|, now).Some?
    ensures var x, done := CutPass(w, now, cut), FullPass(w, now); x == done.(volume := x.volume)
  {
    WholeUpkeep(w, now);
    UpkeepEnds(w, now);
    StatusWriteLast(w, PassPlan(w, now), cut);
  }

  /**
   Crash and retry of a healing delete: cut off anywhere, then run again at any later moment, it ends
   with the same attachments, objects and pods as an uninterrupted pass.
   */
  lemma HealingDeleteIsRetried(w: World, now: int, cut: nat, later: int)
    requires UpkeepDue(w) && DistinctAttached(List(w)) && !ChildrenReady(w) && cut <= |PassPlan(w, now)|
    requires Target(w.volume.replicaCount, w.nodes) == Ok(|List(w)|)
    requires var r := Repaired(w, List(w), |List(w)|, now);
             r.Some? && !Decide(w, HealthOf(w, List(w)[r.value]), now).Restart?
    ensures var x, done := CutPass(w, now, cut), FullPass(w, now);
            if cut <= |PassPlan(w, now)| - 2 then FullPass(x, later) == done.(volume := FullPass(x, later).volume)
            else x == done.(volume := x.volume)
  {
    if cut > |PassPlan(w, now)| - 2 {
      HealingCutAtTheEnd(w, now, cut);
    } else {
      HealingCutEarlier(w, now, cut, later);
    }
  }

  /** At its target size, what follows the corrections is the healing. */
  lemma HealIsDue(w: World, now: int)
    requires UpkeepDue(w) && !ChildrenReady(w) && Target(w.volume.replicaCount, w.nodes) == Ok(|List(w)|)
    ensures UpkeepPlan(Typed(w), List(w), ChildrenReady(w), now) == HealPlan(Typed(w), List(w), |List(w)|, now)
    ensures FullPass(w, now) == ApplyAll(Typed(w), HealPlan(Typed(w), List(w), |List(w)|, now))
    ensures |PassPlan(w, now)| == |Corrections(w)| + |HealPlan(Typed(w), List(w), |List(w)|, now)|
  {
    WholeUpkeep(w, now);
  }

  lemma HealingCutAmongTypes(w: World, now: int, cut: nat, later: int)
    requires UpkeepDue(w) && DistinctAttached(List(w)) && !ChildrenReady(w)
    requires cut <= |Corrections(w)| && cut <= |PassPlan(w, now)|
    requires Target(w.volume.replicaCount, w.nodes) == Ok(|List(w)|)
    requires var r := Repaired(w, List(w), |List(w)|, now);
             r.Some? && !Decide(w, HealthOf(w, List(w)[r.value]), now).Restart?
    ensures FullPass(CutPass(w, now, cut), later) == FullPass(w, now)
  {
    var full := FullPass(CutPass(w, now, cut), later);
    CutAmongTypes(w, now, cut, later);
    HealIsDue(w, now);
    HealIsDue(w, later);
    assert full == ApplyAll(Typed(w), HealPlan(Typed(w), List(w), |List(w)|, later));
    RepairedThroughTypes(w, now);
    RepairAnyTime(Typed(w), List(w), now, later);
  }

  lemma HealingCutEarlier(w: World, now: int, cut: nat, later: int)
    requires UpkeepDue(w) && DistinctAttached(List(w)) && !ChildrenReady(w) && cut <= |PassPlan(w, now)| - 2
    requires Target(w.volume.replicaCount, w.nodes) == Ok(|List(w)|)
    requires var r := Repaired(w, List(w), |List(w)|, now);
             r.Some? && !Decide(w, HealthOf(w, List(w)[r.value]), now).Restart?
    ensures var x, done := CutPass(w, now, cut), FullPass(w, now);
            FullPass(x, later) == done.(volume := FullPass(x, later).volume)
  {
    if cut <= |Corrections(w)| {
      HealingCutAmongTypes(w, now, cut, later);
    } else {
      HealIsDue(w, now);
      CutAfterTypes(w, now, cut);
      HealingCutLater(w, now, cut - |Corrections(w)|, later);
    }
  }

  lemma CutAfterTypes(w: World, now: int, cut: nat)
    requires UpkeepDue(w) && !ChildrenReady(w) && Target(w.volume.replicaCount, w.nodes) == Ok(|List(w)|)
    requires |Corrections(w)| < cut <= |PassPlan(w, now)|
    ensures var rest := HealPlan(Typed(w), List(w), |List(w)|, now);
            cut - |Corrections(w)| <= |rest| && CutPass(w, now, cut) == ApplyAll(Typed(w), rest[..cut - |Corrections(w)|])
  {
    HealIsDue(w, now);
    PassInParts(w, now, cut);
  }

  /** The corrections change nothing about the repair. */
  lemma RepairedThroughTypes(w: World, now: int)
    requires UpkeepDue(w) && DistinctAttached(List(w)) && Repaired(w, List(w), |List(w)|, now).Some?
    ensures var i, y := Repaired(w, List(w), |List(w)|, now).value, Typed(w);
            && Repaired(y, List(w), |List(w)|, now) == Some(i)
            && Decide(y, HealthOf(y, List(w)[i]), now) == Decide(w, HealthOf(w, List(w)[i]), now)
  {
    var list, y := List(w), Typed(w);
    TypedIsDue(w);
    HealingIgnoresTypes(w, y, list, |list|, now);
  }

  lemma HealingCutLater(w: World, now: int, j: nat, later: int)
    requires UpkeepDue(w) && DistinctAttached(List(w)) && !ChildrenReady(w)
    requires Target(w.volume.replicaCount, w.nodes) == Ok(|List(w)|)
    requires var r := Repaired(w, List(w), |List(w)|, now);
             r.Some? && !Decide(w, HealthOf(w, List(w)[r.value]), now).Restart?
    requires 0 < j <= |HealPlan(Typed(w), List(w), |List(w)|, now)| - 2
    ensures var rest := HealPlan(Typed(w), List(w), |List(w)|, now);
            var x, done := ApplyAll(Typed(w), rest[..j]), ApplyAll(Typed(w), rest);
            FullPass(x, later) == done.(volume := FullPass(x, later).volume)
  {
    TypedIsDue(w);
    RepairedThroughTypes(w, now);
    HealingCutInTwo(Typed(w), Repaired(w, List(w), |List(w)|, now).value, j, now, later);
  }

  lemma HealingCutInTwo(y: World, i: nat, j: nat, now: int, later: int)
    requires UpkeepDue(y) && TypesRight(y, List(y), 0) && DistinctAttached(List(y))
    requires Target(y.volume.replicaCount, y.nodes) == Ok(|List(y)|)
    requires Repaired(y, List(y), |List(y)|, now) == Some(i) && !Decide(y, HealthOf(y, List(y)[i]), now).Restart?
    requires 0 < j <= |HealPlan(y, List(y), |List(y)|, now)| - 2
    ensures var rest := HealPlan(y, List(y), |List(y)|, now);
            var x, done := ApplyAll(y, rest[..j]), ApplyAll(y, rest);
            FullPass(x, later) == done.(volume := FullPass(x, later).volume)
  {
    RepairPlanCut(y, List(y), i, now, j);
    ApplyOne(y, DeleteReplica(List(y)[i].name));
    HealingHalves(y, i, now, later);
  }

  lemma HealingHalves(y: World, i: nat, now: int, later: int)
    requires UpkeepDue(y) && TypesRight(y, List(y), 0) && DistinctAttached(List(y))
    requires Target(y.volume.replicaCount, y.nodes) == Ok(|List(y)|)
    requires Repaired(y, List(y), |List(y)|, now) == Some(i) && Decide(y, HealthOf(y, List(y)[i]), now).Recreate?
    ensures var x, done := Apply(y, DeleteReplica(List(y)[i].name)), ApplyAll(y, HealPlan(y, List(y), |List(y)|, now));
            FullPass(x, later) == done.(volume := FullPass(x, later).volume)
  {
    HalfDeletedIsFinished(y, i, now, later);
    RecreateEffect(y, List(y), i, now);
  }

  lemma RepairPlanCut(y: World, list: seq<Attachment>, i: nat, now: int, j: nat)
    requires Repaired(y, list, |list|, now) == Some(i) && !Decide(y, HealthOf(y, list[i]), now).Restart?
    requires 0 < j <= |HealPlan(y, list, |list|, now)| - 2
    ensures j == 1 && Decide(y, HealthOf(y, list[i]), now).Recreate?
    ensures HealPlan(y, list, |list|, now)[..1] == [DeleteReplica(list[i].name)]
  {
  }

}
