/**
 The tiers of healing over whole passes: exactly when a pass deletes a replica's object, what follows a
 restart, and what healing never gets to.
 */
module Tiers {
  import opened Wrappers
  import opened Names
  import opened Types
  import opened Nodes
  import opened Plan
  import opened Scale
  import opened Passes
  import opened Healing
  import opened Restarts
  import opened Reference
  import opened Runs
  import opened Invariants
  import opened CrashRetry

  // ---- When a pass repairs ----

  /** The one repair of a pass at its target size, from the stored objects. */
  lemma WhichRepair(w: World, i: nat, now: int)
    requires AtTarget(w) && i < |List(w)|
    ensures var list, name := List(w), List(w)[i].name;
            Repaired(w, list, |list|, now) == Some(i) <==>
              OthersServe(w, i) && (name !in w.replicas || GivenUp(w, name) || RestartDue(w, name, now))
  {
    var list := List(w);
    ServesIsHealthy(w);
    Decision(w, list[i], now);
    assert Rebuilt(w, list)[i] == HealthOf(w, list[i]);
    if Repaired(w, list, |list|, now) == Some(i) {
      RepairedIsAlone(w, list, now);
    }
    if OthersServe(w, i) && Repairs(Decide(w, HealthOf(w, list[i]), now)) {
      RepairedWhenAlone(w, list, i, now);
    }
  }

  /** What a whole pass that repairs the replica at position i leaves. */
  lemma RepairedState(w: World, i: nat, now: int)
    requires AtTarget(w) && !AllRunning(w) && DistinctAttached(List(w)) && i < |List(w)|
    requires Repaired(w, List(w), |List(w)|, now) == Some(i)
    ensures var x, name := FullPass(w, now), List(w)[i].name;
            && x.engine.Some?
            && (name !in w.replicas ==>
                  List(x) == Without(List(w), i) && x.pods == w.pods && x.replicas.Keys == w.replicas.Keys)
            && (GivenUp(w, name) ==>
                  List(x) == Without(List(w), i) && x.pods == w.pods && x.replicas.Keys == w.replicas.Keys - {name})
            && (RestartDue(w, name, now) ==>
                  List(x) == List(w) && x.pods == w.pods - {PodName(name)} && x.replicas.Keys == w.replicas.Keys)
  {
    var y, list := Typed(w), List(w);
    ServesIsHealthy(w);
    HealIsDue(w, now);
    TypedIsDue(w);
    RepairedThroughTypes(w, now);
    Decision(w, list[i], now);
    match Decide(w, HealthOf(w, list[i]), now)
    case RemoveMissing => RemoveMissingEffect(y, i, now);
    case Recreate => RecreateEffect(y, list, i, now);
    case Restart => RestartEffect(y, list, |list|, now);
    case _ => assert false;
  }

  /** And if it repairs none, all are left alone. */
  lemma UnrepairedState(w: World, now: int)
    requires AtTarget(w) && (AllRunning(w) || Repaired(w, List(w), |List(w)|, now).None?)
    ensures var x := FullPass(w, now);
            x.engine.Some? && List(x) == List(w) && x.pods == w.pods && x.replicas.Keys == w.replicas.Keys
  {
    var plan := PassPlan(w, now);
    ServesIsHealthy(w);
    assert plan[..|plan|] == plan;
    if UpkeepDue(w) {
      PassTouchesOne(w, now, |plan|);
    } else {
      ApplyOne(w, plan[0]);
    }
  }

  /** The position repaired, if any, decides which object, pod and attachment goes. */
  lemma OthersAreLeft(w: World, i: nat, j: nat, now: int)
    requires AtTarget(w) && !AllRunning(w) && DistinctAttached(List(w)) && i < |List(w)| && j < |List(w)| && i != j
    requires Repaired(w, List(w), |List(w)|, now) == Some(j)
    ensures var x, name := FullPass(w, now), List(w)[i].name;
            && (name in x.replicas <==> name in w.replicas)
            && (PodName(name) in x.pods <==> PodName(name) in w.pods)
            && x.engine.Some? && List(w)[i] in List(x)
  {
    var list, x := List(w), FullPass(w, now);
    RepairedState(w, j, now);
    WhichRepair(w, j, now);
    assert list[i].name != list[j].name;
    if PodName(list[i].name) == PodName(list[j].name) { PodNameInjective(list[i].name, list[j].name); }
    assert list[i].name in x.replicas.Keys <==> list[i].name in w.replicas.Keys;
    OthersStayAttached(list, j);
  }

  /**
   Exactly when a whole pass deletes the object of an attached replica: the engine or an object is not
   running, all other attached replicas serve, and this one is beyond a restart.
   */
  lemma WhenAnObjectIsDeleted(w: World, i: nat, now: int)
    requires AtTarget(w) && DistinctAttached(List(w)) && i < |List(w)| && List(w)[i].name in w.replicas
    ensures List(w)[i].name !in FullPass(w, now).replicas
            <==> !AllRunning(w) && OthersServe(w, i) && GivenUp(w, List(w)[i].name)
  {
    WhichRepair(w, i, now);
    if AllRunning(w) || Repaired(w, List(w), |List(w)|, now).None? {
      UnrepairedState(w, now);
      assert List(w)[i].name in FullPass(w, now).replicas.Keys;
    } else if Repaired(w, List(w), |List(w)|, now) == Some(i) {
      RepairedState(w, i, now);
      assert List(w)[i].name in w.replicas.Keys;
    } else {
      OthersAreLeft(w, i, Repaired(w, List(w), |List(w)|, now).value, now);
    }
  }

  /**
   Exactly when a whole pass deletes the pod of an attached replica, which restarts it: the engine or an
   object is not running, all other attached replicas serve, and a restart of this one is due. Then the
   restart is recorded, and list and objects stay.
   */
  lemma WhenAPodIsRestarted(w: World, i: nat, now: int)
    requires AtTarget(w) && DistinctAttached(List(w)) && i < |List(w)| && PodName(List(w)[i].name) in w.pods
    ensures var name, x := List(w)[i].name, FullPass(w, now);
            && (PodName(name) !in x.pods <==> !AllRunning(w) && OthersServe(w, i) && RestartDue(w, name, now))
            && (PodName(name) !in x.pods ==>
                  && RecordOf(x, name) == Record(RecordOf(w, name).attempts + 1, Some(now))
                  && x.engine.Some? && List(x) == List(w) && x.replicas.Keys == w.replicas.Keys)
  {
    var name, plan := List(w)[i].name, PassPlan(w, now);
    WhichRepair(w, i, now);
    if AllRunning(w) || Repaired(w, List(w), |List(w)|, now).None? {
      UnrepairedState(w, now);
    } else if Repaired(w, List(w), |List(w)|, now) == Some(i) {
      RepairedState(w, i, now);
      if PodName(name) !in FullPass(w, now).pods {
        assert plan[..|plan|] == plan;
        OnlyRestartsDeletePods(w, now, |plan|, name);
        assert name in AttachedNames(List(w));
        PassAndRecord(w, now, |plan|, name);
      }
    } else {
      OthersAreLeft(w, i, Repaired(w, List(w), |List(w)|, now).value, now);
    }
  }

  /**
   Exactly when a whole pass detaches a replica: the engine or an object is not running, all other
   attached replicas serve, and the object of this one is missing or it is beyond a restart.
   */
  lemma WhenAReplicaIsDetached(w: World, i: nat, now: int)
    requires AtTarget(w) && DistinctAttached(List(w)) && i < |List(w)|
    ensures var name, x := List(w)[i].name, FullPass(w, now);
            && x.engine.Some?
            && (List(x) == Without(List(w), i) || List(w)[i] in List(x))
            && (List(w)[i] !in List(x) <==>
                  !AllRunning(w) && OthersServe(w, i) && (name !in w.replicas || GivenUp(w, name)))
  {
    WhichRepair(w, i, now);
    if AllRunning(w) || Repaired(w, List(w), |List(w)|, now).None? {
      UnrepairedState(w, now);
    } else if Repaired(w, List(w), |List(w)|, now) == Some(i) {
      RepairedState(w, i, now);
      DetachedIsGone(List(w), i);
    } else {
      OthersAreLeft(w, i, Repaired(w, List(w), |List(w)|, now).value, now);
    }
  }

  lemma DetachedIsGone(list: seq<Attachment>, i: nat)
    requires DistinctAttached(list) && i < |list|
    ensures list[i] !in Without(list, i)
  {
    var rest := Without(list, i);
    assert forall k :: 0 <= k < |rest| ==> rest[k] == list[if k < i then k else k + 1];
  }

  // ---- After a restart ----

  /** What a whole pass that restarts leaves. */
  lemma RestartedState(w: World, i: nat, now: int)
    requires AtTarget(w) && !AllRunning(w) && DistinctAttached(List(w)) && i < |List(w)|
    requires OthersServe(w, i) && RestartDue(w, List(w)[i].name, now)
    ensures var x, name := FullPass(w, now), List(w)[i].name;
            && SameButTypes(w.(volume := x.volume, pods := x.pods), x)
            && RecordOf(x, name).attempts == RecordOf(w, name).attempts + 1 <= 5
            && x.volume == w.volume.(status := w.volume.status.(health := x.volume.status.health))
            && List(x) == List(w)
  {
    var x, y, list, plan := FullPass(w, now), Typed(w), List(w), PassPlan(w, now);
    ServesIsHealthy(w);
    WhichRepair(w, i, now);
    Decision(w, list[i], now);
    HealIsDue(w, now);
    TypedIsDue(w);
    RepairedThroughTypes(w, now);
    RestartEffect(y, list, |list|, now);
    assert plan[..|plan|] == plan && list[i].name in AttachedNames(list);
    PassAndRecord(w, now, |plan|, list[i].name);
    RestartStatus(y, list, i, now);
  }

  lemma RestartStatus(y: World, list: seq<Attachment>, i: nat, now: int)
    requires Repaired(y, list, |list|, now) == Some(i) && Decide(y, HealthOf(y, list[i]), now).Restart?
    ensures var x := ApplyAll(y, HealPlan(y, list, |list|, now));
            x.volume == y.volume.(status := y.volume.status.(health := x.volume.status.health))
  {
    var plan := HealPlan(y, list, |list|, now);
    assert plan == [plan[0], plan[1]];
    ApplyTwo(y, plan[0], plan[1]);
  }

  /**
   Exactly when the next pass deletes a replica that was just restarted, for every state in which only
   pods, the engine's phase and the clock have moved since: the engine or an object is not running, all
   other attached replicas serve, and either the replica's pod has no address, the object's phase is
   Running and it is not being deleted, or the pod has an address, the replica does not serve and the
   restart was the fifth. The backoff plays no part in it.
   */
  lemma RestartThenDelete(w: World, i: nat, now: int, y: World, later: int)
    requires AtTarget(w) && !AllRunning(w) && DistinctAttached(List(w)) && i < |List(w)|
    requires OthersServe(w, i) && RestartDue(w, List(w)[i].name, now)
    requires var x := FullPass(w, now);
             && x.engine.Some? && y.engine.Some?
             && y == x.(pods := y.pods, engine := Some(x.engine.value.(phase := y.engine.value.phase)))
    ensures var name := List(w)[i].name;
            name !in FullPass(y, later).replicas <==>
              && !AllRunning(y) && OthersServe(y, i)
              && if HasAddress(y, name) then !Serves(y, name) && RecordOf(w, name).attempts == 4
                 else w.replicas[name].status.phase == ReplicaPhase.Running && !w.replicas[name].deleting
  {
    RestartedState(w, i, now);
    RestartedIsGivenUp(w, FullPass(w, now), y, List(w)[i].name, now);
    WhenAnObjectIsDeleted(y, i, later);
  }

  lemma RestartedIsGivenUp(w: World, x: World, y: World, name: string, now: int)
    requires RestartDue(w, name, now) && SameButTypes(w.(volume := x.volume, pods := x.pods), x)
    requires RecordOf(x, name).attempts == RecordOf(w, name).attempts + 1 <= 5
    requires y.replicas == x.replicas && y.volume == x.volume
    ensures name in y.replicas
    ensures GivenUp(y, name) <==>
              if HasAddress(y, name) then !Serves(y, name) && RecordOf(w, name).attempts == 4
              else w.replicas[name].status.phase == ReplicaPhase.Running && !w.replicas[name].deleting
  {
    assert name in x.replicas.Keys;
    assert SameButType(w.replicas[name], x.replicas[name]);
  }

  // ---- What healing never gets to ----

  /** An attached replica whose object has no NQN, as the replica controller leaves a local one. */
  predicate SettledLocal(w: World, name: string) {
    && w.engine.Some? && name in AttachedNames(List(w))
    && name in w.replicas && w.replicas[name].status.nqn == ""
  }

  /** With such a replica attached, no pass repairs any other. */
  lemma OnlyLocalIsRepaired(w: World, name: string, now: int)
    requires SettledLocal(w, name) && Repaired(w, List(w), |List(w)|, now).Some?
    ensures List(w)[Repaired(w, List(w), |List(w)|, now).value].name == name
  {
    var list := List(w);
    var j :| 0 <= j < |list| && list[j].name == name;
    RepairedIsAlone(w, list, now);
  }

  /**
   In every run, as long as such a local replica stays attached, passes at the target size, cut off
   anywhere, leave the object, the pod and the attachment of every other replica alone, however
   unhealthy it is.
   */
  lemma LocalBlocksHealing(ws: seq<World>, es: seq<Event>, name: string, i: nat)
    requires IsRun(ws, es) && i < |es| && es[i].Pass?
    requires AtTarget(ws[i]) && UpkeepDue(ws[i]) && SettledLocal(ws[i], name)
    ensures var w, x := ws[i], ws[i + 1];
            && x.engine.Some? && x.replicas.Keys - {name} == w.replicas.Keys - {name}
            && x.pods - {PodName(name)} == w.pods - {PodName(name)}
            && forall a :: a in List(w) && a.name != name ==> a in List(x)
  {
    assert Next(ws[i], es[i], ws[i + 1]);
    LocalBlocksPass(ws[i], es[i].now, es[i].cut, name);
  }

  lemma LocalBlocksPass(w: World, now: int, cut: nat, name: string)
    requires AtTarget(w) && UpkeepDue(w) && SettledLocal(w, name) && cut <= |PassPlan(w, now)|
    ensures var x := CutPass(w, now, cut);
            && x.engine.Some? && x.replicas.Keys - {name} == w.replicas.Keys - {name}
            && x.pods - {PodName(name)} == w.pods - {PodName(name)}
            && forall a :: a in List(w) && a.name != name ==> a in List(x)
  {
    var list, r := List(w), Repaired(w, List(w), |List(w)|, now);
    PassTouchesOne(w, now, cut);
    if !ChildrenReady(w) && r.Some? {
      OnlyLocalIsRepaired(w, name, now);
      OthersStayAttached(list, r.value);
    }
  }

  lemma OthersStayAttached(list: seq<Attachment>, i: nat)
    requires i < |list|
    ensures forall a :: a in list && a.name != list[i].name ==> a in Without(list, i)
  {
    forall a | a in list && a.name != list[i].name ensures a in Without(list, i) {
      var k :| 0 <= k < |list| && list[k] == a;
      assert Without(list, i)[if k < i then k else k - 1] == a;
    }
  }

  /**
   In every run, as long as the engine and all attached objects are Running, no pass at the target size
   heals anything: list, objects and pods stay as they are, whatever the pods are like.
   */
  lemma ReadyIsNotHealed(ws: seq<World>, es: seq<Event>, i: nat)
    requires IsRun(ws, es) && i < |es| && es[i].Pass?
    requires AtTarget(ws[i]) && AllRunning(ws[i])
    ensures var w, x := ws[i], ws[i + 1];
            x.engine.Some? && List(x) == List(w) && x.pods == w.pods && x.replicas.Keys == w.replicas.Keys
  {
    var w, x, e := ws[i], ws[i + 1], es[i];
    ServesIsHealthy(w);
    assert Next(w, e, x);
    if UpkeepDue(w) {
      PassTouchesOne(w, e.now, e.cut);
    } else if e.cut == 1 {
      var plan := PassPlan(w, e.now);
      assert plan[..1] == [plan[0]];
      ApplyOne(w, plan[0]);
    }
  }

}
