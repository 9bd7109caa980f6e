/** What a healing pass may touch, and what its wish to be called again is worth. */
module Healing {
  import opened Wrappers
  import opened Names
  import opened Types
  import opened Nodes
  import opened Plan
  import opened Scale
  import opened Passes
  import opened VolumeController

  // ---- The guard ----

  lemma {:induction false} UnhealthyLowersCount(w: World, list: seq<Attachment>, i: nat)
    requires i < |list| && !Healthy(w, list[i].name)
    ensures HealthyCount(w, list) <= |list| - 1
  {
    var n := |list| - 1;
    if i < n {
      UnhealthyLowersCount(w, list[..n], i);
    }
  }

  lemma {:induction false} TwoUnhealthyLowerCount(w: World, list: seq<Attachment>, i: nat, j: nat)
    requires i < j < |list| && !Healthy(w, list[i].name) && !Healthy(w, list[j].name)
    ensures HealthyCount(w, list) <= |list| - 2
  {
    var n := |list| - 1;
    if j < n {
      TwoUnhealthyLowerCount(w, list[..n], i, j);
    } else {
      UnhealthyLowersCount(w, list[..n], i);
    }
  }

  /** A healthy replica is never repaired. */
  lemma HealthyIsNotRepaired(w: World, list: seq<Attachment>, desired: nat, now: int)
    ensures Repaired(w, list, desired, now).Some? ==>
              var i := Repaired(w, list, desired, now).value;
              !Healthy(w, list[i].name) && HealthyCount(w, list) >= desired - 1
  {
  }

  /** If the list has the desired length, the repaired replica is the only unhealthy one. */
  lemma OnlyUnhealthy(w: World, list: seq<Attachment>, now: int, j: nat)
    requires Repaired(w, list, |list|, now).Some? && j < |list| && j != Repaired(w, list, |list|, now).value
    ensures Healthy(w, list[j].name)
  {
    var i := Repaired(w, list, |list|, now).value;
    HealthyIsNotRepaired(w, list, |list|, now);
    if !Healthy(w, list[j].name) {
      TwoUnhealthyLowerCount(w, list, if i < j then i else j, if i < j then j else i);
    }
  }

  // ---- The effect of a repair ----

  /** Objects and pods are as before except, at most, those of one name. */
  ghost predicate SameButFor(w: World, x: World, name: string) {
    && x.nodes == w.nodes
    && x.replicas - {name} == w.replicas - {name}
    && x.pods - {PodName(name)} == w.pods - {PodName(name)}
  }

  lemma StepTouchesOne(w: World, x: World, write: Write, list: seq<Attachment>, i: nat)
    requires i < |list| && SameButFor(w, x, list[i].name) && x.engine.Some?
          && (List(x) == list || List(x) == Without(list, i))
    requires write.SetVolumeStatus? || write == DeleteReplica(list[i].name) || write == DeletePod(PodName(list[i].name))
             || write == SetAttachments(Without(list, i))
    ensures var y := Apply(x, write);
            SameButFor(w, y, list[i].name) && y.engine.Some? && (List(y) == list || List(y) == Without(list, i))
  {
  }

  lemma {:induction false} RepairTouchesOne(w: World, list: seq<Attachment>, health: seq<Health>, i: nat, now: int, cut: nat)
    requires |health| == |list| && i < |list| && w.engine.Some? && List(w) == list
    requires cut <= |RepairPlan(w, list, health, i, now)|
    ensures var x := ApplyAll(w, RepairPlan(w, list, health, i, now)[..cut]);
            && SameButFor(w, x, list[i].name)
            && x.engine.Some? && (List(x) == list || List(x) == Without(list, i))
  {
    if cut > 0 {
      var plan := RepairPlan(w, list, health, i, now);
      assert plan[..cut][..cut - 1] == plan[..cut - 1];
      RepairTouchesOne(w, list, health, i, now, cut - 1);
      StepTouchesOne(w, ApplyAll(w, plan[..cut - 1]), plan[cut - 1], list, i);
    }
  }

  lemma HealTouchesOne(w: World, list: seq<Attachment>, desired: nat, now: int, cut: nat)
    requires w.engine.Some? && List(w) == list && cut <= |HealPlan(w, list, desired, now)|
    ensures var x, r := ApplyAll(w, HealPlan(w, list, desired, now)[..cut]), Repaired(w, list, desired, now);
            && x.engine.Some?
            && (r.None? ==> x == w.(volume := x.volume))
            && (r.Some? ==> SameButFor(w, x, list[r.value].name) && (List(x) == list || List(x) == Without(list, r.value)))
  {
    var plan, r := HealPlan(w, list, desired, now), Repaired(w, list, desired, now);
    if r.Some? {
      RepairTouchesOne(w, list, Rebuilt(w, list), r.value, now, cut);
    } else if cut == 1 {
      assert plan[..1] == [plan[0]];
      ApplyOne(w, plan[0]);
    }
  }

  /** Every healthy attached replica is still attached and healthy. */
  ghost predicate HealthyKept(w: World, x: World) {
    && w.engine.Some? && x.engine.Some?
    && forall i :: 0 <= i < |List(w)| && Healthy(w, List(w)[i].name) ==>
         List(w)[i] in List(x) && Healthy(x, List(w)[i].name)
  }

  lemma HealKeepsHealthy(w: World, list: seq<Attachment>, desired: nat, now: int, cut: nat)
    requires w.engine.Some? && List(w) == list && DistinctAttached(list)
    requires cut <= |HealPlan(w, list, desired, now)|
    ensures HealthyKept(w, ApplyAll(w, HealPlan(w, list, desired, now)[..cut]))
  {
    var x, r := ApplyAll(w, HealPlan(w, list, desired, now)[..cut]), Repaired(w, list, desired, now);
    HealTouchesOne(w, list, desired, now, cut);
    HealthyIsNotRepaired(w, list, desired, now);
    if r.Some? {
      OthersKeepHealth(w, x, list, r.value);
    }
  }

  lemma OthersKeepHealth(w: World, x: World, list: seq<Attachment>, i: nat)
    requires w.engine.Some? && List(w) == list && DistinctAttached(list) && i < |list| && !Healthy(w, list[i].name)
    requires SameButFor(w, x, list[i].name) && x.engine.Some? && (List(x) == list || List(x) == Without(list, i))
    ensures HealthyKept(w, x)
  {
    forall j | 0 <= j < |list| && Healthy(w, list[j].name)
      ensures list[j] in List(x) && Healthy(x, list[j].name)
    {
      SameButForKeeps(w, x, list[i].name, list[j].name);
      assert Without(list, i)[if j < i then j else j - 1] == list[j];
    }
  }

  lemma SameButForKeeps(w: World, x: World, name: string, other: string)
    requires SameButFor(w, x, name) && name != other && Healthy(w, other)
    ensures Healthy(x, other)
  {
    if PodName(name) == PodName(other) { PodNameInjective(name, other); }
    assert other in w.replicas - {name} && PodName(other) in w.pods - {PodName(name)};
    assert other in x.replicas - {name} && PodName(other) in x.pods - {PodName(name)};
  }

  /** A pass is its type corrections, cut or whole, and then the rest of it. */
  lemma PassInParts(w: World, now: int, cut: nat)
    requires UpkeepDue(w) && cut <= |PassPlan(w, now)|
    ensures var types := TypePlan(w, List(w), 0);
            var y := ApplyAll(w, types);
            var rest := UpkeepPlan(y, List(w), ChildrenReady(w), now);
            && SameButTypes(w, y)
            && (cut <= |types| ==> SameButTypes(w, CutPass(w, now, cut)))
            && (cut > |types| ==> cut - |types| <= |rest| && CutPass(w, now, cut) == ApplyAll(y, rest[..cut - |types|]))
  {
    var types := TypePlan(w, List(w), 0);
    var rest := UpkeepPlan(ApplyAll(w, types), List(w), ChildrenReady(w), now);
    assert types[..|types|] == types;
    TypesOnly(w, List(w), 0, |types|);
    if cut <= |types| {
      assert (types + rest)[..cut] == types[..cut];
      TypesOnly(w, List(w), 0, cut);
    } else {
      assert (types + rest)[..cut] == types + rest[..cut - |types|];
      ApplyAllAppend(w, types, rest[..cut - |types|]);
    }
  }

  lemma HealthyKeptThroughTypes(w: World, y: World, x: World)
    requires SameButTypes(w, y) && HealthyKept(y, x)
    ensures HealthyKept(w, x)
  {
    assert y.engine == w.engine;
    HealingIgnoresTypes(w, y, List(w), 0, 0);
    forall i | 0 <= i < |List(w)| && Healthy(w, List(w)[i].name)
      ensures List(w)[i] in List(x) && Healthy(x, List(w)[i].name)
    {
      assert Healthy(y, List(y)[i].name);
    }
  }

  /** At its target size a pass, cut off anywhere, leaves every healthy replica attached and healthy, with its pod. */
  lemma PassKeepsHealthy(w: World, now: int, cut: nat)
    requires UpkeepDue(w) && DistinctAttached(List(w))
    requires Target(w.volume.replicaCount, w.nodes) == Ok(|List(w)|) && cut <= |PassPlan(w, now)|
    ensures HealthyKept(w, CutPass(w, now, cut))
  {
    var list, types := List(w), TypePlan(w, List(w), 0);
    var y := ApplyAll(w, types);
    PassInParts(w, now, cut);
    if cut <= |types| {
      HealingIgnoresTypes(w, CutPass(w, now, cut), list, |list|, now);
    } else {
      HealKeepsHealthy(y, list, |list|, now, cut - |types|);
      HealthyKeptThroughTypes(w, y, CutPass(w, now, cut));
    }
  }

  /** At its target size a pass, cut off anywhere, touches the object, pod and attachment of one replica at most. */
  lemma PassTouchesOne(w: World, now: int, cut: nat)
    requires UpkeepDue(w) && Target(w.volume.replicaCount, w.nodes) == Ok(|List(w)|) && cut <= |PassPlan(w, now)|
    ensures var x, r := CutPass(w, now, cut), if ChildrenReady(w) then None else Repaired(w, List(w), |List(w)|, now);
            && x.engine.Some?
            && (r.None? ==> List(x) == List(w) && x.pods == w.pods && x.replicas.Keys == w.replicas.Keys)
            && (r.Some? ==>
                  var name := List(w)[r.value].name;
                  && (List(x) == List(w) || List(x) == Without(List(w), r.value))
                  && x.replicas.Keys - {name} == w.replicas.Keys - {name}
                  && x.pods - {PodName(name)} == w.pods - {PodName(name)})
  {
    var list, types := List(w), TypePlan(w, List(w), 0);
    var y := ApplyAll(w, types);
    PassInParts(w, now, cut);
    HealingIgnoresTypes(w, y, list, |list|, now);
    if cut > |types| {
      HealTouchesOne(y, list, |list|, now, cut - |types|);
      if !ChildrenReady(w) && Repaired(w, list, |list|, now).Some? {
        KeysButFor(w, y, CutPass(w, now, cut), list[Repaired(w, list, |list|, now).value].name);
      }
    }
  }

  lemma KeysButFor(w: World, y: World, x: World, name: string)
    requires SameButTypes(w, y) && SameButFor(y, x, name)
    ensures x.replicas.Keys - {name} == w.replicas.Keys - {name} && x.pods - {PodName(name)} == w.pods - {PodName(name)}
  {
    assert x.replicas.Keys - {name} == (x.replicas - {name}).Keys;
    assert y.replicas.Keys - {name} == (y.replicas - {name}).Keys;
  }

  /** The replica a pass repairs at its target size is the only unhealthy one. */
  lemma RepairedIsAlone(w: World, list: seq<Attachment>, now: int)
    requires Repaired(w, list, |list|, now).Some?
    ensures var i := Repaired(w, list, |list|, now).value;
            && HealthyCount(w, list) == |list| - 1
            && forall j :: 0 <= j < |list| ==> (Healthy(w, list[j].name) <==> j != i)
  {
    var i := Repaired(w, list, |list|, now).value;
    HealthyIsNotRepaired(w, list, |list|, now);
    UnhealthyLowersCount(w, list, i);
    forall j | 0 <= j < |list| && j != i ensures Healthy(w, list[j].name) {
      OnlyUnhealthy(w, list, now, j);
    }
  }

  // ---- Sleeping misses nothing ----

  lemma {:induction false} RecordKept(health: seq<Health>, source: seq<Health>, name: string)
    requires forall i :: 0 <= i < |health| ==>
               Record(health[i].attempts, health[i].lastHeal) == FindRecord(source, health[i].name)
    requires exists i :: 0 <= i < |health| && health[i].name == name
    ensures FindRecord(health, name) == FindRecord(source, name)
  {
    if health[0].name != name {
      var i :| 0 <= i < |health| && health[i].name == name;
      assert health[1..][i - 1].name == name;
      RecordKept(health[1..], source, name);
    }
  }

  /** Observing again after the observations were stored gives the same observations. */
  lemma ObservingIsStable(w: World, x: World, list: seq<Attachment>)
    requires x == w.(volume := x.volume) && x.volume.status.health == Rebuilt(w, list)
    ensures Rebuilt(x, list) == Rebuilt(w, list)
    ensures HealthyCount(x, list) == HealthyCount(w, list)
  {
    var health := Rebuilt(w, list);
    forall i | 0 <= i < |list| ensures HealthOf(x, list[i]) == health[i] {
      assert health[i].name == list[i].name;
      RecordKept(health, w.volume.status.health, list[i].name);
    }
    CountDependsOnObjects(w, x, list);
  }

  lemma {:induction false} CountDependsOnObjects(w: World, x: World, list: seq<Attachment>)
    requires x.replicas == w.replicas && x.pods == w.pods
    ensures HealthyCount(x, list) == HealthyCount(w, list)
  {
    if list != [] {
      CountDependsOnObjects(w, x, list[..|list| - 1]);
    }
  }

  /** A replica that waits for its restart, as opposed to one that merely cools down. */
  predicate AwaitsRestart(w: World, h: Health, now: int) {
    && Decide(w, h, now).Wait?
    && (h.phase == Seen(ReplicaPhase.Failed) || h.phase == Seen(ReplicaPhase.Pending))
  }

  /** A decision not to repair changes with time only when a wait for a restart is over. */
  lemma DecisionLater(w: World, x: World, h: Health, now: int, later: int)
    requires x == w.(volume := x.volume) && now <= later && !Repairs(Decide(w, h, now))
    ensures Repairs(Decide(x, h, later)) <==> AwaitsRestart(w, h, now) && Decide(w, h, now).seconds <= later - now
  {
  }

  /**
   When healing takes no action, running it later on the same cluster acts exactly when the wait of
   some replica that awaits its restart is over.
   */
  lemma WhenHealingActs(w: World, list: seq<Attachment>, desired: nat, now: int, later: int)
    requires w.engine.Some? && List(w) == list && now <= later
    requires GuardHolds(w, list, desired) && Repaired(w, list, desired, now).None?
    ensures var x, health := ApplyAll(w, HealPlan(w, list, desired, now)), Rebuilt(w, list);
            Repaired(x, list, desired, later).Some?
            <==> exists j :: 0 <= j < |list| && AwaitsRestart(w, health[j], now)
                             && Decide(w, health[j], now).seconds <= later - now
  {
    var health := Rebuilt(w, list);
    var x := ApplyAll(w, HealPlan(w, list, desired, now));
    ApplyOne(w, HealPlan(w, list, desired, now)[0]);
    ObservingIsStable(w, x, list);
    forall j | 0 <= j < |list|
      ensures Repairs(Decide(x, health[j], later))
              <==> AwaitsRestart(w, health[j], now) && Decide(w, health[j], now).seconds <= later - now
    {
      DecisionLater(w, x, health[j], now, later);
    }
  }

  /** The wish is the least of all waits considered, and there is one if anything waits. */
  lemma WishIsShortest(w: World, list: seq<Attachment>, desired: nat, now: int)
    requires GuardHolds(w, list, desired) && Repaired(w, list, desired, now).None?
    ensures var health, wish := Rebuilt(w, list), HealRequeue(w, list, desired, now);
            && (forall j :: 0 <= j < |list| && Decide(w, health[j], now).Wait? && Decide(w, health[j], now).seconds > 0 ==>
                  0 < wish <= Decide(w, health[j], now).seconds)
            && (wish > 0 ==> exists j :: 0 <= j < |list| && Decide(w, health[j], now) == Wait(wish))
  {
  }

  /**
   Sleeping misses nothing: if a healing pass repairs nothing, then at any moment before the time it
   asks for, running it again on the same cluster repairs nothing either; with no wish, at no time.
   */
  lemma SleepMissesNothing(w: World, list: seq<Attachment>, desired: nat, now: int, later: int)
    requires w.engine.Some? && List(w) == list && now <= later
    requires Repaired(w, list, desired, now).None?
    requires HealRequeue(w, list, desired, now) > 0 ==> later < now + HealRequeue(w, list, desired, now)
    ensures Repaired(ApplyAll(w, HealPlan(w, list, desired, now)), list, desired, later).None?
  {
    if GuardHolds(w, list, desired) {
      WishIsShortest(w, list, desired, now);
      var health := Rebuilt(w, list);
      forall j | 0 <= j < |list| && AwaitsRestart(w, health[j], now)
        ensures Decide(w, health[j], now).seconds > later - now
      {
        assert Decide(w, health[j], now).seconds > 0;
      }
      WhenHealingActs(w, list, desired, now, later);
    } else {
      BelowGuardStaysBelow(w, list, desired, now);
    }
  }

  lemma BelowGuardStaysBelow(w: World, list: seq<Attachment>, desired: nat, now: int)
    requires !GuardHolds(w, list, desired)
    ensures !GuardHolds(ApplyAll(w, HealPlan(w, list, desired, now)), list, desired)
  {
    var x := ApplyAll(w, HealPlan(w, list, desired, now));
    ApplyOne(w, HealPlan(w, list, desired, now)[0]);
    CountDependsOnObjects(w, x, list);
  }

  /** If all others are healthy, the one that needs a repair gets it. */
  lemma RepairedWhenAlone(y: World, list: seq<Attachment>, i: nat, now: int)
    requires i < |list| && Repairs(Decide(y, HealthOf(y, list[i]), now))
    requires forall j :: 0 <= j < |list| && j != i ==> Healthy(y, list[j].name)
    ensures Repaired(y, list, |list|, now) == Some(i)
  {
    AllButOneHealthy(y, list, i);
    var health := Rebuilt(y, list);
    assert Repairs(Decide(y, health[i], now));
    forall j | 0 <= j < i ensures !Repairs(Decide(y, health[j], now)) {
      assert health[j].phase == Seen(ReplicaPhase.Running);
    }
  }

  lemma RestartEffect(w: World, list: seq<Attachment>, desired: nat, now: int)
    requires var r := Repaired(w, list, desired, now);
             r.Some? && Decide(w, HealthOf(w, list[r.value]), now).Restart?
    ensures var x, name := ApplyAll(w, HealPlan(w, list, desired, now)), list[Repaired(w, list, desired, now).value].name;
            x == w.(volume := x.volume, pods := w.pods - {PodName(name)})
  {
    var plan := HealPlan(w, list, desired, now);
    assert plan == [plan[0], plan[1]];
    ApplyTwo(w, plan[0], plan[1]);
  }

  lemma {:induction false} AllButOneHealthy(w: World, list: seq<Attachment>, i: int)
    requires forall j :: 0 <= j < |list| && j != i ==> Healthy(w, list[j].name)
    ensures HealthyCount(w, list) >= |list| - 1
    ensures !(0 <= i < |list|) ==> HealthyCount(w, list) == |list|
  {
    if list != [] {
      AllButOneHealthy(w, list[..|list| - 1], i);
    }
  }

}
