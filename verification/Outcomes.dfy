/** What a whole pass of the volume controller answers, and the phase and health it leaves on record. */
module Outcomes {
  import opened Wrappers
  import opened Names
  import opened Types
  import opened Nodes
  import opened Plan
  import opened Scale
  import opened Passes
  import opened Healing
  import opened Restarts
  import opened VolumeController
  import opened CrashRetry
  import opened Reference
  import opened Tiers

  predicate CountParses(w: World) {
    ParseReplicaCount(w.volume.replicaCount).Ok?
  }

  /** The engine is to be marked ready. */
  predicate ToBeMarked(w: World) {
    AllRunning(w) && w.volume.status.phase != VolumePhase.Ready
  }

  /** A volume with an engine that is not to be marked ready. */
  predicate Kept(w: World) {
    w.present && w.volume.status.engineRef && w.engine.Some? && !ToBeMarked(w)
  }

  /** A repair is due for the replica at position i. */
  predicate RepairDueAt(w: World, i: nat, now: int)
    requires w.engine.Some? && i < |List(w)|
  {
    var name := List(w)[i].name;
    OthersServe(w, i) && (name !in w.replicas || GivenUp(w, name) || RestartDue(w, name, now))
  }

  ghost predicate RepairDue(w: World, now: int)
    requires w.engine.Some?
  {
    exists i: nat :: i < |List(w)| && RepairDueAt(w, i, now)
  }

  /** At most one attached replica does not serve. */
  predicate Calm(w: World)
    requires w.engine.Some?
  {
    forall i, j :: 0 <= i < j < |List(w)| ==> Serves(w, List(w)[i].name) || Serves(w, List(w)[j].name)
  }

  /** The replica was restarted before and is not out of care for want of a pod. */
  predicate CoolingAt(w: World, name: string) {
    && name in w.replicas && RecordOf(w, name).lastHeal.Some?
    && (!InCare(w, name) || Serves(w, name) || HasAddress(w, name))
  }

  function SecondsLeft(w: World, name: string, now: int): int
    requires RecordOf(w, name).lastHeal.Some?
  {
    WaitAfter(RecordOf(w, name).attempts) - (now - RecordOf(w, name).lastHeal.value)
  }

  // ---- The link to the plan ----

  lemma CalmIsTheGuard(w: World)
    requires w.engine.Some?
    ensures Calm(w) <==> GuardHolds(w, List(w), |List(w)|)
  {
    var list := List(w);
    ServesIsHealthy(w);
    if i, j :| 0 <= i < j < |list| && !Serves(w, list[i].name) && !Serves(w, list[j].name) {
      TwoUnhealthyLowerCount(w, list, i, j);
    } else if i :| 0 <= i < |list| && !Healthy(w, list[i].name) {
      AllButOneHealthy(w, list, i);
    } else {
      AllButOneHealthy(w, list, -1);
    }
  }

  lemma RepairedIsDue(w: World, now: int)
    requires AtTarget(w)
    ensures Repaired(w, List(w), |List(w)|, now).Some? <==> RepairDue(w, now)
  {
    var r := Repaired(w, List(w), |List(w)|, now);
    if r.Some? {
      WhichRepair(w, r.value, now);
      assert RepairDueAt(w, r.value, now);
    }
    if i: nat :| i < |List(w)| && RepairDueAt(w, i, now) {
      WhichRepair(w, i, now);
    }
  }

  lemma WaitDecision(w: World, a: Attachment, now: int)
    ensures var act := Decide(w, HealthOf(w, a), now);
            act.Wait? <==> CoolingAt(w, a.name) && SecondsLeft(w, a.name, now) > 0 && !GivenUp(w, a.name)
    ensures var act := Decide(w, HealthOf(w, a), now);
            act.Wait? ==> act.seconds == SecondsLeft(w, a.name, now)
  {
    assert Backoff(0) == 30 && Backoff(1) == 60 && Backoff(2) == 120;
    assert Backoff(3) == 2 * Backoff(2) && Backoff(4) == 2 * Backoff(3);
  }

  lemma {:induction false} WaitIgnoresTypes(w: World, y: World, health: seq<Health>, now: int, n: nat)
    requires n <= |health| && forall h :: Decide(w, h, now) == Decide(y, h, now)
    ensures ShortestWait(w, health, now, n) == ShortestWait(y, health, now, n)
  {
    if n > 0 {
      WaitIgnoresTypes(w, y, health, now, n - 1);
    }
  }

  lemma WishIgnoresTypes(w: World, now: int)
    requires AtTarget(w) && !AllRunning(w)
    ensures SameButTypes(w, Typed(w))
    ensures Repaired(Typed(w), List(w), |List(w)|, now) == Repaired(w, List(w), |List(w)|, now)
    ensures HealRequeue(Typed(w), List(w), |List(w)|, now) == HealRequeue(w, List(w), |List(w)|, now)
  {
    ServesIsHealthy(w);
    WholeUpkeep(w, now);
    HealingIgnoresTypes(w, Typed(w), List(w), |List(w)|, now);
    WaitIgnoresTypes(w, Typed(w), Rebuilt(w, List(w)), now, |List(w)|);
  }

  // ---- The answer ----

  /** A pass fails by itself exactly if it needs the count and that does not parse, or a node and there is none. */
  lemma WhenPassesFail(w: World, now: int)
    ensures PassOutcome(w, now) == Error <==>
              if w.present && !w.volume.status.engineRef
              then !CountParses(w) || (w.volume.nodeID == "" && w.nodes == [])
              else Kept(w) && !CountParses(w)
  {
    ServesIsHealthy(w);
  }

  /** A pass asks to be called again exactly if the volume is at its target, not running, and no repair is due. */
  lemma WhenPassesComeBack(w: World, now: int)
    ensures PassOutcome(w, now).RequeueAfter? <==> AtTarget(w) && !AllRunning(w) && !RepairDue(w, now)
  {
    ServesIsHealthy(w);
    if AtTarget(w) && !AllRunning(w) {
      WishIgnoresTypes(w, now);
      RepairedIsDue(w, now);
    }
  }

  /**
   And when: after the least time that is left to wait for a replica restarted before, as long as at most
   one attached replica does not serve; after five seconds otherwise.
   */
  lemma WhenToComeBack(w: World, now: int)
    requires PassOutcome(w, now).RequeueAfter?
    ensures AtTarget(w)
    ensures var s, list := PassOutcome(w, now).seconds, List(w);
            if Calm(w) && exists i :: 0 <= i < |list| && CoolingAt(w, list[i].name) && SecondsLeft(w, list[i].name, now) > 0
            then
              && (exists i :: 0 <= i < |list| && CoolingAt(w, list[i].name) && SecondsLeft(w, list[i].name, now) == s > 0)
              && (forall i :: 0 <= i < |list| && CoolingAt(w, list[i].name) && SecondsLeft(w, list[i].name, now) > 0 ==>
                    s <= SecondsLeft(w, list[i].name, now))
            else s == 5
  {
    WhenPassesComeBack(w, now);
    ServesIsHealthy(w);
    CalmIsTheGuard(w);
    WishIgnoresTypes(w, now);
    RepairedIsDue(w, now);
    var list, health := List(w), Rebuilt(w, List(w));
    assert PassOutcome(w, now).seconds ==
           if HealRequeue(w, list, |list|, now) > 0 then HealRequeue(w, list, |list|, now) else 5;
    forall i | 0 <= i < |list|
      ensures health[i] == HealthOf(w, list[i])
      ensures Calm(w) ==> !GivenUp(w, list[i].name)
      ensures Calm(w) ==> (Decide(w, health[i], now).Wait? <==>
                             CoolingAt(w, list[i].name) && SecondsLeft(w, list[i].name, now) > 0)
      ensures Decide(w, health[i], now).Wait? ==> Decide(w, health[i], now).seconds == SecondsLeft(w, list[i].name, now)
    {
      WaitDecision(w, list[i], now);
      if Calm(w) && GivenUp(w, list[i].name) {
        assert RepairDueAt(w, i, now);
      }
    }
    if Calm(w) {
      WishIsShortest(w, list, |list|, now);
    }
  }

  /** Otherwise it is done: nothing was to be done, or the pass did what was due. */
  lemma WhenPassesAreDone(w: World, now: int)
    ensures PassOutcome(w, now) == Done <==>
              || !w.present
              || (!w.volume.status.engineRef && CountParses(w) && (w.volume.nodeID != "" || w.nodes != []))
              || (w.volume.status.engineRef && (w.engine.None? || ToBeMarked(w)))
              || (Kept(w) && CountParses(w) && (!AtTarget(w) || AllRunning(w) || RepairDue(w, now)))
  {
    WhenPassesFail(w, now);
    WhenPassesComeBack(w, now);
    ServesIsHealthy(w);
  }

  /**
   Sleeping for as long as a pass asks misses nothing: if a pass answers with so many seconds, then at any
   moment before they are over, another pass on the state it left changes neither the list nor the objects
   there are nor the pods.
   */
  lemma SleepingMissesNothing(w: World, now: int, later: int)
    requires PassOutcome(w, now).RequeueAfter? && now <= later < now + PassOutcome(w, now).seconds
    ensures var x := FullPass(w, now);
            x.engine.Some?
            && var y := FullPass(x, later);
               y.engine.Some? && List(y) == List(x) && y.pods == x.pods && y.replicas.Keys == x.replicas.Keys
  {
    var y, list := Typed(w), List(w);
    WhenPassesComeBack(w, now);
    ServesIsHealthy(w);
    WishIgnoresTypes(w, now);
    RepairedIsDue(w, now);
    HealIsDue(w, now);
    SleepMissesNothing(y, list, |list|, now, later);
    HealTouchesOne(y, list, |list|, now, |HealPlan(y, list, |list|, now)|);
    assert HealPlan(y, list, |list|, now)[..|HealPlan(y, list, |list|, now)|] == HealPlan(y, list, |list|, now);
    WholeHealKeepsVolume(w, now);
    UnrepairedState(FullPass(w, now), later);
  }

  lemma WholeHealKeepsVolume(w: World, now: int)
    requires AtTarget(w) && !AllRunning(w) && Repaired(w, List(w), |List(w)|, now).None?
    ensures AtTarget(FullPass(w, now)) && List(FullPass(w, now)) == List(w)
  {
    var y, list := Typed(w), List(w);
    ServesIsHealthy(w);
    WishIgnoresTypes(w, now);
    HealIsDue(w, now);
    ApplyOne(y, HealPlan(y, list, |list|, now)[0]);
  }

  // ---- The phase on record ----

  /** The phase a whole pass leaves on record, and whether an engine is on record. */
  lemma PhaseAfterPass(w: World, now: int)
    ensures var s, t := w.volume.status, FullPass(w, now).volume.status;
            if !w.present then t == s
            else if !s.engineRef then
              if CountParses(w) && (w.volume.nodeID != "" || w.nodes != [])
              then t.engineRef && t.phase == VolumePhase.Creating
              else t == s
            else if ToBeMarked(w) then t.engineRef && t.phase == VolumePhase.Ready
            else if w.engine.None? then !t.engineRef && t.phase == VolumePhase.Creating
            else
              && t.engineRef
              && t.phase == (if !CountParses(w) then s.phase
                             else if !AtTarget(w) then VolumePhase.Degraded
                             else if AllRunning(w) || Calm(w) then s.phase
                             else VolumePhase.Degraded)
  {
    var plan := PassPlan(w, now);
    assert plan[..|plan|] == plan;
    ServesIsHealthy(w);
    if w.present && !w.volume.status.engineRef {
      FirstPhase(w, now);
    } else if w.present && (ToBeMarked(w) || w.engine.None?) {
      ApplyOne(w, plan[0]);
    } else if w.present {
      KeptPhase(w, now);
    }
  }

  lemma FirstPhase(w: World, now: int)
    requires w.present && !w.volume.status.engineRef
    ensures var s, t := w.volume.status, FullPass(w, now).volume.status;
            if CountParses(w) && (w.volume.nodeID != "" || w.nodes != [])
            then t.engineRef && t.phase == VolumePhase.Creating
            else t == s
  {
    PassStatusLast(w, now);
    var plan := PassPlan(w, now);
    StatusWrittenLast(w, plan, |plan|);
    assert plan[..|plan|] == plan;
    assert AnyWorker(w.nodes).Some? <==> w.nodes != [];
  }

  lemma KeptPhase(w: World, now: int)
    requires Kept(w)
    ensures var s, t := w.volume.status, FullPass(w, now).volume.status;
            && t.engineRef
            && t.phase == (if !CountParses(w) then s.phase
                           else if !AtTarget(w) then VolumePhase.Degraded
                           else if AllRunning(w) || Calm(w) then s.phase
                           else VolumePhase.Degraded)
  {
    var y, list := Typed(w), List(w);
    ServesIsHealthy(w);
    WholeUpkeep(w, now);
    HealingIgnoresTypes(w, y, list, |list|, now);
    if CountParses(w) {
      var desired := Target(w.volume.replicaCount, w.nodes).value;
      if desired > |list| {
        ScaleUpEffect(y, list, desired);
      } else if desired < |list| {
        ScaleDownEffect(y, list, desired);
      } else if !AllRunning(w) {
        CalmIsTheGuard(w);
        HealedPhase(y, list, now);
      }
    }
  }

  lemma HealedPhase(y: World, list: seq<Attachment>, now: int)
    requires y.engine.Some? && List(y) == list
    ensures var s, t := y.volume.status, ApplyAll(y, HealPlan(y, list, |list|, now)).volume.status;
            && t.engineRef == s.engineRef
            && t.phase == if GuardHolds(y, list, |list|) then s.phase else VolumePhase.Degraded
  {
    var plan := HealPlan(y, list, |list|, now);
    assert plan != [] && plan[|plan| - 1].SetVolumeStatus?;
  }

  // ---- The health on record ----

  /** What is on record for a replica's phase after a healing pass. */
  function SeenPhase(w: World, name: string): HealthPhase {
    if name !in w.replicas then Missing
    else if Serves(w, name) then Seen(ReplicaPhase.Running)
    else if w.replicas[name].status.phase == ReplicaPhase.Running then Seen(ReplicaPhase.Pending)
    else Seen(w.replicas[name].status.phase)
  }

  /** The health a whole healing pass leaves on record: one entry for each attached replica, in order. */
  lemma HealthAfterPass(w: World, now: int)
    requires AtTarget(w) && !AllRunning(w)
    ensures var h, list := FullPass(w, now).volume.status.health, List(w);
            && |h| == |list|
            && forall i :: 0 <= i < |list| ==>
                 && h[i].name == list[i].name && h[i].node == list[i].node
                 && if RepairDueAt(w, i, now) && RestartDue(w, list[i].name, now)
                    then h[i].phase == Seen(ReplicaPhase.Pending) && h[i].lastHeal == Some(now)
                         && h[i].attempts == RecordOf(w, list[i].name).attempts + 1
                    else h[i].phase == SeenPhase(w, list[i].name)
                         && Record(h[i].attempts, h[i].lastHeal) == RecordOf(w, list[i].name)
  {
    var plan, list := PassPlan(w, now), List(w);
    ServesIsHealthy(w);
    assert plan[..|plan|] == plan;
    HealthWritten(w, now, |plan|);
    forall i | 0 <= i < |list|
      ensures Rebuilt(w, list)[i] == HealthOf(w, list[i])
      ensures Repaired(w, list, |list|, now) == Some(i) <==> RepairDueAt(w, i, now)
      ensures Decide(w, HealthOf(w, list[i]), now) == Restart <==> RestartDue(w, list[i].name, now)
    {
      WhichRepair(w, i, now);
      Decision(w, list[i], now);
    }
  }

}
