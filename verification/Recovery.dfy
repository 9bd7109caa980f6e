/**
 Convergence in full: a scale down that is due may delete objects that stay attached, since it deletes by
 index and detaches by position. Exactly when a volume still converges then, and what it is like if not.
 */
module Recovery {
  import opened Wrappers
  import opened Names
  import opened Types
  import opened Nodes
  import opened Plan
  import opened Scale
  import opened Passes
  import opened Healing
  import opened CrashRetry
  import opened Convergence

  /** The scale down that is due deletes the object of the replica at position i, which stays attached. */
  predicate Lost(w: World, target: nat, i: nat)
    requires w.engine.Some? && i < target <= |List(w)|
  {
    List(w)[i].name in IndexNames(w.volume.name, target, |List(w)|)
  }

  /** One replica that stays attached loses its object, and all others that stay are healthy. */
  ghost predicate OneLost(w: World, target: nat) {
    && w.engine.Some? && target < |List(w)|
    && exists i: nat :: i < target && OnlyLost(w, target, i)
  }

  ghost predicate OnlyLost(w: World, target: nat, i: nat)
    requires w.engine.Some? && i < target <= |List(w)|
  {
    && Lost(w, target, i)
    && forall j: nat :: j < target && j != i ==> !Lost(w, target, j) && Healthy(w, List(w)[j].name)
  }

  /** No attached object is lost, or a single one while the rest are healthy. */
  ghost predicate Recoverable(w: World, target: nat) {
    w.engine.Some? ==> CleanTail(w.volume.name, List(w), target) || OneLost(w, target)
  }

  lemma UncleanLoses(w: World, target: nat) returns (i: nat)
    requires w.engine.Some? && !CleanTail(w.volume.name, List(w), target)
    ensures i < target < |List(w)| && Lost(w, target, i)
  {
    var a, k: nat :| 0 <= a < |List(w)| && a < target && target <= k < |List(w)|
                     && List(w)[a].name == ReplicaName(w.volume.name, k);
    i := a;
  }

  // ---- The rounds before the scale down ----

  /** A longer list than wanted is on the way to its scale down. */
  ghost predicate Overlong(w: World, target: nat) {
    Settling(w, target) && w.engine.Some? && |List(w)| > target
  }

  /** What the rounds before leave of the state: list, pods, and the status of the attached objects. */
  ghost predicate SameAttached(w: World, x: World) {
    && w.engine.Some? && x.engine.Some? && List(x) == List(w) && x.pods == w.pods && x.volume.name == w.volume.name
    && forall i :: 0 <= i < |List(w)| ==>
         && List(w)[i].name in w.replicas && List(w)[i].name in x.replicas
         && x.replicas[List(w)[i].name].status == w.replicas[List(w)[i].name].status
  }

  lemma SameLosses(w: World, x: World, target: nat)
    requires SameAttached(w, x) && target <= |List(w)|
    ensures OneLost(x, target) <==> OneLost(w, target)
    ensures CleanTail(x.volume.name, List(x), target) <==> CleanTail(w.volume.name, List(w), target)
  {
    forall i: nat | i < target
      ensures Lost(x, target, i) == Lost(w, target, i) && Healthy(x, List(x)[i].name) == Healthy(w, List(w)[i].name)
    {
    }
    if i: nat :| i < target < |List(w)| && OnlyLost(w, target, i) { assert OnlyLost(x, target, i); }
    if i: nat :| i < target < |List(w)| && OnlyLost(x, target, i) { assert OnlyLost(w, target, i); }
  }

  /** With no engine on record although there is one, the round creates nothing that is attached. */
  lemma RecordRound(w: World, target: nat, now: int)
    requires Overlong(w, target) && Stage(w) == 1 && forall i :: 0 <= i < |w.nodes| ==> w.nodes[i].name != ""
    ensures var x := Round(w, now); Overlong(x, target) && Stage(x) == 0 && SameAttached(w, x)
  {
    if w.volume.nodeID != "" {
      RecordSettled(w, target);
    } else {
      var settle := SetVolumeNode(AnyWorker(w.nodes).value);
      var y := Apply(w, settle);
      AfterOne(w, settle, CreatePlan(y));
      RecordSettled(y, target);
    }
  }

  lemma RecordSettled(w: World, target: nat)
    requires w.present && Target(w.volume.replicaCount, w.nodes) == Ok(target) && w.volume.nodeID != ""
    requires w == Settle(w) && w.engine.Some? && |List(w)| > target && DistinctAttached(List(w)) && AttachedExist(w)
    ensures var x := Settle(ApplyAll(w, CreatePlan(w)));
            Overlong(x, target) && Stage(x) == 0 && SameAttached(w, x)
  {
    var y := ApplyAll(w, CreatePlan(w));
    CreateEffect(w, target);
    SettleTwice(y);
    SettleKeeps(y, target);
    forall i | 0 <= i < |List(w)|
      ensures List(w)[i].name in y.replicas && y.replicas[List(w)[i].name] == w.replicas[List(w)[i].name]
    {
    }
    SettledStatus(w);
  }

  lemma SettledStatus(w: World)
    requires w == Settle(w)
    ensures forall n :: n in w.replicas ==> w.replicas[n].status.phase == ReplicaPhase.Running
    ensures w.engine.Some? ==> w.engine.value.phase == EnginePhase.Running
  {
    forall n | n in w.replicas ensures w.replicas[n].status.phase == ReplicaPhase.Running {
      assert Settle(w).replicas[n].status.phase == ReplicaPhase.Running;
    }
    if w.engine.Some? { assert Settle(w).engine.value.phase == EnginePhase.Running; }
  }

  /** A round that marks the volume ready. */
  lemma MarkRound(w: World, target: nat, now: int)
    requires Overlong(w, target) && Stage(w) == 0 && NotReady(w) == 1
    ensures var x := Round(w, now); Overlong(x, target) && Stage(x) == 0 && NotReady(x) == 0 && SameAttached(w, x)
  {
    SettledIsReady(w);
    var write := SetVolumeStatus(w.volume.status.(phase := VolumePhase.Ready));
    assert PassPlan(w, now) == [write];
    ApplyOne(w, write);
    var x := Apply(w, write);
    assert Settle(x).replicas == Settle(w).replicas;
    assert Round(w, now) == x;
  }

  // ---- The scale down ----

  /** The state right after the scale down, settled. */
  ghost predicate CutDown(w: World, x: World, target: nat)
    requires w.engine.Some? && target <= |List(w)|
  {
    && x == Settle(x) && x.present && Target(x.volume.replicaCount, x.nodes) == Ok(target)
    && (x.volume.nodeID != "" || AnyWorker(x.nodes).Some?)
    && x.volume.status.engineRef && x.volume.status.phase == VolumePhase.Degraded
    && x.engine.Some? && List(x) == List(w)[..target] && x.pods == w.pods
    && forall i: nat :: i < target ==>
         var name := List(w)[i].name;
         && (name in x.replicas <==> !Lost(w, target, i))
         && (Healthy(x, name) <==> !Lost(w, target, i) && Healthy(w, name))
  }

  lemma DownRound(w: World, target: nat, now: int)
    requires Overlong(w, target) && Stage(w) == 0 && NotReady(w) == 0
    ensures CutDown(w, Round(w, now), target)
  {
    var y := Typed(w);
    SettledIsReady(w);
    TypedIsDue(w);
    WholeUpkeep(w, now);
    ScaleDownEffect(y, List(w), target);
    var z := FullPass(w, now);
    assert z == ApplyAll(y, ScaleDownPlan(y, List(w), target));
    SettleTwice(z);
    SettledStatus(w);
    forall i: nat | i < target
      ensures var name, x := List(w)[i].name, Settle(z);
              && (name in x.replicas <==> !Lost(w, target, i))
              && (Healthy(x, name) <==> !Lost(w, target, i) && Healthy(w, name))
    {
      var name := List(w)[i].name;
      assert name in w.replicas.Keys && name in y.replicas.Keys;
      assert SameButType(w.replicas[name], y.replicas[name]);
    }
  }

  // ---- One lost: healing detaches it and scaling refills ----

  lemma HealRound(w: World, x: World, target: nat, i: nat, now: int)
    requires w.engine.Some? && i < target < |List(w)| && CutDown(w, x, target) && OnlyLost(w, target, i)
    requires DistinctAttached(List(w))
    ensures var z := Round(x, now); Convergent(z, target) && Stage(z) == 0
  {
    var list := List(x);
    assert list[i].name !in x.replicas && !ChildrenReady(x);
    forall j | 0 <= j < |list| && j != i ensures Healthy(x, list[j].name) {
    }
    RepairedWhenAlone(x, list, i, now);
    HealIsDue(x, now);
    TypedIsDue(x);
    RepairedThroughTypes(x, now);
    var y := Typed(x);
    RemoveMissingEffect(y, i, now);
    var z := FullPass(x, now);
    DetachedKeeps(x, z, i);
    SettleIsConvergent(z, target);
  }

  lemma DetachedKeeps(x: World, z: World, i: nat)
    requires x.engine.Some? && z.engine.Some? && i < |List(x)| && List(z) == Without(List(x), i)
    requires DistinctAttached(List(x)) && z.replicas.Keys == x.replicas.Keys
    requires forall j :: 0 <= j < |List(x)| && j != i ==> List(x)[j].name in x.replicas
    ensures DistinctAttached(List(z)) && AttachedExist(z)
  {
    var list, rest := List(x), List(z);
    assert forall k :: 0 <= k < |rest| ==> rest[k] == list[if k < i then k else k + 1];
    forall k | 0 <= k < |rest| ensures rest[k].name in z.replicas {
      assert rest[k].name in x.replicas.Keys;
    }
  }

  // ---- Otherwise: below the guard for good ----

  /** At the target, with an object missing and too few healthy replicas for the guard. */
  ghost predicate Stuck(x: World, target: nat) {
    && x == Settle(x) && x.present && Target(x.volume.replicaCount, x.nodes) == Ok(target)
    && x.volume.status.engineRef && x.volume.status.phase == VolumePhase.Degraded
    && x.engine.Some? && |List(x)| == target && DistinctAttached(List(x))
    && !AttachedExist(x) && !GuardHolds(x, List(x), target)
  }

  lemma CutDownIsStuck(w: World, x: World, target: nat)
    requires w.engine.Some? && target < |List(w)| && CutDown(w, x, target) && DistinctAttached(List(w))
    requires !Recoverable(w, target)
    ensures Stuck(x, target)
  {
    var i := UncleanLoses(w, target);
    assert !OnlyLost(w, target, i);
    var j: nat :| j < target && j != i && (Lost(w, target, j) || !Healthy(w, List(w)[j].name));
    assert List(x)[i] == List(w)[i] && List(x)[j] == List(w)[j];
    TwoUnhealthyLowerCount(x, List(x), if i < j then i else j, if i < j then j else i);
  }

  /** A pass below the guard only marks the volume degraded: list, objects and pods stay, and so it stays. */
  lemma StuckRound(x: World, target: nat, now: int)
    requires Stuck(x, target)
    ensures var z := Round(x, now);
            Stuck(z, target) && List(z) == List(x) && z.pods == x.pods && z.replicas.Keys == x.replicas.Keys
  {
    var y, z := Typed(x), FullPass(x, now);
    assert !ChildrenReady(x);
    HealIsDue(x, now);
    TypedIsDue(x);
    HealingIgnoresTypes(x, y, List(x), target, now);
    var write := HealPlan(y, List(x), target, now)[0];
    assert HealPlan(y, List(x), target, now) == [write];
    ApplyOne(y, write);
    StillSettled(x, y);
    CountDependsOnObjects(y, z, List(x));
    assert Round(x, now) == z;
    assert exists i :: 0 <= i < |List(x)| && List(x)[i].name !in x.replicas.Keys;
  }

  /** However many rounds follow, the list, the objects and the pods stay as they are. */
  lemma {:induction false} StuckForGood(x: World, target: nat, times: seq<int>)
    requires Stuck(x, target)
    ensures var z := Rounds(x, times);
            Stuck(z, target) && List(z) == List(x) && z.pods == x.pods && z.replicas.Keys == x.replicas.Keys
    decreases |times|
  {
    if times != [] {
      StuckRound(x, target, times[0]);
      StuckForGood(Round(x, times[0]), target, times[1..]);
    }
  }

  /** Correcting types leaves a settled state settled. */
  lemma StillSettled(x: World, y: World)
    requires x == Settle(x) && SameButTypes(x, y)
    ensures Settle(y).replicas == y.replicas && Settle(y).engine == y.engine
  {
    SettledStatus(x);
    forall n | n in y.replicas ensures Settle(y).replicas[n] == y.replicas[n] {
      assert n in x.replicas.Keys;
      assert SameButType(x.replicas[n], y.replicas[n]);
    }
  }

  // ---- Both directions ----

  ghost predicate Doomed(w: World, target: nat) {
    Stuck(w, target) || (Overlong(w, target) && !Recoverable(w, target))
  }

  lemma DoomedRound(w: World, target: nat, now: int)
    requires Doomed(w, target) && forall i :: 0 <= i < |w.nodes| ==> w.nodes[i].name != ""
    ensures Doomed(Round(w, now), target) && !Converged(w, target)
  {
    if Stuck(w, target) {
      StuckRound(w, target, now);
    } else if Stage(w) == 1 {
      RecordRound(w, target, now);
      SameLosses(w, Round(w, now), target);
    } else if NotReady(w) == 1 {
      MarkRound(w, target, now);
      SameLosses(w, Round(w, now), target);
    } else {
      DownRound(w, target, now);
      CutDownIsStuck(w, Round(w, now), target);
    }
  }

  lemma {:induction false} DoomedNeverConverges(w: World, target: nat, times: seq<int>)
    requires Doomed(w, target) && forall i :: 0 <= i < |w.nodes| ==> w.nodes[i].name != ""
    ensures !Converged(Rounds(w, times), target)
    decreases |times|
  {
    if times == [] {
      DoomedRound(w, target, 0);
    } else {
      DoomedRound(w, target, times[0]);
      DoomedNeverConverges(Round(w, times[0]), target, times[1..]);
    }
  }

  /** With one object lost: record, mark ready, scale down, heal, and then four rounds at most. */
  lemma OneLostConverges(w: World, target: nat, times: seq<int>)
    requires Settling(w, target) && OneLost(w, target) && |times| >= 8
    requires forall i :: 0 <= i < |w.nodes| ==> w.nodes[i].name != ""
    ensures Converged(Rounds(w, times), target)
  {
    if Stage(w) == 1 {
      RecordRound(w, target, times[0]);
      SameLosses(w, Round(w, times[0]), target);
      OneLostRecorded(Round(w, times[0]), target, times[1..]);
    } else {
      OneLostRecorded(w, target, times);
    }
  }

  lemma OneLostRecorded(w: World, target: nat, times: seq<int>)
    requires Settling(w, target) && OneLost(w, target) && Stage(w) == 0 && |times| >= 7
    requires forall i :: 0 <= i < |w.nodes| ==> w.nodes[i].name != ""
    ensures Converged(Rounds(w, times), target)
  {
    if NotReady(w) == 1 {
      MarkRound(w, target, times[0]);
      SameLosses(w, Round(w, times[0]), target);
      OneLostReady(Round(w, times[0]), target, times[1..]);
    } else {
      OneLostReady(w, target, times);
    }
  }

  lemma OneLostReady(w: World, target: nat, times: seq<int>)
    requires Settling(w, target) && OneLost(w, target) && Stage(w) == 0 && NotReady(w) == 0 && |times| >= 6
    requires forall i :: 0 <= i < |w.nodes| ==> w.nodes[i].name != ""
    ensures Converged(Rounds(w, times), target)
  {
    var i: nat :| i < target && OnlyLost(w, target, i);
    var x := Round(w, times[0]);
    DownRound(w, target, times[0]);
    HealRound(w, x, target, i, times[1]);
    var rest := times[1..];
    assert rest[0] == times[1];
    RoundsConverge(Round(x, times[1]), target, rest[1..]);
  }

  lemma RecoverableConverges(w: World, target: nat, times: seq<int>)
    requires Settling(w, target) && Recoverable(w, target) && |times| >= 8
    requires forall i :: 0 <= i < |w.nodes| ==> w.nodes[i].name != ""
    ensures Converged(Rounds(w, times), target)
  {
    if w.engine.Some? && OneLost(w, target) {
      OneLostConverges(w, target, times);
    } else {
      SixRoundsConverge(w, target, times);
    }
  }

  lemma UnrecoverableNeverConverges(w: World, target: nat, times: seq<int>)
    requires Settling(w, target) && !Recoverable(w, target)
    requires forall i :: 0 <= i < |w.nodes| ==> w.nodes[i].name != ""
    ensures !Converged(Rounds(w, times), target)
  {
    var i := UncleanLoses(w, target);
    DoomedNeverConverges(w, target, times);
  }

  /**
   Exactly when a volume converges: whatever the times of the rounds, they get it to its target, ready,
   with the right types, only if a scale down that is due deletes no object that stays attached, or a
   single one while all others that stay are healthy; and then eight rounds always do.
   */
  lemma WhenVolumesConverge(w: World, target: nat, times: seq<int>)
    requires Settling(w, target) && forall i :: 0 <= i < |w.nodes| ==> w.nodes[i].name != ""
    ensures Converged(Rounds(w, times), target) ==> Recoverable(w, target)
    ensures |times| >= 8 && Recoverable(w, target) ==> Converged(Rounds(w, times), target)
  {
    if !Recoverable(w, target) {
      UnrecoverableNeverConverges(w, target, times);
    } else if |times| >= 8 {
      RecoverableConverges(w, target, times);
    }
  }

}
