/**
 Convergence: with nodes and target fixed, the engine running and every replica object brought to
 Running between passes, repeated passes strictly decrease a measure until a pass changes nothing.
 */
module Convergence {
  import opened Wrappers
  import opened Names
  import opened Types
  import opened Nodes
  import opened Plan
  import opened Scale
  import opened Passes
  import opened Invariants
  import opened CrashRetry

  /** What the other controllers reach between two passes: everything that exists is running. */
  function Settle(w: World): World {
    w.(replicas := map n | n in w.replicas :: w.replicas[n].(status := w.replicas[n].status.(phase := ReplicaPhase.Running)),
       engine := if w.engine.Some? then Some(w.engine.value.(phase := EnginePhase.Running)) else None)
  }

  function Round(w: World, now: int): World {
    Settle(FullPass(w, now))
  }

  /**
   The volume settles between passes: its target parses, its node can be chosen, and every attachment has
   its object.
   */
  ghost predicate Settling(w: World, target: nat) {
    && w.present
    && Target(w.volume.replicaCount, w.nodes) == Ok(target)
    && (w.volume.nodeID != "" || AnyWorker(w.nodes).Some?)
    && w == Settle(w)
    && (w.engine.Some? ==> DistinctAttached(List(w)) && AttachedExist(w))
  }

  /** Such a volume, in which a scale down, if one is due, would delete no object that stays attached. */
  ghost predicate Convergent(w: World, target: nat) {
    Settling(w, target) && (w.engine.Some? ==> CleanTail(w.volume.name, List(w), target))
  }

  ghost predicate AttachedExist(w: World)
    requires w.engine.Some?
  {
    forall i :: 0 <= i < |List(w)| ==> List(w)[i].name in w.replicas
  }

  /** No replica that survives a scale down to the target is named by an index that is deleted. */
  ghost predicate CleanTail(volume: string, list: seq<Attachment>, target: nat) {
    forall i, k: nat :: 0 <= i < |list| && i < target && target <= k < |list| ==> list[i].name != ReplicaName(volume, k)
  }

  // ---- The measure ----

  /** 2: the recorded engine is gone; 1: no engine is recorded; 0: there is an engine on record. */
  function Stage(w: World): nat {
    if !w.volume.status.engineRef then 1 else if w.engine.None? then 2 else 0
  }

  function OffTarget(w: World, target: nat): nat {
    if w.engine.Some? && |List(w)| == target then 0 else 1
  }

  function NotReady(w: World): nat {
    if w.volume.status.phase == VolumePhase.Ready then 0 else 1
  }

  ghost function WrongTypes(w: World): nat {
    if w.engine.Some? && TypesRight(w, List(w), 0) then 0 else 1
  }

  /** The measure: at most this many rounds are left. Stage counts first, then length, then phase and types. */
  ghost function RoundsLeft(w: World, target: nat): nat {
    if Stage(w) > 0 then 4 + Stage(w)
    else if OffTarget(w, target) > 0 then 3 + NotReady(w)
    else NotReady(w) + WrongTypes(w)
  }

  /** The volume is done: engine on record, list at the target, types right, phase Ready. */
  ghost predicate Converged(w: World, target: nat) {
    && w.volume.status.engineRef && w.engine.Some? && |List(w)| == target
    && TypesRight(w, List(w), 0)
    && w.volume.status.phase == VolumePhase.Ready
  }

  // ---- One round ----

  lemma SettledIsReady(w: World)
    requires w == Settle(w) && w.engine.Some? && AttachedExist(w)
    ensures ChildrenReady(w)
  {
    assert Settle(w).engine.value.phase == EnginePhase.Running;
    var list := w.engine.value.replicas;
    forall i | 0 <= i < |list|
      ensures list[i].name in w.replicas && w.replicas[list[i].name].status.phase == ReplicaPhase.Running
    {
      assert List(w)[i].name in Settle(w).replicas;
      assert Settle(w).replicas[list[i].name].status.phase == ReplicaPhase.Running;
    }
  }

  lemma SettleTwice(x: World)
    ensures Settle(Settle(x)) == Settle(x)
  {
    assert Settle(Settle(x)).replicas == Settle(x).replicas;
  }

  /** Settling keeps what convergence and the measure look at. */
  lemma SettleKeeps(x: World, target: nat)
    ensures Stage(Settle(x)) == Stage(x) && OffTarget(Settle(x), target) == OffTarget(x, target)
    ensures NotReady(Settle(x)) == NotReady(x) && WrongTypes(Settle(x)) == WrongTypes(x)
    ensures x.engine.Some? ==> List(Settle(x)) == List(x) && (AttachedExist(Settle(x)) <==> AttachedExist(x))
  {
    assert forall n :: n in x.replicas ==> Settle(x).replicas[n].spec == x.replicas[n].spec;
    if x.engine.Some? {
      assert TypesRight(Settle(x), List(x), 0) <==> TypesRight(x, List(x), 0);
    }
  }

  /** A round that marks the volume ready. */
  lemma ReadyRound(w: World, target: nat, now: int)
    requires Convergent(w, target) && Stage(w) == 0 && NotReady(w) == 1
    ensures Convergent(Round(w, now), target) && RoundsLeft(Round(w, now), target) < RoundsLeft(w, target)
  {
    SettledIsReady(w);
    var write := SetVolumeStatus(w.volume.status.(phase := VolumePhase.Ready));
    assert PassPlan(w, now) == [write];
    ApplyOne(w, write);
    var x := Apply(w, write);
    assert Settle(x).replicas == Settle(w).replicas;
    assert Round(w, now) == x;
  }

  /** A round that forgets a lost engine. */
  lemma ForgetRound(w: World, target: nat, now: int)
    requires Convergent(w, target) && Stage(w) == 2
    ensures Convergent(Round(w, now), target) && Stage(Round(w, now)) == 1
  {
    var write := SetVolumeStatus(w.volume.status.(engineRef := false, phase := VolumePhase.Creating));
    assert PassPlan(w, now) == [write];
    ApplyOne(w, write);
    var x := Apply(w, write);
    assert Settle(x).replicas == Settle(w).replicas;
    assert Round(w, now) == x;
  }

  /** Settling a state whose parts are convergent gives a convergent state. */
  lemma SettleIsConvergent(x: World, target: nat)
    requires x.present && Target(x.volume.replicaCount, x.nodes) == Ok(target)
    requires x.volume.nodeID != "" || AnyWorker(x.nodes).Some?
    requires x.engine.Some? ==> DistinctAttached(List(x)) && AttachedExist(x) && CleanTail(x.volume.name, List(x), target)
    ensures Convergent(Settle(x), target)
  {
    SettleTwice(x);
    SettleKeeps(x, target);
  }

  lemma CreatedExist(w: World, n: nat)
    requires Target(w.volume.replicaCount, w.nodes) == Ok(n)
    requires w.engine.Some? ==> AttachedExist(w)
    ensures var x := ApplyAll(w, CreatePlan(w)); x.engine.Some? && AttachedExist(x)
  {
    var slots := FirstSlots(w.volume, FirstWorkers(w.nodes, n));
    var x := ApplyAll(w, CreatePlan(w));
    CreateEffect(w, n);
    if w.engine.None? {
      forall k | 0 <= k < |slots| ensures List(x)[k].name in x.replicas {
        MadeOn(w.volume, slots, k);
      }
    } else {
      assert List(x) == List(w);
    }
  }

  /** A round that creates the children on a settled node. */
  lemma CreateSettled(w: World, target: nat)
    requires Convergent(w, target) || (w.volume.nodeID != "" && Convergent(w.(volume := w.volume.(nodeID := "")), target))
    requires w.volume.nodeID != "" && Stage(w) == 1
    ensures var x := ApplyAll(w, CreatePlan(w)); Convergent(Settle(x), target) && Stage(x) == 0
  {
    var x := ApplyAll(w, CreatePlan(w));
    CreateEffect(w, target);
    CreatedExist(w, target);
    if w.engine.None? {
      FirstListIsWellNamed(w, target);
      assert Settled(w) == w.volume;
    }
    SettleIsConvergent(x, target);
  }

  lemma CreateRound(w: World, target: nat, now: int)
    requires Convergent(w, target) && Stage(w) == 1 && forall i :: 0 <= i < |w.nodes| ==> w.nodes[i].name != ""
    ensures Convergent(Round(w, now), target) && Stage(Round(w, now)) == 0
  {
    if w.volume.nodeID != "" {
      CreateSettled(w, target);
      SettleKeeps(ApplyAll(w, CreatePlan(w)), target);
    } else {
      var settle := SetVolumeNode(AnyWorker(w.nodes).value);
      var y := Apply(w, settle);
      ApplyOne(w, settle);
      ApplyAllAppend(w, [settle], CreatePlan(y));
      assert y.volume.(nodeID := "") == w.volume;
      CreateSettled(y, target);
      SettleKeeps(ApplyAll(y, CreatePlan(y)), target);
    }
  }

  // ---- Upkeep rounds ----

  lemma ScaledIsConvergent(y: World, target: nat)
    requires y.present && Target(y.volume.replicaCount, y.nodes) == Ok(target)
    requires y.volume.nodeID != "" || AnyWorker(y.nodes).Some?
    requires y.engine.Some? && |List(y)| != target
    requires DistinctAttached(List(y)) && AttachedExist(y) && CleanTail(y.volume.name, List(y), target)
    ensures var x := ApplyAll(y, ScalePlan(y, List(y), target));
            && Convergent(Settle(x), target) && x.volume.status == y.volume.status.(phase := VolumePhase.Degraded)
            && x.engine.Some? && |List(x)| == target
  {
    var list, x := List(y), ApplyAll(y, ScalePlan(y, List(y), target));
    if target > |list| {
      ScaleUpEffect(y, list, target);
      ScaleUpKeepsNames(y, list, target);
      GrownExist(y, list, target);
    } else {
      ScaleDownEffect(y, list, target);
      assert forall i :: 0 <= i < target ==> list[i].name !in IndexNames(y.volume.name, target, |list|);
    }
    SettleIsConvergent(x, target);
  }

  lemma GrownExist(y: World, list: seq<Attachment>, target: nat)
    requires |list| <= target && forall i :: 0 <= i < |list| ==> list[i].name in y.replicas
    ensures var after := Made(y.volume, NewSlots(y, list, target)) + y.replicas;
            && |GrownList(y, list, target)| == target
            && forall i :: 0 <= i < target ==> GrownList(y, list, target)[i].name in after
  {
    var slots := NewSlots(y, list, target);
    FreshIndices(y, list, target);
    forall i: nat | |list| <= i < target
      ensures |GrownList(y, list, target)| == target && GrownList(y, list, target)[i].name in Made(y.volume, slots)
    {
      MadeOn(y.volume, slots, i - |list|);
    }
  }

  /** The types are corrected; nothing else that convergence needs changes. */
  lemma TypedIsConvergent(w: World, target: nat)
    requires Convergent(w, target) && UpkeepDue(w)
    ensures Convergent(Typed(w), target) && TypesRight(Typed(w), List(w), 0)
    ensures Typed(w).engine == w.engine
    ensures Typed(w).volume == w.volume
  {
    var y := Typed(w);
    TypedIsDue(w);
    assert AttachedExist(y) by {
      forall i | 0 <= i < |List(w)| ensures List(w)[i].name in y.replicas.Keys {
        assert List(w)[i].name in w.replicas.Keys;
      }
    }
    assert Settle(y).replicas == y.replicas by {
      forall n | n in y.replicas ensures Settle(y).replicas[n] == y.replicas[n] {
        assert n in y.replicas.Keys;
        assert w.replicas[n] == Settle(w).replicas[n];
      }
    }
    assert y.engine == w.engine == Settle(w).engine;
  }

  lemma UpkeepRound(w: World, target: nat, now: int)
    requires Convergent(w, target) && Stage(w) == 0 && NotReady(w) == 0 && RoundsLeft(w, target) > 0
    ensures Convergent(Round(w, now), target) && RoundsLeft(Round(w, now), target) < RoundsLeft(w, target)
  {
    SettledIsReady(w);
    TypedIsConvergent(w, target);
    WholeUpkeep(w, now);
    var y := Typed(w);
    if |List(w)| != target {
      assert FullPass(w, now) == ApplyAll(y, ScalePlan(y, List(y), target));
      ScaledIsConvergent(y, target);
      SettleKeeps(FullPass(w, now), target);
    } else {
      assert FullPass(w, now) == y;
    }
  }

  /** Every round that is not the last brings the volume strictly closer. */
  lemma RoundDecreases(w: World, target: nat, now: int)
    requires Convergent(w, target) && RoundsLeft(w, target) > 0
    requires forall i :: 0 <= i < |w.nodes| ==> w.nodes[i].name != ""
    ensures Convergent(Round(w, now), target) && RoundsLeft(Round(w, now), target) < RoundsLeft(w, target)
  {
    if Stage(w) == 2 {
      ForgetRound(w, target, now);
    } else if Stage(w) == 1 {
      CreateRound(w, target, now);
    } else if NotReady(w) == 1 {
      ReadyRound(w, target, now);
    } else {
      UpkeepRound(w, target, now);
    }
  }

  /** With no rounds left, the volume is done and a pass issues no write; and only then. */
  lemma DoneIsFixpoint(w: World, target: nat, now: int)
    requires Convergent(w, target)
    ensures RoundsLeft(w, target) == 0 <==> Converged(w, target)
    ensures Converged(w, target) ==> PassPlan(w, now) == [] && Round(w, now) == w
  {
    if Converged(w, target) {
      SettledIsReady(w);
      NothingToCorrect(w, List(w), 0);
    }
  }

  function Rounds(w: World, times: seq<int>): World
    decreases |times|
  {
    if times == [] then w else Rounds(Round(w, times[0]), times[1..])
  }

  lemma {:induction false} RoundsConverge(w: World, target: nat, times: seq<int>)
    requires Convergent(w, target) && RoundsLeft(w, target) <= |times|
    requires forall i :: 0 <= i < |w.nodes| ==> w.nodes[i].name != ""
    ensures Convergent(Rounds(w, times), target) && Converged(Rounds(w, times), target)
    decreases |times|
  {
    DoneIsFixpoint(w, target, 0);
    if times != [] {
      if RoundsLeft(w, target) == 0 {
        DoneIsFixpoint(w, target, times[0]);
      } else {
        RoundDecreases(w, target, times[0]);
      }
      RoundsConverge(Round(w, times[0]), target, times[1..]);
    }
  }

  /** Six rounds are enough for a volume with a clean tail. */
  lemma SixRoundsConverge(w: World, target: nat, times: seq<int>)
    requires Convergent(w, target) && |times| >= 6
    requires forall i :: 0 <= i < |w.nodes| ==> w.nodes[i].name != ""
    ensures Converged(Rounds(w, times), target)
  {
    RoundsConverge(w, target, times);
  }

}
