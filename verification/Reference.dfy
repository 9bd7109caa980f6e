/**
 How a volume stands, read off the stored objects alone: the terms in which it is said what whole passes
 do. Numbers of attempts and seconds are written out.
 */
module Reference {
  import opened Wrappers
  import opened Names
  import opened Types
  import opened Nodes
  import opened Plan
  import opened Passes
  import opened Healing
  import opened Restarts

  /** The replica can serve: it runs, has an NQN, and its pod runs at an address. */
  predicate Serves(w: World, name: string) {
    && name in w.replicas && w.replicas[name].status.phase == ReplicaPhase.Running && w.replicas[name].status.nqn != ""
    && PodName(name) in w.pods && w.pods[PodName(name)].phase == PodRunning && w.pods[PodName(name)].ip != ""
  }

  predicate HasAddress(w: World, name: string) {
    PodName(name) in w.pods && w.pods[PodName(name)].ip != ""
  }

  /** The engine and all attached objects are in phase Running. */
  predicate AllRunning(w: World) {
    && w.engine.Some? && w.engine.value.phase == EnginePhase.Running
    && forall i :: 0 <= i < |List(w)| ==>
         List(w)[i].name in w.replicas && w.replicas[List(w)[i].name].status.phase == ReplicaPhase.Running
  }

  /** An existing engine with as many attachments as replicas are wanted. */
  predicate AtTarget(w: World) {
    && w.present && w.volume.status.engineRef && w.engine.Some?
    && Target(w.volume.replicaCount, w.nodes) == Ok(|List(w)|)
  }

  predicate OthersServe(w: World, i: nat)
    requires w.engine.Some?
  {
    forall j :: 0 <= j < |List(w)| && j != i ==> Serves(w, List(w)[j].name)
  }

  /** Healing looks after replicas in these phases. */
  predicate InCare(w: World, name: string) {
    name in w.replicas
    && w.replicas[name].status.phase in {ReplicaPhase.Running, ReplicaPhase.Failed, ReplicaPhase.Pending}
  }

  /** Seconds to wait after so many restarts. */
  function WaitAfter(attempts: nat): nat {
    if attempts == 0 then 30 else if attempts == 1 then 60 else if attempts == 2 then 120
    else if attempts == 3 then 240 else if attempts == 4 then 480 else 0
  }

  /** A restart is due: the replica has a pod but does not serve, and the wait after the last one is over. */
  predicate RestartDue(w: World, name: string, now: int) {
    var r := RecordOf(w, name);
    && InCare(w, name) && !Serves(w, name) && HasAddress(w, name)
    && r.attempts < 5
    && (r.lastHeal.None? || now - r.lastHeal.value >= WaitAfter(r.attempts))
  }

  /**
   The replica is beyond a restart: it ran and its pod is gone, or its pod is there, it does not serve and
   its five restarts are used up.
   */
  predicate GivenUp(w: World, name: string) {
    && name in w.replicas && !Serves(w, name)
    && if HasAddress(w, name) then InCare(w, name) && RecordOf(w, name).attempts >= 5
       else w.replicas[name].status.phase == ReplicaPhase.Running && !w.replicas[name].deleting
  }

  // ---- The link to the plan ----

  lemma ServesIsHealthy(w: World)
    ensures forall n :: Serves(w, n) == Healthy(w, n)
    ensures AllRunning(w) == ChildrenReady(w)
  {
    if w.engine.Some? {
      var list := w.engine.value.replicas;
      assert forall i :: 0 <= i < |list| ==> list[i] == List(w)[i];
      if ChildrenReady(w) {
        forall i | 0 <= i < |List(w)|
          ensures List(w)[i].name in w.replicas && w.replicas[List(w)[i].name].status.phase == ReplicaPhase.Running
        {
          assert list[i].name in w.replicas && w.replicas[list[i].name].status.phase == ReplicaPhase.Running;
        }
      }
    }
  }

  /** What healing decides for an attached replica, and exactly when. */
  lemma Decision(w: World, a: Attachment, now: int)
    ensures var act := Decide(w, HealthOf(w, a), now);
            && (act == RemoveMissing <==> a.name !in w.replicas)
            && (act == Recreate <==> GivenUp(w, a.name))
            && (act == Restart <==> RestartDue(w, a.name, now))
  {
    assert Backoff(0) == 30 && Backoff(1) == 60 && Backoff(2) == 120;
    assert Backoff(3) == 2 * Backoff(2) && Backoff(4) == 2 * Backoff(3);
  }

  /** The record of a name is that of its first entry, and blank if it has none. */
  lemma {:induction false} RecordIsFirst(health: seq<Health>, name: string, k: nat)
    requires k <= |health| && forall j :: 0 <= j < k ==> health[j].name != name
    requires k < |health| ==> health[k].name == name
    ensures FindRecord(health, name) ==
            if k < |health| then Record(health[k].attempts, health[k].lastHeal) else Record(0, None)
  {
    if k > 0 {
      RecordIsFirst(health[1..], name, k - 1);
    }
  }

}
