/**
 The volume controller as it runs: a reconcile pass over the API server's store. The store accepts
 `budget` more writes; the next one fails and the pass returns an error, which is also what a crash
 between two writes looks like to the store. Each method is proved to issue exactly its plan, or the
 prefix of it that the budget allows.
 */
module VolumeController {
  import opened Wrappers
  import opened Names
  import opened Types
  import opened Nodes
  import opened Plan

  /** What a pass returns: an error, nothing more to do, or a wish to be called again. */
  datatype Outcome = Error | Done | RequeueAfter(seconds: nat)

  /** The outcome of a pass whose writes all succeed. */
  function PassOutcome(w: World, now: int): Outcome {
    if !w.present then Done
    else if !w.volume.status.engineRef then
      if (w.volume.nodeID == "" && AnyWorker(w.nodes).None?) || Target(w.volume.replicaCount, w.nodes).Err?
      then Error else Done
    else if (ChildrenReady(w) && w.volume.status.phase != VolumePhase.Ready) || w.engine.None? then Done
    else
      match Target(w.volume.replicaCount, w.nodes)
      case Err => Error
      case Ok(desired) =>
        var list := w.engine.value.replicas;
        if desired != |list| || ChildrenReady(w) then Done
        else
          var fixed := ApplyAll(w, TypePlan(w, list, 0));
          if Repaired(fixed, list, desired, now).Some? then Done
          else
            var wish := HealRequeue(fixed, list, desired, now);
            RequeueAfter(if wish > 0 then wish else 5)
  }

  lemma ApplyNext(w: World, p: seq<Write>, k: nat)
    requires k < |p|
    ensures ApplyAll(w, p[..k + 1]) == Apply(ApplyAll(w, p[..k]), p[k])
  {
    assert p[..k + 1][..k] == p[..k];
  }

  /** A plan issued from state w with budget b leads to state c with `left` writes to spare. */
  ghost predicate IssuedTo(w: World, b: nat, plan: seq<Write>, c: World, left: nat) {
    if b < |plan| then left == 0 && c == ApplyAll(w, plan[..b])
    else left == b - |plan| && c == ApplyAll(w, plan)
  }

  lemma IssuedThen(w: World, b: nat, p: seq<Write>, q: seq<Write>, c: World, left: nat)
    requires |p| <= b && IssuedTo(ApplyAll(w, p), b - |p|, q, c, left)
    ensures IssuedTo(w, b, p + q, c, left)
  {
    if b < |p + q| {
      assert (p + q)[..b] == p + q[..b - |p|];
      ApplyAllAppend(w, p, q[..b - |p|]);
    } else {
      ApplyAllAppend(w, p, q);
    }
  }

  lemma IssuedShort(w: World, b: nat, p: seq<Write>, q: seq<Write>, c: World, left: nat)
    requires b < |p| && IssuedTo(w, b, p, c, left)
    ensures IssuedTo(w, b, p + q, c, left)
  {
    assert (p + q)[..b] == p[..b];
  }

  /** An entry of a pod listing. */
  datatype NamedPod = NamedPod(name: string, pod: Pod)

  /** The listing has exactly the stored pods. */
  ghost predicate Lists(listing: seq<NamedPod>, pods: map<string, Pod>) {
    && (forall i :: 0 <= i < |listing| ==> listing[i].name in pods && pods[listing[i].name] == listing[i].pod)
    && (forall n :: n in pods ==> NamedPod(n, pods[n]) in listing)
  }

  class Cluster {
    var present: bool
    var volume: Volume
    var nodes: seq<Node>
    var replicas: map<string, Replica>
    var pods: map<string, Pod>
    var engine: Option<Engine>
    var budget: nat

    ghost function Contents(): World
      reads this
    {
      World(present, volume, nodes, replicas, pods, engine)
    }

    /** From state w and budget b, exactly this plan was issued, as far as the budget went. */
    ghost predicate Issued(w: World, b: nat, plan: seq<Write>)
      reads this
    {
      IssuedTo(w, b, plan, Contents(), budget)
    }

    /** One write to the store. */
    method Issue(write: Write) returns (ok: bool)
      modifies this
      ensures ok <==> old(budget) > 0
      ensures Issued(old(Contents()), old(budget), [write])
    {
      if budget == 0 {
        return false;
      }
      budget := budget - 1;
      assert [write][..0] == [];
      match write {
      case SetVolumeNode(node) => volume := volume.(nodeID := node);
      case SetVolumeStatus(status) => volume := volume.(status := status);
      case CreateReplica(name, replica) =>
        if name !in replicas { replicas := replicas[name := replica]; }
      case SetReplicaType(name, rtype) =>
        if name in replicas {
          var r := replicas[name];
          replicas := replicas[name := r.(spec := r.spec.(rtype := rtype))];
        }
      case DeleteReplica(name) => replicas := replicas - {name};
      case DeletePod(name) => pods := pods - {name};
      case CreateEngine(e) =>
        if engine.None? { engine := Some(e); }
      case SetAttachments(list) =>
        if engine.Some? { engine := Some(engine.value.(replicas := list)); }
      }
      return true;
    }

    /** Issue one more write of a plan whose first k writes have been issued. */
    method IssueNext(ghost w: World, ghost b: nat, ghost plan: seq<Write>, ghost k: nat, write: Write)
        returns (ok: bool)
      requires k < |plan| && plan[k] == write
      requires k <= b && budget == b - k && Contents() == ApplyAll(w, plan[..k])
      modifies this
      ensures ok <==> k < b
      ensures ok ==> budget == b - k - 1 && Contents() == ApplyAll(w, plan[..k + 1])
      ensures !ok ==> Issued(w, b, plan)
    {
      ApplyOne(Contents(), write);
      ApplyNext(w, plan, k);
      ok := Issue(write);
    }

    // ---- Creating the children ----

    method EnsureChildren(v: Volume, picked: seq<string>) returns (ok: bool)
      requires volume == v
      modifies this
      ensures Issued(old(Contents()), old(budget), ChildrenPlan(v, picked))
      ensures ok <==> old(budget) >= |ChildrenPlan(v, picked)|
    {
      ghost var w, b := Contents(), budget;
      ghost var slots := FirstSlots(v, picked);
      ghost var plan := ChildrenPlan(v, picked);
      var list: seq<Attachment> := [];
      assert plan[..0] == [];
      for i := 0 to |picked|
        invariant i <= b && budget == b - i && Contents() == ApplyAll(w, plan[..i])
        invariant |list| == i && list == Attachments(v, slots)[..i]
      {
        var node := picked[i];
        if v.snapshotSource.Some? {
          node := v.nodeID;
        }
        var name := ReplicaName(v.name, i);
        ChildStep(v, picked, i);
        list := list + [NewAttachment(name, node)];
        ok := IssueNext(w, b, plan, i, CreateReplica(name, NewReplica(v, node)));
        if !ok {
          return;
        }
      }
      assert list == Attachments(v, slots);
      ok := IssueNext(w, b, plan, |picked|, CreateEngine(Engine(v.nodeID, list, EnginePhase.Unset)));
      assert plan[..|plan|] == plan;
    }

    lemma ChildStep(v: Volume, picked: seq<string>, i: nat)
      requires i < |picked|
      ensures var slots := FirstSlots(v, picked);
              var name, node := ReplicaName(v.name, i), if v.snapshotSource.Some? then v.nodeID else picked[i];
              && ChildrenPlan(v, picked)[i] == CreateReplica(name, NewReplica(v, node))
              && Attachments(v, slots)[..i + 1] == Attachments(v, slots)[..i] + [NewAttachment(name, node)]
    {
    }

    // ---- Scaling ----

    /** The indices below the bound that the list uses, found by comparing names. */
    method ScanUsed(v: Volume, list: seq<Attachment>, bound: nat) returns (indices: set<nat>, used: set<string>)
      ensures indices == UsedIndices(v.name, list, bound)
      ensures used == UsedNodes(list)
    {
      used, indices := {}, {};
      for k := 0 to |list|
        invariant used == UsedNodes(list[..k])
        invariant indices == UsedIndices(v.name, list[..k], bound)
      {
        used := used + {list[k].node};
        ghost var before := indices;
        var idx := 0;
        while idx < bound
          invariant 0 <= idx <= bound && indices == before
          invariant forall j: nat :: j < idx ==> list[k].name != ReplicaName(v.name, j)
        {
          if list[k].name == ReplicaName(v.name, idx) {
            indices := indices + {idx};
            break;
          }
          idx := idx + 1;
        }
        NamesOfPrefix(v, list, k, bound);
        if idx < bound {
          forall j: nat | ReplicaName(v.name, j) == list[k].name ensures j == idx {
            ReplicaNameInjective(v.name, j, v.name, idx);
          }
        }
      }
      assert list[..|list|] == list;
    }

    lemma NamesOfPrefix(v: Volume, list: seq<Attachment>, k: nat, bound: nat)
      requires k < |list|
      ensures UsedNodes(list[..k + 1]) == UsedNodes(list[..k]) + {list[k].node}
      ensures forall j: nat :: j in UsedIndices(v.name, list[..k + 1], bound) <==>
                j in UsedIndices(v.name, list[..k], bound) || (j < bound && list[k].name == ReplicaName(v.name, j))
    {
      assert AttachedNames(list[..k + 1]) == AttachedNames(list[..k]) + {list[k].name} by {
        forall x | x in AttachedNames(list[..k]) + {list[k].name} ensures x in AttachedNames(list[..k + 1]) {
          if x == list[k].name { assert list[..k + 1][k].name == x; }
          else { var i :| 0 <= i < k && list[..k][i].name == x; assert list[..k + 1][i].name == x; }
        }
      }
      forall x | x in UsedNodes(list[..k]) + {list[k].node} ensures x in UsedNodes(list[..k + 1]) {
        if x == list[k].node { assert list[..k + 1][k].node == x; }
        else { var i :| 0 <= i < k && list[..k][i].node == x; assert list[..k + 1][i].node == x; }
      }
    }

    /** Create replicas for the slots still missing, then attach them all with one engine update. */
    method ScaleUp(v: Volume, e: Engine, current: nat, desired: nat) returns (ok: bool)
      requires volume == v && engine == Some(e) && current == |e.replicas| < desired
      modifies this
      ensures Issued(old(Contents()), old(budget), ScaleUpPlan(old(Contents()), e.replicas, desired))
      ensures ok <==> old(budget) >= |ScaleUpPlan(old(Contents()), e.replicas, desired)|
    {
      ghost var w, b := Contents(), budget;
      ghost var plan := ScaleUpPlan(w, e.replicas, desired);
      var usedIndices, usedNodes := ScanUsed(v, e.replicas, desired + 10);
      var nextIndex := 0;
      var list := e.replicas;
      ghost var done := 0;
      assert plan[..0] == [];
      AllocatedFirst(w, e.replicas, desired);
      for i := current to desired
        invariant nodes == w.nodes
        invariant done == i - current <= b && budget == b - done && Contents() == ApplyAll(w, plan[..done])
        invariant Allocated(w, e.replicas, desired, done, list, usedIndices, usedNodes, nextIndex)
      {
        var node;
        AllocatedNext(w, e.replicas, desired, done, list, usedIndices, usedNodes, nextIndex);
        nextIndex, node := NextSlot(v, usedIndices, usedNodes, nextIndex);
        usedIndices, usedNodes := usedIndices + {nextIndex}, usedNodes + {node};
        var name := ReplicaName(v.name, nextIndex);
        ok := IssueNext(w, b, plan, done, CreateReplica(name, NewReplica(v, node)));
        if !ok {
          return;
        }
        list, done := list + [NewAttachment(name, node)], done + 1;
      }
      ok := AttachAll(v, e.replicas, list, w, b, desired);
    }

    /** After `done` slots: the list so far, and the state of the search from which the rest follows. */
    ghost predicate Allocated(w: World, before: seq<Attachment>, desired: nat, done: nat, list: seq<Attachment>,
                              usedIndices: set<nat>, usedNodes: set<string>, next: nat) {
      && |before| + done <= desired
      && list == Grown(w, before, desired, done)
      && NewSlots(w, before, desired)[done..]
         == Allocation(w.nodes, FixedNode(w.volume), usedIndices, usedNodes, next, desired - |before| - done)
    }

    lemma AllocatedFirst(w: World, before: seq<Attachment>, desired: nat)
      requires |before| <= desired
      ensures Allocated(w, before, desired, 0, before,
                        UsedIndices(w.volume.name, before, desired + 10), UsedNodes(before), 0)
    {
      assert NewSlots(w, before, desired)[0..] == NewSlots(w, before, desired);
    }

    lemma AllocatedNext(w: World, before: seq<Attachment>, desired: nat, done: nat, list: seq<Attachment>,
                        usedIndices: set<nat>, usedNodes: set<string>, next: nat)
      requires |before| + done < desired && Allocated(w, before, desired, done, list, usedIndices, usedNodes, next)
      ensures var fixed, index := FixedNode(w.volume), LeastFree(usedIndices, next);
              var node := if fixed.Some? then fixed.value else Unused(w.nodes, usedNodes);
              var name := ReplicaName(w.volume.name, index);
              && ScaleUpPlan(w, before, desired)[done] == CreateReplica(name, NewReplica(w.volume, node))
              && Allocated(w, before, desired, done + 1, list + [NewAttachment(name, node)],
                           usedIndices + {index}, usedNodes + {node}, index)
    {
      AllocationStep(NewSlots(w, before, desired), done, w.nodes, FixedNode(w.volume), usedIndices, usedNodes, next);
      SlotStep(w, before, desired, done);
    }

    lemma AllocationStep(all: seq<Slot>, k: nat, nodes: seq<Node>, fixed: Option<string>,
                         usedIndices: set<nat>, usedNodes: set<string>, next: nat)
      requires k < |all| && all[k..] == Allocation(nodes, fixed, usedIndices, usedNodes, next, |all| - k)
      ensures var index := LeastFree(usedIndices, next);
              var node := if fixed.Some? then fixed.value else Unused(nodes, usedNodes);
              && all[k] == Slot(index, node)
              && all[k + 1..] == Allocation(nodes, fixed, usedIndices + {index}, usedNodes + {node}, index, |all| - k - 1)
    {
      assert all[k] == all[k..][0];
      assert all[k + 1..] == all[k..][1..];
    }

    /** The list with the first k new replicas attached. */
    ghost function Grown(w: World, list: seq<Attachment>, desired: nat, k: nat): seq<Attachment>
      requires |list| <= desired && k <= desired - |list|
    {
      list + Attachments(w.volume, NewSlots(w, list, desired))[..k]
    }

    lemma SlotStep(w: World, list: seq<Attachment>, desired: nat, k: nat)
      requires |list| <= desired && k < desired - |list|
      ensures var all := NewSlots(w, list, desired);
              var name := ReplicaName(w.volume.name, all[k].index);
              && ScaleUpPlan(w, list, desired)[k] == CreateReplica(name, NewReplica(w.volume, all[k].node))
              && Grown(w, list, desired, k + 1) == Grown(w, list, desired, k) + [NewAttachment(name, all[k].node)]
    {
    }

    /** Index and node of the next replica: an unused node, or the volume's if it restores a snapshot. */
    method NextSlot(v: Volume, usedIndices: set<nat>, usedNodes: set<string>, next: nat) returns (index: nat, node: string)
      ensures index == LeastFree(usedIndices, next)
      ensures node == if FixedNode(v).Some? then FixedNode(v).value else Unused(nodes, usedNodes)
    {
      index := NextIndex(usedIndices, next);
      node := PickUnusedNode(nodes, usedNodes);
      if v.snapshotSource.Some? {
        node := v.nodeID;
      }
    }

    /** The inner search of scale up. */
    method NextIndex(used: set<nat>, from: nat) returns (index: nat)
      ensures index == LeastFree(used, from)
    {
      ghost var goal := LeastFree(used, from);
      index := from;
      while index in used
        invariant index <= goal && LeastFree(used, index) == goal
        decreases goal - index
      {
        index := index + 1;
      }
    }

    /** The last two writes of scale up. */
    method AttachAll(v: Volume, ghost before: seq<Attachment>, list: seq<Attachment>,
                     ghost w: World, ghost b: nat, ghost desired: nat) returns (ok: bool)
      requires w.volume == v && |before| < desired && desired - |before| <= b
      requires list == Grown(w, before, desired, desired - |before|)
      requires budget == b - (desired - |before|)
      requires Contents() == ApplyAll(w, ScaleUpPlan(w, before, desired)[..desired - |before|])
      modifies this
      ensures Issued(w, b, ScaleUpPlan(w, before, desired))
      ensures ok <==> b >= |ScaleUpPlan(w, before, desired)|
    {
      ghost var plan := ScaleUpPlan(w, before, desired);
      ghost var n := desired - |before|;
      ok := IssueNext(w, b, plan, n, SetAttachments(list));
      if !ok {
        return;
      }
      ok := IssueNext(w, b, plan, n + 1, SetVolumeStatus(v.status.(phase := VolumePhase.Degraded)));
      assert plan[..|plan|] == plan;
    }

    /** Delete the replicas with indices desired to current - 1, then cut the list to its first part. */
    method ScaleDown(v: Volume, e: Engine, current: nat, desired: nat) returns (ok: bool)
      requires volume == v && engine == Some(e) && desired < current == |e.replicas|
      modifies this
      ensures Issued(old(Contents()), old(budget), ScaleDownPlan(old(Contents()), e.replicas, desired))
      ensures ok <==> old(budget) >= |ScaleDownPlan(old(Contents()), e.replicas, desired)|
    {
      ghost var w, b := Contents(), budget;
      ghost var plan := ScaleDownPlan(w, e.replicas, desired);
      assert plan[..0] == [];
      for i := desired to current
        invariant i - desired <= b && budget == b - (i - desired)
        invariant Contents() == ApplyAll(w, plan[..i - desired])
      {
        ok := IssueNext(w, b, plan, i - desired, DeleteReplica(ReplicaName(v.name, i)));
        if !ok {
          return;
        }
      }
      ok := IssueNext(w, b, plan, current - desired, SetAttachments(e.replicas[..desired]));
      if !ok {
        return;
      }
      ok := IssueNext(w, b, plan, current - desired + 1, SetVolumeStatus(v.status.(phase := VolumePhase.Degraded)));
      assert plan[..|plan|] == plan;
    }

    method EnsureScale(v: Volume, e: Engine) returns (ok: bool)
      requires volume == v && engine == Some(e)
      requires Target(v.replicaCount, nodes).Ok?
      modifies this
      ensures var desired := Target(v.replicaCount, old(nodes)).value;
              var plan := ScalePlan(old(Contents()), e.replicas, desired);
              Issued(old(Contents()), old(budget), plan) && (ok <==> old(budget) >= |plan|)
    {
      var desired := ReplicasForVolume(v.replicaCount, nodes);
      var current := |e.replicas|;
      if desired.value == current {
        return true;
      }
      if desired.value > current {
        ok := ScaleUp(v, e, current, desired.value);
      } else {
        ok := ScaleDown(v, e, current, desired.value);
      }
    }

    // ---- Healing ----

    method HealingBackoff(attempts: nat) returns (backoff: nat, exhausted: bool)
      ensures backoff == Backoff(attempts)
      ensures exhausted <==> attempts >= MAX_ATTEMPTS
    {
      if attempts >= MAX_ATTEMPTS {
        return 0, true;
      }
      backoff := BASE_BACKOFF;
      for i := 0 to attempts
        invariant backoff == BASE_BACKOFF * Pow2(i)
      {
        backoff := backoff * 2;
      }
      exhausted := false;
    }

    method FindExistingHealth(health: seq<Health>, name: string) returns (r: Record)
      ensures r == FindRecord(health, name)
    {
      for i := 0 to |health|
        invariant FindRecord(health, name) == FindRecord(health[i..], name)
      {
        if health[i].name == name {
          return Record(health[i].attempts, health[i].lastHeal);
        }
      }
      return Record(0, None);
    }

    /** The pods as the store lists them, in any order. */
    method ListPods() returns (listing: seq<NamedPod>)
      ensures Lists(listing, pods)
    {
      listing := [];
      var rest := pods.Keys;
      while rest != {}
        invariant rest <= pods.Keys
        invariant forall i :: 0 <= i < |listing| ==> listing[i].name in pods && pods[listing[i].name] == listing[i].pod
        invariant forall n :: n in pods && n !in rest ==> NamedPod(n, pods[n]) in listing
        decreases |rest|
      {
        var n :| n in rest;
        listing, rest := listing + [NamedPod(n, pods[n])], rest - {n};
      }
    }

    /** The first listed pod with the replica's pod name and an address. */
    method GetReplicaPod(name: string) returns (pod: Option<Pod>)
      ensures pod == PodOf(Contents(), name)
    {
      var listing := ListPods();
      for i := 0 to |listing|
        invariant forall k :: 0 <= k < i ==> !(listing[k].name == PodName(name) && listing[k].pod.ip != "")
      {
        if listing[i].name == PodName(name) && listing[i].pod.ip != "" {
          return Some(listing[i].pod);
        }
      }
      if PodName(name) in pods {
        assert NamedPod(PodName(name), pods[PodName(name)]) in listing;
      }
      return None;
    }

    /** The first loop of healing: observe every attached replica and count the healthy ones. */
    method ObserveReplicas(v: Volume, list: seq<Attachment>) returns (health: seq<Health>, healthyCount: nat)
      requires volume == v
      ensures health == Rebuilt(Contents(), list)
      ensures healthyCount == HealthyCount(Contents(), list)
    {
      ghost var w := Contents();
      health, healthyCount := [], 0;
      for i := 0 to |list|
        invariant health == Rebuilt(w, list)[..i]
        invariant healthyCount == HealthyCount(w, list[..i])
      {
        assert list[..i + 1][..i] == list[..i];
        var ra := list[i];
        var existing := FindExistingHealth(v.status.health, ra.name);
        var h := Health(ra.name, ra.node, Missing, existing.attempts, existing.lastHeal);
        if ra.name in replicas {
          var replica := replicas[ra.name];
          h := h.(phase := Seen(replica.status.phase));
          if replica.status.phase == ReplicaPhase.Running {
            var pod := GetReplicaPod(ra.name);
            if pod.Some? && pod.value.phase == PodRunning && replica.status.nqn != "" {
              healthyCount := healthyCount + 1;
            } else {
              h := h.(phase := Seen(ReplicaPhase.Pending));
            }
          }
        }
        health := health + [h];
      }
      assert list[..|list|] == list;
    }

    /** The decision of the second loop for one replica. */
    method DecideOne(h: Health, now: int) returns (act: Act)
      ensures act == Decide(Contents(), h, now)
    {
      if h.phase == Missing {
        return RemoveMissing;
      }
      var backoff, exhausted := HealingBackoff(h.attempts);
      if h.phase == Seen(ReplicaPhase.Failed) || h.phase == Seen(ReplicaPhase.Pending) {
        var pod := GetReplicaPod(h.name);
        if pod.None? {
          if h.name !in replicas || replicas[h.name].status.phase != ReplicaPhase.Running || replicas[h.name].deleting {
            return Skip;
          }
          return Recreate;
        }
        if exhausted {
          return Recreate;
        }
        if h.lastHeal.Some? {
          var remaining := backoff - (now - h.lastHeal.value);
          if remaining > 0 {
            return Wait(remaining);
          }
        }
        return Restart;
      }
      if h.lastHeal.Some? {
        var remaining := backoff - (now - h.lastHeal.value);
        if remaining > 0 {
          return Wait(remaining);
        }
      }
      return Skip;
    }

    /** Carry out one repair. */
    method Repair(v: Volume, e: Engine, health: seq<Health>, i: nat, now: int) returns (ok: bool)
      requires volume == v && engine == Some(e)
      requires |health| == |e.replicas| && i < |health| && Repairs(Decide(Contents(), health[i], now))
      modifies this
      ensures var plan := RepairPlan(old(Contents()), e.replicas, health, i, now);
              Issued(old(Contents()), old(budget), plan) && (ok <==> old(budget) >= |plan|)
    {
      ghost var w, b := Contents(), budget;
      ghost var plan := RepairPlan(w, e.replicas, health, i, now);
      var list, status := e.replicas, v.status.(health := health);
      assert plan[..0] == [] && plan[..|plan|] == plan;
      var act := DecideOne(health[i], now);
      match act
      case RemoveMissing =>
        ok := IssueNext(w, b, plan, 0, SetAttachments(list[..i] + list[i + 1..]));
        if !ok {
          return;
        }
        ok := IssueNext(w, b, plan, 1, SetVolumeStatus(status));
      case Recreate =>
        ok := IssueNext(w, b, plan, 0, DeleteReplica(list[i].name));
        if !ok {
          return;
        }
        ok := IssueNext(w, b, plan, 1, SetAttachments(list[..i] + list[i + 1..]));
        if !ok {
          return;
        }
        ok := IssueNext(w, b, plan, 2, SetVolumeStatus(status));
      case Restart =>
        ok := IssueNext(w, b, plan, 0, DeletePod(PodName(list[i].name)));
        if !ok {
          return;
        }
        var h := health[i];
        h := h.(attempts := h.attempts + 1);
        h := h.(lastHeal := Some(now));
        h := h.(phase := Seen(ReplicaPhase.Pending));
        ok := IssueNext(w, b, plan, 1, SetVolumeStatus(status.(health := health[i := h])));
    }

    /** Heal at most one replica, provided at least all but one are healthy. */
    method HealReplicas(v: Volume, e: Engine, now: int) returns (ok: bool, healed: bool, requeueAfter: nat)
      requires volume == v && engine == Some(e)
      requires Target(v.replicaCount, nodes).Ok?
      modifies this
      ensures var desired := Target(v.replicaCount, old(nodes)).value;
              var w, plan := old(Contents()), HealPlan(old(Contents()), e.replicas, desired, now);
              && Issued(w, old(budget), plan) && (ok <==> old(budget) >= |plan|)
              && (ok ==> (healed <==> Repaired(w, e.replicas, desired, now).Some?))
              && (ok ==> requeueAfter == HealRequeue(w, e.replicas, desired, now))
    {
      ghost var w, b := Contents(), budget;
      var desired := ReplicasForVolume(v.replicaCount, nodes);
      var list := e.replicas;
      var health, healthyCount := ObserveReplicas(v, list);
      var status := v.status.(health := health);
      healed, requeueAfter := false, 0;
      var threshold := desired.value - 1;
      if threshold < 0 {
        threshold := 0;
      }
      if healthyCount < threshold {
        ok := Issue(SetVolumeStatus(status.(phase := VolumePhase.Degraded)));
        return;
      }
      ok, healed, requeueAfter := RepairFirst(v, e, health, now);
    }

    /** The second loop of healing: stop at the first repair, and keep the shortest wait on the way. */
    method RepairFirst(v: Volume, e: Engine, health: seq<Health>, now: int)
        returns (ok: bool, healed: bool, requeueAfter: nat)
      requires volume == v && engine == Some(e) && |health| == |e.replicas|
      modifies this
      ensures var w, first := old(Contents()), FirstRepair(old(Contents()), health, now, 0);
              var plan := if first.Some? then RepairPlan(w, e.replicas, health, first.value, now)
                          else [SetVolumeStatus(v.status.(health := health))];
              && Issued(w, old(budget), plan) && (ok <==> old(budget) >= |plan|)
              && (healed <==> first.Some?)
              && requeueAfter == if healed then 0
                                 else match ShortestWait(w, health, now, |health|)
                                      case Some(s) => s
                                      case None => 0
    {
      ghost var w, b := Contents(), budget;
      healed, requeueAfter := false, 0;
      var shortest: Option<nat> := None;
      for i := 0 to |health|
        invariant Contents() == w && budget == b
        invariant FirstRepair(w, health, now, 0) == FirstRepair(w, health, now, i)
        invariant shortest == ShortestWait(w, health, now, i)
      {
        var act := DecideOne(health[i], now);
        if Repairs(act) {
          ok := Repair(v, e, health, i, now);
          healed := true;
          return;
        }
        if act.Wait? {
          if shortest.None? || act.seconds < shortest.value {
            shortest := Some(act.seconds);
          }
        }
      }
      ok := Issue(SetVolumeStatus(v.status.(health := health)));
      if shortest.Some? {
        requeueAfter := shortest.value;
      }
    }

    // ---- The pass ----

    method CheckChildrenReady() returns (ready: bool)
      ensures ready <==> ChildrenReady(Contents())
    {
      if engine.None? {
        return false;
      }
      if engine.value.phase != EnginePhase.Running {
        return false;
      }
      var list := engine.value.replicas;
      for i := 0 to |list|
        invariant forall k :: 0 <= k < i ==>
                    list[k].name in replicas && replicas[list[k].name].status.phase == ReplicaPhase.Running
      {
        if list[i].name !in replicas {
          return false;
        }
        if replicas[list[i].name].status.phase != ReplicaPhase.Running {
          return false;
        }
      }
      return true;
    }

    /** Give every attached replica the type its node calls for. */
    method CorrectTypes(v: Volume, e: Engine) returns (ok: bool)
      requires volume == v && engine == Some(e)
      modifies this
      ensures var plan := TypePlan(old(Contents()), e.replicas, 0);
              Issued(old(Contents()), old(budget), plan) && (ok <==> old(budget) >= |plan|)
      ensures volume == v && engine == Some(e) && nodes == old(nodes)
    {
      ghost var w, b := Contents(), budget;
      ghost var plan, k := TypePlan(w, e.replicas, 0), 0;
      var list := e.replicas;
      assert plan[..0] == [] && plan[0..] == plan && plan[..|plan|] == plan;
      for i := 0 to |list|
        invariant volume == v && engine == Some(e) && nodes == w.nodes
        invariant k <= |plan| && k <= b && budget == b - k && Contents() == ApplyAll(w, plan[..k])
        invariant plan[k..] == TypePlan(Contents(), list, i)
      {
        if list[i].name in replicas {
          var expected := Remote;
          if list[i].node == v.nodeID {
            expected := Local;
          }
          if replicas[list[i].name].spec.rtype != expected {
            ghost var rest := plan[k..];
            assert plan[k] == rest[0] == SetReplicaType(list[i].name, expected) && plan[k + 1..] == rest[1..];
            ApplyNext(w, plan, k);
            ok := IssueNext(w, b, plan, k, SetReplicaType(list[i].name, expected));
            if !ok {
              return;
            }
            k := k + 1;
          }
        }
      }
      return true;
    }

    /** The pass over an existing engine. */
    method Upkeep(v: Volume, e: Engine, ready: bool, now: int) returns (r: Outcome)
      requires present && volume == v && engine == Some(e) && v.status.engineRef
      requires ready <==> ChildrenReady(Contents())
      requires !(ready && v.status.phase != VolumePhase.Ready)
      modifies this
      ensures Issued(old(Contents()), old(budget), ExistingPlan(old(Contents()), now))
      ensures r == if old(budget) < |ExistingPlan(old(Contents()), now)| then Error
                   else PassOutcome(old(Contents()), now)
    {
      ghost var w, b := Contents(), budget;
      ghost var types := TypePlan(w, e.replicas, 0);
      ghost var fixed := ApplyAll(w, types);
      ghost var rest := UpkeepPlan(fixed, e.replicas, ready, now);
      assert ExistingPlan(w, now) == types + rest;
      var ok := CorrectTypes(v, e);
      if !ok {
        IssuedShort(w, b, types, rest, Contents(), budget);
        return Error;
      }
      assert Contents() == fixed;
      label fixedTypes:
      var desired := ReplicasForVolume(v.replicaCount, nodes);
      if desired.Err? {
        IssuedThen(w, b, types, rest, Contents(), budget);
        return Error;
      }
      if desired.value != |e.replicas| {
        ok := EnsureScale(v, e);
        IssuedThen(w, b, types, rest, Contents(), budget);
        return if ok then Done else Error;
      }
      if !ready {
        var healed, requeueAfter;
        ok, healed, requeueAfter := HealReplicas(v, e, now);
        IssuedThen(w, b, types, rest, Contents(), budget);
        if !ok {
          return Error;
        }
        if healed {
          return Done;
        }
        return RequeueAfter(if requeueAfter > 0 then requeueAfter else 5);
      }
      IssuedThen(w, b, types, rest, Contents(), budget);
      return Done;
    }

    /** The first pass: settle the volume's node, then create the children and record the engine. */
    method CreateAll() returns (r: Outcome)
      requires present && !volume.status.engineRef
      modifies this
      ensures Issued(old(Contents()), old(budget), FirstPlan(old(Contents())))
      ensures r == if old(budget) < |FirstPlan(old(Contents()))| then Error else PassOutcome(old(Contents()), 0)
    {
      if volume.nodeID == "" {
        var picked := PickAnyWorkerNode(nodes);
        if picked.None? {
          return Error;
        }
        r := SettleAndCreate(picked.value);
      } else {
        r := CreateOnNode();
      }
    }

    method SettleAndCreate(node: string) returns (r: Outcome)
      requires present && !volume.status.engineRef
      modifies this
      ensures var w := old(Contents());
              var plan := [SetVolumeNode(node)] + CreatePlan(Apply(w, SetVolumeNode(node)));
              && Issued(w, old(budget), plan)
              && r == if old(budget) < |plan| || Target(w.volume.replicaCount, w.nodes).Err? then Error else Done
    {
      ghost var w, b := Contents(), budget;
      ghost var settled := Apply(w, SetVolumeNode(node));
      ApplyOne(w, SetVolumeNode(node));
      var ok := Issue(SetVolumeNode(node));
      if !ok {
        IssuedShort(w, b, [SetVolumeNode(node)], CreatePlan(settled), Contents(), budget);
        return Error;
      }
      r := CreateOnNode();
      IssuedThen(w, b, [SetVolumeNode(node)], CreatePlan(settled), Contents(), budget);
    }

    method CreateOnNode() returns (r: Outcome)
      requires present && !volume.status.engineRef
      modifies this
      ensures Issued(old(Contents()), old(budget), CreatePlan(old(Contents())))
      ensures r == if old(budget) < |CreatePlan(old(Contents()))| || Target(old(volume).replicaCount, old(nodes)).Err?
                   then Error else Done
    {
      ghost var w, b := Contents(), budget;
      var v := volume;
      var n := ReplicasForVolume(v.replicaCount, nodes);
      if n.Err? {
        return Error;
      }
      var picked := PickWorkerNodes(nodes, n.value);
      ghost var children := ChildrenPlan(v, picked);
      ghost var finish := [SetVolumeStatus(v.status.(engineRef := true, phase := VolumePhase.Creating))];
      assert CreatePlan(w) == children + finish;
      var ok := EnsureChildren(v, picked);
      if !ok {
        IssuedShort(w, b, children, finish, Contents(), budget);
        return Error;
      }
      ok := Issue(SetVolumeStatus(v.status.(engineRef := true, phase := VolumePhase.Creating)));
      IssuedThen(w, b, children, finish, Contents(), budget);
      return if ok then Done else Error;
    }

    /** One reconcile pass of the volume controller. */
    method Reconcile(now: int) returns (r: Outcome)
      modifies this
      ensures Issued(old(Contents()), old(budget), PassPlan(old(Contents()), now))
      ensures r == if old(budget) < |PassPlan(old(Contents()), now)| then Error
                   else PassOutcome(old(Contents()), now)
    {
      if !present {
        return Done;
      }
      if !volume.status.engineRef {
        r := CreateAll();
        return;
      }
      var ready := CheckChildrenReady();
      if ready && volume.status.phase != VolumePhase.Ready {
        var ok := Issue(SetVolumeStatus(volume.status.(phase := VolumePhase.Ready)));
        return if ok then Done else Error;
      }
      if engine.None? {
        var ok := Issue(SetVolumeStatus(volume.status.(engineRef := false, phase := VolumePhase.Creating)));
        return if ok then Done else Error;
      }
      r := Upkeep(volume, engine.value, ready, now);
    }

    // ---- The dashboard, a second writer of the same list ----

    /** Delete a replica, then filter it out of the engine's list. */
    method DashboardDelete(name: string) returns (ok: bool)
      modifies this
      ensures ok <==> old(budget) >= |DashboardPlan(old(Contents()), name)| && name in old(replicas)
      ensures Issued(old(Contents()), old(budget), DashboardPlan(old(Contents()), name))
    {
      ghost var w, b := Contents(), budget;
      ghost var plan := DashboardPlan(w, name);
      assert plan[..0] == [] && plan[..|plan|] == plan;
      if name !in replicas {
        return false;
      }
      ok := IssueNext(w, b, plan, 0, DeleteReplica(name));
      if !ok || !volume.status.engineRef || engine.None? || !present {
        return;
      }
      var filtered := FilterOut(engine.value.replicas, name);
      if |filtered| < |engine.value.replicas| {
        ok := IssueNext(w, b, plan, 1, SetAttachments(filtered));
      }
    }

    static method FilterOut(list: seq<Attachment>, name: string) returns (filtered: seq<Attachment>)
      ensures filtered == Filtered(list, name)
    {
      filtered := [];
      for i := 0 to |list|
        invariant filtered == Filtered(list[..i], name)
      {
        assert list[..i + 1][..i] == list[..i];
        if list[i].name != name {
          filtered := filtered + [list[i]];
        }
      }
      assert list[..|list|] == list;
    }
  }

  function Filtered(list: seq<Attachment>, name: string): (r: seq<Attachment>)
    ensures |r| <= |list|
    ensures forall a :: a in r <==> a in list && a.name != name
  {
    if list == [] then []
    else
      var last := list[|list| - 1];
      Filtered(list[..|list| - 1], name) + if last.name != name then [last] else []
  }

  /** The writes of a dashboard delete; deleting an absent replica stops at once with an error. */
  function DashboardPlan(w: World, name: string): seq<Write> {
    if name !in w.replicas then []
    else
      [DeleteReplica(name)] +
      if w.present && w.volume.status.engineRef && w.engine.Some?
         && |Filtered(w.engine.value.replicas, name)| < |w.engine.value.replicas|
      then [SetAttachments(Filtered(w.engine.value.replicas, name))] else []
  }

}
