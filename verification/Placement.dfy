/**
 Placement: all replicas of a volume use the same data path, so two on one node would share a file.
 When do the attachments sit on pairwise distinct nodes?
 */
module Placement {
  import opened Wrappers
  import opened Names
  import opened Types
  import opened Nodes
  import opened Plan
  import opened Scale
  import opened Passes
  import opened VolumeController
  import opened Runs

  ghost predicate DistinctPlaces(list: seq<Attachment>) {
    forall i, j :: 0 <= i < j < |list| ==> list[i].node != list[j].node
  }

  /** The slots' nodes are new and pairwise distinct. */
  ghost predicate FreshPlaces(slots: seq<Slot>, used: set<string>) {
    && (forall k :: 0 <= k < |slots| ==> slots[k].node !in used)
    && (forall i, k :: 0 <= i < k < |slots| ==> slots[i].node != slots[k].node)
  }

  /**
   Room for `count` more replicas: enough unused workers; or, for a fixed node or a cluster without
   workers, a single replica whose one possible place is free.
   */
  predicate HasRoom(nodes: seq<Node>, fixed: Option<string>, used: set<string>, count: nat) {
    || count == 0
    || (fixed.Some? && count == 1 && fixed.value !in used)
    || (fixed.None? && count <= |WorkerSet(nodes) - used|)
    || (fixed.None? && WorkerSet(nodes) == {} && count == 1 && "" !in used)
  }

  lemma {:induction false} AllocationPlaces(nodes: seq<Node>, fixed: Option<string>, usedIndices: set<nat>,
                                            used: set<string>, next: nat, count: nat)
    ensures FreshPlaces(Allocation(nodes, fixed, usedIndices, used, next, count), used)
            <==> HasRoom(nodes, fixed, used, count)
    decreases count
  {
    if count > 0 {
      AllocationUnfolds(nodes, fixed, usedIndices, used, next, count);
      var slots := Allocation(nodes, fixed, usedIndices, used, next, count);
      var index := LeastFree(usedIndices, next);
      var node := if fixed.Some? then fixed.value else Unused(nodes, used);
      AllocationPlaces(nodes, fixed, usedIndices + {index}, used + {node}, index, count - 1);
      PlacesUnfold(slots, used);
      RoomUnfolds(nodes, fixed, used, count);
    }
  }

  lemma PlacesUnfold(slots: seq<Slot>, used: set<string>)
    requires slots != []
    ensures FreshPlaces(slots, used)
            <==> slots[0].node !in used && FreshPlaces(slots[1..], used + {slots[0].node})
  {
    var rest := slots[1..];
    assert forall k :: 0 <= k < |rest| ==> rest[k] == slots[k + 1];
    if slots[0].node !in used && FreshPlaces(rest, used + {slots[0].node}) {
      forall i, k | 0 <= i < k < |slots| ensures slots[i].node != slots[k].node {
        assert slots[k] == rest[k - 1];
        assert i > 0 ==> slots[i] == rest[i - 1];
      }
      forall k | 0 <= k < |slots| ensures slots[k].node !in used {
        assert k > 0 ==> slots[k] == rest[k - 1];
      }
    }
    if FreshPlaces(slots, used) {
      forall k | 0 <= k < |rest| ensures rest[k].node !in used + {slots[0].node} {
        assert rest[k] == slots[k + 1];
      }
    }
  }

  lemma RoomUnfolds(nodes: seq<Node>, fixed: Option<string>, used: set<string>, count: nat)
    requires count > 0
    ensures var node := if fixed.Some? then fixed.value else Unused(nodes, used);
            HasRoom(nodes, fixed, used, count) <==> node !in used && HasRoom(nodes, fixed, used + {node}, count - 1)
  {
    var node := if fixed.Some? then fixed.value else Unused(nodes, used);
    var free := WorkerSet(nodes) - used;
    assert WorkerSet(nodes) - (used + {node}) == free - {node};
    if free == {} && WorkerSet(nodes) != {} {
      assert FirstUnused(nodes, used).None?;
      assert FirstUnused(nodes, {}).Some?;
    }
  }

  lemma PlacesAppend(list: seq<Attachment>, slots: seq<Slot>, grown: seq<Attachment>)
    requires DistinctPlaces(list) && |grown| == |list| + |slots|
    requires forall i :: 0 <= i < |list| ==> grown[i] == list[i]
    requires forall k :: 0 <= k < |slots| ==> grown[|list| + k].node == slots[k].node
    ensures DistinctPlaces(grown) <==> FreshPlaces(slots, UsedNodes(list))
  {
    if DistinctPlaces(grown) {
      forall k | 0 <= k < |slots| ensures slots[k].node !in UsedNodes(list) {
        forall i | 0 <= i < |list| ensures list[i].node != slots[k].node {
          assert grown[i] == list[i];
        }
      }
      forall i, k | 0 <= i < k < |slots| ensures slots[i].node != slots[k].node {
        assert grown[|list| + i].node != grown[|list| + k].node;
      }
    }
    if FreshPlaces(slots, UsedNodes(list)) {
      forall i, j | 0 <= i < j < |grown| ensures grown[i].node != grown[j].node {
        if j >= |list| {
          assert grown[j].node == slots[j - |list|].node;
          if i < |list| { assert list[i].node in UsedNodes(list); }
          else { assert grown[i].node == slots[i - |list|].node; }
        }
      }
    }
  }

  /**
   Exactly when a scale up keeps the attachments on distinct nodes: there was room for every new one.
   An explicit count above the number of workers, or a cluster without workers, can break it.
   */
  lemma ScaleUpPlacement(w: World, list: seq<Attachment>, desired: nat)
    requires |list| <= desired && DistinctPlaces(list)
    ensures DistinctPlaces(GrownList(w, list, desired))
            <==> HasRoom(w.nodes, FixedNode(w.volume), UsedNodes(list), desired - |list|)
  {
    var slots := NewSlots(w, list, desired);
    AllocationPlaces(w.nodes, FixedNode(w.volume), UsedIndices(w.volume.name, list, desired + 10),
                     UsedNodes(list), 0, desired - |list|);
    assert DistinctPlaces(GrownList(w, list, desired)) <==> FreshPlaces(slots, UsedNodes(list)) by {
      PlacesAppend(list, slots, GrownList(w, list, desired));
    }
  }

  lemma {:induction false} FewUsedNodes(list: seq<Attachment>)
    ensures |UsedNodes(list)| <= |list|
  {
    if list == [] {
      assert UsedNodes(list) == {};
    } else {
      var n := |list| - 1;
      FewUsedNodes(list[..n]);
      forall x | x in UsedNodes(list) ensures x in UsedNodes(list[..n]) + {list[n].node} {
        var i :| 0 <= i < |list| && list[i].node == x;
        assert i < n ==> list[..n][i].node == x;
      }
      SubsetSize(UsedNodes(list), UsedNodes(list[..n]) + {list[n].node});
    }
  }

  /** For an automatic count and at least one worker there is always room: fewer attachments than workers. */
  lemma AutomaticCountHasRoom(w: World, list: seq<Attachment>)
    requires DistinctNames(w.nodes) && WorkerSet(w.nodes) != {} && w.volume.snapshotSource.None?
    requires |list| <= AutoTarget(w.nodes)
    ensures HasRoom(w.nodes, FixedNode(w.volume), UsedNodes(list), AutoTarget(w.nodes) - |list|)
  {
    WorkersCounted(w.nodes);
    FewUsedNodes(list);
    var workers, used := WorkerSet(w.nodes), UsedNodes(list);
    assert workers == (workers - used) + (workers * used);
    assert |workers| == |workers - used| + |workers * used|;
    SubsetSize(workers * used, used);
    assert WorkerNames(w.nodes) == [] ==> workers == {};
  }

  // ---- Whole runs ----

  ghost predicate Placed(w: World) {
    w.engine.Some? ==> DistinctPlaces(w.engine.value.replicas)
  }

  /** A volume with an automatic count and no snapshot source. */
  ghost predicate Automatic(w: World) {
    && w.volume.snapshotSource.None?
    && ParseReplicaCount(w.volume.replicaCount) == Ok(Auto)
    && DistinctNames(w.nodes)
  }

  /** A pass that scales up sees at least one worker. */
  ghost predicate SeesWorker(w: World, e: Event) {
    e.Pass? && w.engine.Some? && |List(w)| < AutoTarget(w.nodes) ==> WorkerSet(w.nodes) != {}
  }

  lemma FirstListPlaced(w: World)
    requires Automatic(w)
    ensures DistinctPlaces(FirstList(w))
  {
    var n := Target(w.volume.replicaCount, w.nodes).value;
    FirstWorkersDistinct(w.nodes, n);
    assert Settled(w).snapshotSource.None?;
    var picked, list := FirstWorkers(w.nodes, n), FirstList(w);
    assert forall i :: 0 <= i < |picked| ==> list[i].node == picked[i];
  }

  lemma PassKeepsPlaced(w: World, now: int, cut: nat)
    requires Placed(w) && Automatic(w) && SeesWorker(w, Pass(now, cut)) && cut <= |PassPlan(w, now)|
    ensures Placed(CutPass(w, now, cut))
  {
    if UpkeepDue(w) {
      ListIsAtomic(w, now, cut);
      var list, desired := List(w), AutoTarget(w.nodes);
      assert Target(w.volume.replicaCount, w.nodes) == Ok(desired);
      if desired > |list| {
        AutomaticCountHasRoom(w, list);
        ScaleUpPlacement(w, list, desired);
      }
    } else {
      OtherPasses(w, now, cut);
      FirstListPlaced(w);
    }
  }

  lemma StepKeepsPlaced(w: World, e: Event, x: World)
    requires Placed(w) && Automatic(w) && SeesWorker(w, e) && Next(w, e, x)
    ensures Placed(x)
  {
    match e
    case Pass(now, cut) => PassKeepsPlaced(w, now, cut);
    case UserDelete(name, cut) =>
      DashboardList(w, name, cut);
      if w.engine.Some? {
        var list := w.engine.value.replicas;
        var at := FilteredWithin(list, name);
        var part := Filtered(list, name);
        forall i, j | 0 <= i < j < |part| ensures part[i].node != part[j].node {
          assert list[at[i]].node != list[at[j]].node;
        }
      }
    case Environment =>
  }

  /**
   In every reachable state the attached replicas sit on pairwise distinct nodes, under any mix of
   passes (cut off anywhere), user deletes, lost engines and node changes, provided every pass that
   scales up sees a worker.
   */
  lemma {:induction false} PlacementOverRuns(ws: seq<World>, es: seq<Event>)
    requires IsRun(ws, es) && Placed(ws[0])
    requires forall i :: 0 <= i < |ws| ==> Automatic(ws[i])
    requires forall i :: 0 <= i < |es| ==> SeesWorker(ws[i], es[i])
    ensures forall i :: 0 <= i < |ws| ==> Placed(ws[i])
  {
    var n := |es|;
    if n > 0 {
      assert IsRun(ws[..n], es[..n - 1]) by {
        assert forall i :: 0 <= i < n - 1 ==> Next(ws[i], es[i], ws[i + 1]);
      }
      PlacementOverRuns(ws[..n], es[..n - 1]);
      assert Placed(ws[..n][n - 1]);
      StepKeepsPlaced(ws[n - 1], es[n - 1], ws[n]);
      forall i | 0 <= i < |ws| ensures Placed(ws[i]) {
        if i < n { assert ws[i] == ws[..n][i]; }
      }
    }
  }

  // ---- Where the replica objects really are ----

  /** The object behind every attachment, where there is one, sits on the attachment's node. */
  ghost predicate ObjectsAgree(replicas: map<string, Replica>, list: seq<Attachment>) {
    forall i :: 0 <= i < |list| ==> list[i].name in replicas ==> replicas[list[i].name].spec.node == list[i].node
  }

  /**
   A create of a name that exists keeps the old object, so a scale up keeps attachments and objects
   in agreement exactly when no leftover object of an allocated name sits on another node.
   */
  lemma ScaleUpAgreement(w: World, list: seq<Attachment>, desired: nat)
    requires |list| <= desired && w.engine.Some? && ObjectsAgree(w.replicas, list)
    ensures var slots := NewSlots(w, list, desired);
            var x := ApplyAll(w, ScaleUpPlan(w, list, desired));
            && x.engine == Some(w.engine.value.(replicas := GrownList(w, list, desired)))
            && (ObjectsAgree(x.replicas, GrownList(w, list, desired))
                <==> forall k :: 0 <= k < |slots| ==>
                       var name := ReplicaName(w.volume.name, slots[k].index);
                       name in w.replicas ==> w.replicas[name].spec.node == slots[k].node)
  {
    ScaleUpEffect(w, list, desired);
    GrownAgreement(w, list, desired);
  }

  lemma GrownAgreement(w: World, list: seq<Attachment>, desired: nat)
    requires |list| <= desired && ObjectsAgree(w.replicas, list)
    ensures var slots := NewSlots(w, list, desired);
            ObjectsAgree(Made(w.volume, slots) + w.replicas, GrownList(w, list, desired))
            <==> forall k :: 0 <= k < |slots| ==>
                   var name := ReplicaName(w.volume.name, slots[k].index);
                   name in w.replicas ==> w.replicas[name].spec.node == slots[k].node
  {
    var slots := NewSlots(w, list, desired);
    var after, added := Made(w.volume, slots) + w.replicas, Attachments(w.volume, slots);
    GrownObjects(w, list, desired);
    AgreeSplit(after, list, added);
    assert forall k :: 0 <= k < |slots| ==> added[k] == NewAttachment(ReplicaName(w.volume.name,
          slots[k].index), slots[k].node);
  }

  lemma AgreeSplit(replicas: map<string, Replica>, a: seq<Attachment>, b: seq<Attachment>)
    ensures ObjectsAgree(replicas, a + b) <==> ObjectsAgree(replicas, a) && ObjectsAgree(replicas, b)
  {
    var both := a + b;
    assert forall i :: 0 <= i < |a| ==> both[i] == a[i];
    forall i | 0 <= i < |b| ensures b[i] == both[|a| + i] {
    }
  }

  /** After the creates of a scale up: new names are on their slot's node or where they were, attached ones as before. */
  lemma GrownObjects(w: World, list: seq<Attachment>, desired: nat)
    requires |list| <= desired && ObjectsAgree(w.replicas, list)
    ensures var slots, after := NewSlots(w, list, desired), Made(w.volume, NewSlots(w, list, desired)) + w.replicas;
            && (forall k :: 0 <= k < |slots| ==>
                  var name := ReplicaName(w.volume.name, slots[k].index);
                  && name in after
                  && after[name].spec.node == if name in w.replicas then w.replicas[name].spec.node else slots[k].node)
            && ObjectsAgree(after, list)
  {
    var slots := NewSlots(w, list, desired);
    FreshIndices(w, list, desired);
    forall k | 0 <= k < |slots|
      ensures ReplicaName(w.volume.name, slots[k].index) in Made(w.volume, slots)
              && Made(w.volume, slots)[ReplicaName(w.volume.name, slots[k].index)] == NewReplica(w.volume, slots[k].node)
    {
      MadeOn(w.volume, slots, k);
    }
    forall i | 0 <= i < |list| ensures list[i].name !in Made(w.volume, slots) {
      MadeNames(w.volume, slots);
      assert list[i].name in AttachedNames(list);
    }
  }

  /**
   How that happens: a scale up is cut off after its first create, the nodes change so that the next
   pass picks another node for that index, and the leftover object is kept where it is. If the pass
   picks the leftover's node for another new replica, the objects of two attached replicas end up on
   one node, with one data file, although their attachments are on different nodes.
   */
  lemma LeftoverSharesANode(y: World, x: World, desired: nat, k: nat)
    requires y.engine.Some? && |List(y)| < desired && ObjectsAgree(y.replicas, List(y))
    requires x == ApplyAll(y, ScaleUpPlan(y, List(y), desired)[..1]).(nodes := x.nodes)
    requires var was, slots := NewSlots(y, List(y), desired), NewSlots(x, List(y), desired);
             && ReplicaName(y.volume.name, was[0].index) !in y.replicas
             && slots[0].node != was[0].node
             && 0 < k < |slots| && slots[k].node == was[0].node
             && ReplicaName(y.volume.name, slots[k].index) !in x.replicas
    ensures x.engine == y.engine
            && var z := ApplyAll(x, ScaleUpPlan(x, List(x), desired));
               z.engine.Some? && |List(z)| == desired
               && var a, b := List(z)[|List(y)|], List(z)[|List(y)| + k];
                  && a.name != b.name && a.node != b.node
                  && a.name in z.replicas && b.name in z.replicas
                  && z.replicas[a.name].spec.node == z.replicas[b.name].spec.node
                  && z.replicas[a.name].spec.dataPath == z.replicas[b.name].spec.dataPath
  {
    var list := List(y);
    var was, slots := NewSlots(y, list, desired), NewSlots(x, list, desired);
    FirstCreate(y, list, desired);
    assert slots[0].index == was[0].index;
    ScaleUpEffect(x, list, desired);
    FreshIndices(x, list, desired);
    MadeOn(x.volume, slots, k);
    MadeOn(x.volume, slots, 0);
    DifferentIndices(x.volume.name, slots[0].index, slots[k].index);
  }

  /** A scale up cut off after its first create. */
  lemma FirstCreate(y: World, list: seq<Attachment>, desired: nat)
    requires |list| < desired
    ensures var slot := NewSlots(y, list, desired)[0];
            var name := ReplicaName(y.volume.name, slot.index);
            ApplyAll(y, ScaleUpPlan(y, list, desired)[..1])
            == if name in y.replicas then y else y.(replicas := y.replicas[name := NewReplica(y.volume, slot.node)])
  {
    var plan := ScaleUpPlan(y, list, desired);
    assert plan[..1] == [plan[0]];
    ApplyOne(y, plan[0]);
  }

}
