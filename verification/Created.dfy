/** What passes put into the objects, attachments and engines they make, and which names and nodes they get. */
module Created {
  import opened Wrappers
  import opened Names
  import opened Types
  import opened Nodes
  import opened Plan
  import opened Scale
  import opened Passes
  import opened VolumeController
  import opened CrashRetry
  import opened ObjectNodes

  // ---- Objects ----

  /** A new object of the volume, as the volume controller is to make it. */
  predicate AsOrdered(v: Volume, r: Replica) {
    && r.spec.volume == v.name && r.spec.size == v.size
    && r.spec.dataPath == "/var/lib/kdfs/" + v.name + "/vol.img"
    && r.spec.snapshotSource == (if v.snapshotSource.Some? then v.snapshotSource.value else "")
    && (r.spec.rtype == Local <==> r.spec.node == v.nodeID)
    && (v.snapshotSource.Some? ==> r.spec.node == v.nodeID)
    && r.status.phase == ReplicaPhase.Unset && r.status.nqn == "" && r.status.endpoint == "" && !r.deleting
  }

  /** Every create of the plan makes an object as ordered, and no type is set of an object that is not there. */
  ghost predicate Orderly(w: World, plan: seq<Write>, v: Volume) {
    forall k :: 0 <= k < |plan| ==>
      && (plan[k].CreateReplica? ==> AsOrdered(v, plan[k].replica))
      && (plan[k].SetReplicaType? ==> plan[k].name in w.replicas)
  }

  lemma {:induction false} NewObjectsAsOrdered(w: World, plan: seq<Write>, v: Volume, cut: nat, name: string)
    requires cut <= |plan| && Orderly(w, plan, v)
    requires name !in w.replicas && name in ApplyAll(w, plan[..cut]).replicas
    ensures AsOrdered(v, ApplyAll(w, plan[..cut]).replicas[name])
  {
    if cut > 0 {
      assert plan[..cut][..cut - 1] == plan[..cut - 1];
      var x := ApplyAll(w, plan[..cut - 1]);
      if name in x.replicas {
        NewObjectsAsOrdered(w, plan, v, cut - 1, name);
      }
    }
  }

  lemma CreatesAreOrderly(v: Volume, slots: seq<Slot>)
    requires v.snapshotSource.Some? ==> forall k :: 0 <= k < |slots| ==> slots[k].node == v.nodeID
    ensures forall k :: 0 <= k < |slots| ==> AsOrdered(v, Creates(v, slots)[k].replica)
  {
  }

  lemma FirstPlanIsOrderly(w: World)
    requires FirstPlan(w) != []
    ensures Orderly(w, FirstPlan(w), Settled(w))
  {
    if Target(w.volume.replicaCount, w.nodes).Ok? {
      FirstPlanParts(w);
      FirstPartsAreOrderly(w);
    } else {
      assert FirstPlan(w) == [SetVolumeNode(Settled(w).nodeID)];
    }
  }

  lemma FirstPartsAreOrderly(w: World)
    requires Target(w.volume.replicaCount, w.nodes).Ok?
    ensures Orderly(w, FirstWrites(w) + Creates(Settled(w), SlotsOf(w)) + LastWrites(w), Settled(w))
  {
    FirstCreatesAreOrderly(w);
    PartsAreOrderly(w, FirstWrites(w), Creates(Settled(w), SlotsOf(w)), LastWrites(w), Settled(w));
  }

  lemma FirstCreatesAreOrderly(w: World)
    requires Target(w.volume.replicaCount, w.nodes).Ok?
    ensures var creates := Creates(Settled(w), SlotsOf(w));
            forall k :: 0 <= k < |creates| ==> creates[k].CreateReplica? && AsOrdered(Settled(w), creates[k].replica)
  {
    CreatesAreOrderly(Settled(w), SlotsOf(w));
  }

  lemma PartsAreOrderly(w: World, before: seq<Write>, creates: seq<Write>, after: seq<Write>, v: Volume)
    requires forall k :: 0 <= k < |before| ==> !before[k].CreateReplica? && !before[k].SetReplicaType?
    requires forall k :: 0 <= k < |creates| ==> creates[k].CreateReplica? && AsOrdered(v, creates[k].replica)
    requires forall k :: 0 <= k < |after| ==> !after[k].CreateReplica? && !after[k].SetReplicaType?
    ensures Orderly(w, before + creates + after, v)
  {
  }

  lemma {:induction false} FixedSlots(nodes: seq<Node>, node: string, usedIndices: set<nat>, used: set<string>,
                                      next: nat, count: nat)
    ensures forall k :: 0 <= k < count ==> Allocation(nodes, Some(node), usedIndices, used, next, count)[k].node == node
    decreases count
  {
    if count > 0 {
      var index := LeastFree(usedIndices, next);
      FixedSlots(nodes, node, usedIndices + {index}, used + {node}, index, count - 1);
      AllocationUnfolds(nodes, Some(node), usedIndices, used, next, count);
      var slots := Allocation(nodes, Some(node), usedIndices, used, next, count);
      assert forall k :: 1 <= k < count ==> slots[k] == slots[1..][k - 1];
    }
  }

  lemma {:induction false} TypesOfThere(w: World, list: seq<Attachment>, i: nat)
    requires i <= |list|
    ensures forall k :: 0 <= k < |TypePlan(w, list, i)| ==>
              TypePlan(w, list, i)[k].SetReplicaType? && TypePlan(w, list, i)[k].name in w.replicas
    decreases |list| - i
  {
    if i < |list| {
      var name, rtype := list[i].name, ExpectedType(w.volume, list[i].node);
      if name in w.replicas && w.replicas[name].spec.rtype != rtype {
        TypesOfThere(Apply(w, SetReplicaType(name, rtype)), list, i + 1);
      } else {
        TypesOfThere(w, list, i + 1);
      }
    }
  }

  lemma RestIsOrderly(w: World, y: World, list: seq<Attachment>, ready: bool, now: int)
    requires y.volume == w.volume
    ensures Orderly(w, UpkeepPlan(y, list, ready, now), w.volume)
  {
    var t := Target(y.volume.replicaCount, y.nodes);
    if t.Ok? && t.value > |list| {
      var slots := NewSlots(y, list, t.value);
      if y.volume.snapshotSource.Some? {
        FixedSlots(y.nodes, y.volume.nodeID, UsedIndices(y.volume.name, list, t.value + 10), UsedNodes(list), 0,
                   t.value - |list|);
      }
      CreatesAreOrderly(y.volume, slots);
    }
  }

  lemma UpkeepIsOrderly(w: World, now: int)
    requires UpkeepDue(w)
    ensures Orderly(w, PassPlan(w, now), w.volume)
  {
    var rest := UpkeepPlan(Typed(w), List(w), ChildrenReady(w), now);
    WholeUpkeep(w, now);
    TypesOfThere(w, List(w), 0);
    RestIsOrderly(w, Typed(w), List(w), ChildrenReady(w), now);
    assert PassPlan(w, now) == Corrections(w) + rest;
  }

  /**
   Every object that a pass adds, wherever it is cut off, is of the volume, with its size, its data path and
   its snapshot source, on the volume's node if there is a source, local exactly on that node, and without
   a status.
   */
  lemma ObjectsAreAsOrdered(w: World, now: int, cut: nat, name: string)
    requires cut <= |PassPlan(w, now)| && name !in w.replicas && name in CutPass(w, now, cut).replicas
    ensures AsOrdered(if w.volume.status.engineRef then w.volume else Settled(w), CutPass(w, now, cut).replicas[name])
  {
    if UpkeepDue(w) {
      UpkeepIsOrderly(w, now);
      NewObjectsAsOrdered(w, PassPlan(w, now), w.volume, cut, name);
    } else if w.present && !w.volume.status.engineRef && FirstPlan(w) != [] {
      FirstPlanIsOrderly(w);
      NewObjectsAsOrdered(w, PassPlan(w, now), Settled(w), cut, name);
    } else {
      NewObjectsAsOrdered(w, PassPlan(w, now), w.volume, cut, name);
    }
  }

  // ---- The first pass ----

  /** The volume's node once it is settled: its own, else the first worker, else the first node. */
  lemma SettledNode(w: World, j: nat)
    requires j <= |w.nodes| && forall k :: 0 <= k < j ==> w.nodes[k].controlPlane
    requires j < |w.nodes| ==> !w.nodes[j].controlPlane
    ensures Settled(w) == w.volume.(nodeID := if w.volume.nodeID != "" then w.volume.nodeID
                                              else if j < |w.nodes| then w.nodes[j].name
                                              else if w.nodes != [] then w.nodes[0].name else "")
  {
    PickedNode(w.nodes, {}, j, j);
  }

  /**
   A whole first pass with no engine there attaches replica-0, replica-1 and so on, as many as the target
   but no more than there are workers, or nodes if there is no worker, on these in the order of their
   names, and makes an engine on the volume's node.
   */
  lemma FirstPassAttaches(w: World, now: int)
    requires w.present && !w.volume.status.engineRef && FirstPlan(w) != [] && w.engine.None?
    requires Target(w.volume.replicaCount, w.nodes).Ok?
    ensures var x, n := FullPass(w, now), Target(w.volume.replicaCount, w.nodes).value;
            var picked := SortStrings(if WorkerNames(w.nodes) == [] then AllNames(w.nodes) else WorkerNames(w.nodes));
            && x.volume.nodeID == Settled(w).nodeID && x.engine.Some?
            && x.engine.value.node == Settled(w).nodeID && x.engine.value.phase == EnginePhase.Unset
            && |List(x)| == (if n < |picked| then n else |picked|)
            && forall i :: 0 <= i < |List(x)| ==>
                 List(x)[i] == Attachment(ReplicaName(w.volume.name, i),
                   if w.volume.snapshotSource.Some? then x.volume.nodeID else picked[i], false, "", "", "")
  {
    FirstPassEffect(w, now);
    FirstListReads(Settled(w), w.nodes, Target(w.volume.replicaCount, w.nodes).value);
  }

  lemma FirstListReads(v: Volume, nodes: seq<Node>, n: nat)
    ensures var list := Attachments(v, FirstSlots(v, FirstWorkers(nodes, n)));
            var picked := SortStrings(if WorkerNames(nodes) == [] then AllNames(nodes) else WorkerNames(nodes));
            && |list| == (if n < |picked| then n else |picked|)
            && forall i :: 0 <= i < |list| ==>
                 list[i] == Attachment(ReplicaName(v.name, i),
                   if v.snapshotSource.Some? then v.nodeID else picked[i], false, "", "", "")
  {
  }

  // ---- Scaling up ----

  /** The least index whose replica is not in the list. */
  ghost predicate LeastIndex(volume: string, list: seq<Attachment>, i: nat) {
    && ReplicaName(volume, i) !in AttachedNames(list)
    && forall j: nat :: j < i ==> ReplicaName(volume, j) in AttachedNames(list)
  }

  function NodesOf(slots: seq<Slot>): set<string> {
    set i | 0 <= i < |slots| :: slots[i].node
  }

  lemma {:induction false} AllocationNode(nodes: seq<Node>, usedIndices: set<nat>, used: set<string>, next: nat,
                                          count: nat, k: nat)
    requires k < count
    ensures var slots := Allocation(nodes, None, usedIndices, used, next, count);
            slots[k].node == Unused(nodes, used + NodesOf(slots[..k]))
    decreases count
  {
    AllocationUnfolds(nodes, None, usedIndices, used, next, count);
    var slots := Allocation(nodes, None, usedIndices, used, next, count);
    if k == 0 {
      assert used + NodesOf(slots[..0]) == used;
    } else {
      var index, node := LeastFree(usedIndices, next), Unused(nodes, used);
      AllocationNode(nodes, usedIndices + {index}, used + {node}, index, count - 1, k - 1);
      var rest := slots[1..];
      NodesOfMore(slots, k);
      assert used + {node} + NodesOf(rest[..k - 1]) == used + NodesOf(slots[..k]);
    }
  }

  lemma NodesOfMore(slots: seq<Slot>, k: nat)
    requires 0 < k <= |slots|
    ensures NodesOf(slots[..k]) == {slots[0].node} + NodesOf(slots[1..][..k - 1])
  {
    var all, rest := slots[..k], slots[1..][..k - 1];
    assert forall i :: 0 <= i < |rest| ==> rest[i] == all[i + 1];
    forall x | x in NodesOf(all) ensures x in {slots[0].node} + NodesOf(rest) {
      var i :| 0 <= i < |all| && all[i].node == x;
      assert i > 0 ==> rest[i - 1].node == x;
    }
    assert all[0].node == slots[0].node;
    forall x | x in NodesOf(rest) ensures x in NodesOf(all) {
      var i :| 0 <= i < |rest| && rest[i].node == x;
      assert all[i + 1].node == x;
    }
  }

  lemma UsedNodesGrow(v: Volume, list: seq<Attachment>, slots: seq<Slot>)
    ensures UsedNodes(list + Attachments(v, slots)) == UsedNodes(list) + NodesOf(slots)
  {
    var added := Attachments(v, slots);
    var all := list + added;
    forall x | x in UsedNodes(all) ensures x in UsedNodes(list) + NodesOf(slots) {
      var i :| 0 <= i < |all| && all[i].node == x;
      if i < |list| { assert list[i].node == x; } else { assert slots[i - |list|].node == x; }
    }
    forall x | x in UsedNodes(list) ensures x in UsedNodes(all) {
      var i :| 0 <= i < |list| && list[i].node == x;
      assert all[i].node == x;
    }
    forall x | x in NodesOf(slots) ensures x in UsedNodes(all) {
      var i :| 0 <= i < |slots| && slots[i].node == x;
      assert all[|list| + i].node == x;
    }
  }

  /** The list once the first k slots are appended does not hold the next name. */
  lemma NextIsFree(w: World, list: seq<Attachment>, desired: nat, k: nat)
    requires |list| <= desired && k < desired - |list|
    ensures var slots, v := NewSlots(w, list, desired), w.volume.name;
            ReplicaName(v, slots[k].index) !in AttachedNames(list + Attachments(w.volume, slots[..k]))
  {
    var slots, v := NewSlots(w, list, desired), w.volume.name;
    var earlier := list + Attachments(w.volume, slots[..k]);
    FreshIndices(w, list, desired);
    assert forall i :: 0 <= i < |list| ==> list[i].name in AttachedNames(list);
    forall i | 0 <= i < |earlier| ensures earlier[i].name != ReplicaName(v, slots[k].index) {
      if i >= |list| {
        DifferentIndices(v, slots[i - |list|].index, slots[k].index);
      }
    }
  }

  /** And it holds every earlier one. */
  lemma EarlierIsTaken(w: World, list: seq<Attachment>, desired: nat, k: nat, j: nat)
    requires |list| <= desired && k < desired - |list| && j < NewSlots(w, list, desired)[k].index
    ensures ReplicaName(w.volume.name, j) in AttachedNames(list + Attachments(w.volume, NewSlots(w, list, desired)[..k]))
  {
    var slots, v := NewSlots(w, list, desired), w.volume.name;
    var earlier := list + Attachments(w.volume, slots[..k]);
    FreshIndices(w, list, desired);
    if j in UsedIndices(v, list, desired + 10) {
      var i :| 0 <= i < |list| && list[i].name == ReplicaName(v, j);
      assert earlier[i].name == ReplicaName(v, j);
    } else {
      assert j in Indices(slots);
      var i :| 0 <= i < |slots| && slots[i].index == j;
      assert i < k && slots[..k][i] == slots[i];
      assert earlier[|list| + i].name == ReplicaName(v, j);
    }
  }

  lemma AppendedName(w: World, list: seq<Attachment>, desired: nat, k: nat)
    requires |list| <= desired && k < desired - |list|
    ensures var slots := NewSlots(w, list, desired);
            LeastIndex(w.volume.name, list + Attachments(w.volume, slots[..k]), slots[k].index)
  {
    NextIsFree(w, list, desired, k);
    forall j: nat | j < NewSlots(w, list, desired)[k].index
      ensures ReplicaName(w.volume.name, j) in AttachedNames(list + Attachments(w.volume, NewSlots(w, list, desired)[..k]))
    {
      EarlierIsTaken(w, list, desired, k, j);
    }
  }

  lemma AppendedNode(w: World, list: seq<Attachment>, desired: nat, k: nat)
    requires |list| <= desired && k < desired - |list|
    ensures var slots := NewSlots(w, list, desired);
            slots[k].node == if w.volume.snapshotSource.Some? then w.volume.nodeID
                             else Unused(w.nodes, UsedNodes(list + Attachments(w.volume, slots[..k])))
  {
    var slots, used := NewSlots(w, list, desired), UsedIndices(w.volume.name, list, desired + 10);
    if w.volume.snapshotSource.Some? {
      FixedSlots(w.nodes, w.volume.nodeID, used, UsedNodes(list), 0, desired - |list|);
    } else {
      UsedNodesGrow(w.volume, list, slots[..k]);
      AllocationNode(w.nodes, used, UsedNodes(list), 0, desired - |list|, k);
    }
  }

  lemma AppendedAt(w: World, list: seq<Attachment>, desired: nat, k: nat)
    requires |list| <= k < desired
    ensures var grown, v := GrownList(w, list, desired), w.volume.name;
            && |grown| == desired && list <= grown
            && var a, earlier := grown[k], grown[..k];
               && a == Attachment(a.name, a.node, false, "", "", "")
               && (exists i: nat :: a.name == ReplicaName(v, i) && LeastIndex(v, earlier, i))
               && a.node == if w.volume.snapshotSource.Some? then w.volume.nodeID
                            else Unused(w.nodes, UsedNodes(earlier))
  {
    var slots, i := NewSlots(w, list, desired), k - |list|;
    AppendedName(w, list, desired, i);
    AppendedNode(w, list, desired, i);
    assert GrownList(w, list, desired)[..k] == list + Attachments(w.volume, slots[..i]);
    assert GrownList(w, list, desired)[k].name == ReplicaName(w.volume.name, slots[i].index);
  }

  /**
   A whole scale up keeps the list and appends blank attachments: each with the least index that is not
   taken, on the node picked next to those taken, or on the volume's if it has a snapshot source.
   */
  lemma ScaleUpAppends(w: World, now: int, k: nat)
    requires UpkeepDue(w) && Target(w.volume.replicaCount, w.nodes).Ok?
    requires |List(w)| <= k < Target(w.volume.replicaCount, w.nodes).value
    ensures var x, v := FullPass(w, now), w.volume.name;
            && x.engine.Some? && List(w) <= List(x) && |List(x)| == Target(w.volume.replicaCount, w.nodes).value
            && var a, earlier := List(x)[k], List(x)[..k];
               && a == Attachment(a.name, a.node, false, "", "", "")
               && (exists i: nat :: a.name == ReplicaName(v, i) && LeastIndex(v, earlier, i))
               && a.node == if w.volume.snapshotSource.Some? then w.volume.nodeID
                            else Unused(w.nodes, UsedNodes(earlier))
  {
    var plan := PassPlan(w, now);
    assert plan[..|plan|] == plan;
    ListIsAtomic(w, now, |plan|);
    AppendedAt(w, List(w), Target(w.volume.replicaCount, w.nodes).value, k);
  }

  /** The objects after a whole scale up: those of before, in their place, and one for each name appended. */
  lemma ScaleUpObjects(w: World, now: int, name: string)
    requires UpkeepDue(w) && Target(w.volume.replicaCount, w.nodes).Ok?
    requires |List(w)| < Target(w.volume.replicaCount, w.nodes).value
    ensures var x := FullPass(w, now);
            && x.engine.Some? && x.pods == w.pods && |List(w)| < |List(x)|
            && (name in x.replicas <==>
                  name in w.replicas || exists k :: |List(w)| <= k < |List(x)| && List(x)[k].name == name)
            && (name in w.replicas ==>
                  && x.replicas[name].spec.node == w.replicas[name].spec.node
                  && x.replicas[name].status == w.replicas[name].status)
  {
    var y, list := Typed(w), List(w);
    var desired := Target(w.volume.replicaCount, w.nodes).value;
    WholeUpkeep(w, now);
    ScaleUpEffect(y, list, desired);
    AppendedNames(y.volume, list, NewSlots(y, list, desired), name);
    assert name in y.replicas.Keys <==> name in w.replicas.Keys;
    if name in w.replicas {
      assert SameButType(w.replicas[name], y.replicas[name]);
    }
  }

  lemma AppendedNames(v: Volume, list: seq<Attachment>, slots: seq<Slot>, name: string)
    ensures var grown := list + Attachments(v, slots);
            name in Made(v, slots) <==> exists k :: |list| <= k < |grown| && grown[k].name == name
  {
    var grown := list + Attachments(v, slots);
    MadeNames(v, slots);
    assert forall k :: 0 <= k < |slots| ==> grown[|list| + k].name == ReplicaName(v.name, slots[k].index);
    if k :| |list| <= k < |grown| && grown[k].name == name {
      assert name == ReplicaName(v.name, slots[k - |list|].index);
    }
  }

  /**
   A whole scale down cuts the list to its first part and takes away exactly the objects whose indices are
   those of the positions cut off.
   */
  lemma ScaleDownCuts(w: World, now: int, name: string)
    requires UpkeepDue(w) && Target(w.volume.replicaCount, w.nodes).Ok?
    requires Target(w.volume.replicaCount, w.nodes).value < |List(w)|
    ensures var x, n := FullPass(w, now), Target(w.volume.replicaCount, w.nodes).value;
            && x.engine.Some? && x.pods == w.pods && List(x) == List(w)[..n]
            && (name in x.replicas <==>
                  name in w.replicas && forall k: nat :: n <= k < |List(w)| ==> name != ReplicaName(w.volume.name, k))
  {
    var y, list := Typed(w), List(w);
    WholeUpkeep(w, now);
    ScaleDownEffect(y, list, Target(w.volume.replicaCount, w.nodes).value);
    assert name in y.replicas.Keys <==> name in w.replicas.Keys;
  }

  // ---- The dashboard ----

  /** A whole dashboard delete takes the object away and every attachment of its name, in order, and no more. */
  lemma DashboardEffect(w: World, name: string)
    ensures var x := ApplyAll(w, DashboardPlan(w, name));
            if name !in w.replicas then x == w
            else
              && x == w.(replicas := w.replicas - {name}, engine := x.engine)
              && (x.engine.Some? <==> w.engine.Some?)
              && (w.engine.Some? ==>
                    && x.engine.value == w.engine.value.(replicas := List(x))
                    && if w.present && w.volume.status.engineRef
                       then forall a :: a in List(x) <==> a in List(w) && a.name != name
                       else List(x) == List(w))
  {
    var plan := DashboardPlan(w, name);
    if |plan| == 1 {
      ApplyOne(w, plan[0]);
      if w.engine.Some? && w.present && w.volume.status.engineRef {
        NothingFiltered(List(w), name);
      }
    } else if |plan| == 2 {
      assert plan == [plan[0], plan[1]];
      ApplyTwo(w, plan[0], plan[1]);
    }
  }

  /** A filter that drops nothing keeps the list. */
  lemma {:induction false} NothingFiltered(list: seq<Attachment>, name: string)
    requires |Filtered(list, name)| == |list|
    ensures Filtered(list, name) == list
  {
    if list != [] {
      NothingFiltered(list[..|list| - 1], name);
    }
  }

}
