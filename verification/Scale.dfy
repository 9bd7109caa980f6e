/** Scaling: what the create and delete loops leave behind, and why allocated names are always fresh. */
module Scale {
  import opened Wrappers
  import opened Names
  import opened Types
  import opened Nodes
  import opened Plan

  // ---- Effects of the loops ----

  /** The objects a run of creates makes; the first create of a name wins. */
  function Made(volume: Volume, slots: seq<Slot>): map<string, Replica> {
    if slots == [] then map[]
    else
      var last := slots[|slots| - 1];
      map[ReplicaName(volume.name, last.index) := NewReplica(volume, last.node)]
      + Made(volume, slots[..|slots| - 1])
  }

  lemma MergeFirstWins<T>(made: map<string, T>, base: map<string, T>, name: string, t: T)
    ensures map[name := t] + made + base == if name in made + base then made + base else (made + base)[name := t]
  {
  }

  /** Creates add what is missing and leave every existing object as it is. */
  lemma {:induction false} CreatesEffect(w: World, volume: Volume, slots: seq<Slot>)
    ensures ApplyAll(w, Creates(volume, slots)) == w.(replicas := Made(volume, slots) + w.replicas)
  {
    if slots == [] {
      assert Made(volume, slots) + w.replicas == w.replicas;
    } else {
      var n := |slots| - 1;
      var name := ReplicaName(volume.name, slots[n].index);
      assert Creates(volume, slots)[..n] == Creates(volume, slots[..n]);
      CreatesEffect(w, volume, slots[..n]);
      MergeFirstWins(Made(volume, slots[..n]), w.replicas, name, NewReplica(volume, slots[n].node));
    }
  }

  lemma {:induction false} MadeName(volume: Volume, slots: seq<Slot>, k: nat)
    requires k < |slots|
    ensures ReplicaName(volume.name, slots[k].index) in Made(volume, slots)
  {
    if k < |slots| - 1 {
      MadeName(volume, slots[..|slots| - 1], k);
    }
  }

  lemma {:induction false} MadeFrom(volume: Volume, slots: seq<Slot>, name: string) returns (k: nat)
    requires name in Made(volume, slots)
    ensures k < |slots| && name == ReplicaName(volume.name, slots[k].index)
  {
    var n := |slots| - 1;
    if name in Made(volume, slots[..n]) {
      k := MadeFrom(volume, slots[..n], name);
    } else {
      k := n;
    }
  }

  /** The names made are those of the slots. */
  lemma MadeNames(volume: Volume, slots: seq<Slot>)
    ensures forall x :: x in Made(volume, slots) <==>
              exists k :: 0 <= k < |slots| && x == ReplicaName(volume.name, slots[k].index)
  {
    forall k | 0 <= k < |slots| ensures ReplicaName(volume.name, slots[k].index) in Made(volume, slots) {
      MadeName(volume, slots, k);
    }
    forall x | x in Made(volume, slots)
      ensures exists k :: 0 <= k < |slots| && x == ReplicaName(volume.name, slots[k].index)
    {
      var k := MadeFrom(volume, slots, x);
    }
  }

  /** Names that slots with different indices make are made on their slot's node. */
  lemma {:induction false} MadeOn(volume: Volume, slots: seq<Slot>, k: nat)
    requires k < |slots|
    requires forall i, j :: 0 <= i < j < |slots| ==> slots[i].index != slots[j].index
    ensures var name := ReplicaName(volume.name, slots[k].index);
            name in Made(volume, slots) && Made(volume, slots)[name] == NewReplica(volume, slots[k].node)
  {
    var n := |slots| - 1;
    var name := ReplicaName(volume.name, slots[k].index);
    if k < n {
      MadeOn(volume, slots[..n], k);
    } else if name in Made(volume, slots[..n]) {
      MadeNames(volume, slots[..n]);
      var j :| 0 <= j < n && name == ReplicaName(volume.name, slots[..n][j].index);
      ReplicaNameInjective(volume.name, slots[j].index, volume.name, slots[k].index);
    }
  }

  function IndexNames(volume: string, from: nat, to: nat): set<string> {
    set k: nat | from <= k < to :: ReplicaName(volume, k)
  }

  lemma {:induction false} DeletesEffect(w: World, volume: string, from: nat, to: nat)
    requires from <= to
    ensures ApplyAll(w, Deletes(volume, from, to)) == w.(replicas := w.replicas - IndexNames(volume, from, to))
  {
    if from == to {
      assert w.replicas - IndexNames(volume, from, to) == w.replicas;
    } else {
      var n := to - 1 - from;
      assert Deletes(volume, from, to)[..n] == Deletes(volume, from, to - 1);
      DeletesEffect(w, volume, from, to - 1);
      assert IndexNames(volume, from, to) == IndexNames(volume, from, to - 1) + {ReplicaName(volume, to - 1)};
      assert w.replicas - IndexNames(volume, from, to)
          == w.replicas - IndexNames(volume, from, to - 1) - {ReplicaName(volume, to - 1)};
    }
  }

  /** The list after a scale up. */
  function GrownList(w: World, list: seq<Attachment>, desired: nat): seq<Attachment>
    requires |list| <= desired
  {
    list + Attachments(w.volume, NewSlots(w, list, desired))
  }

  function MarkDegraded(volume: Volume): Volume {
    volume.(status := volume.status.(phase := VolumePhase.Degraded))
  }

  /** The state after a whole scale up. */
  lemma ScaleUpEffect(w: World, list: seq<Attachment>, desired: nat)
    requires |list| <= desired && w.engine.Some?
    ensures var slots := NewSlots(w, list, desired);
            ApplyAll(w, ScaleUpPlan(w, list, desired))
            == w.(volume := MarkDegraded(w.volume), replicas := Made(w.volume, slots) + w.replicas,
                  engine := Some(w.engine.value.(replicas := list + Attachments(w.volume, slots))))
  {
    var slots := NewSlots(w, list, desired);
    var a, b := SetAttachments(list + Attachments(w.volume, slots)),
                SetVolumeStatus(w.volume.status.(phase := VolumePhase.Degraded));
    ApplyAllAppend(w, Creates(w.volume, slots), [a, b]);
    CreatesEffect(w, w.volume, slots);
    assert ScaleUpPlan(w, list, desired) == Creates(w.volume, slots) + [a, b];
    var mid := w.(replicas := Made(w.volume, slots) + w.replicas);
    ScaleEnds(mid, list + Attachments(w.volume, slots));
  }

  lemma ScaleEnds(w: World, list: seq<Attachment>)
    requires w.engine.Some?
    ensures ApplyAll(w, [SetAttachments(list), SetVolumeStatus(w.volume.status.(phase := VolumePhase.Degraded))])
            == w.(volume := MarkDegraded(w.volume), engine := Some(w.engine.value.(replicas := list)))
  {
    var a, b := SetAttachments(list), SetVolumeStatus(w.volume.status.(phase := VolumePhase.Degraded));
    assert ApplyAll(w, [a, b]) == Apply(Apply(w, a), b) by {
      ApplyTwo(w, a, b);
    }
    assert Apply(w, a) == w.(engine := Some(w.engine.value.(replicas := list)));
  }

  /** The state after a whole scale down. */
  lemma ScaleDownEffect(w: World, list: seq<Attachment>, desired: nat)
    requires desired <= |list| && w.engine.Some?
    ensures ApplyAll(w, ScaleDownPlan(w, list, desired))
            == w.(volume := MarkDegraded(w.volume), replicas := w.replicas - IndexNames(w.volume.name, desired, |list|),
                  engine := Some(w.engine.value.(replicas := list[..desired])))
  {
    var a, b := SetAttachments(list[..desired]), SetVolumeStatus(w.volume.status.(phase := VolumePhase.Degraded));
    ApplyAllAppend(w, Deletes(w.volume.name, desired, |list|), [a, b]);
    DeletesEffect(w, w.volume.name, desired, |list|);
    ScaleEnds(w.(replicas := w.replicas - IndexNames(w.volume.name, desired, |list|)), list[..desired]);
  }

  function Recorded(volume: Volume): Volume {
    volume.(status := volume.status.(engineRef := true, phase := VolumePhase.Creating))
  }

  /** The state after a whole first pass of a volume whose node is settled. */
  lemma CreateEffect(w: World, n: nat)
    requires Target(w.volume.replicaCount, w.nodes) == Ok(n)
    ensures var slots := FirstSlots(w.volume, FirstWorkers(w.nodes, n));
            var first := Engine(w.volume.nodeID, Attachments(w.volume, slots), EnginePhase.Unset);
            ApplyAll(w, CreatePlan(w))
            == w.(volume := Recorded(w.volume), replicas := Made(w.volume, slots) + w.replicas,
                  engine := if w.engine.Some? then w.engine else Some(first))
  {
    var slots := FirstSlots(w.volume, FirstWorkers(w.nodes, n));
    var first := Engine(w.volume.nodeID, Attachments(w.volume, slots), EnginePhase.Unset);
    var a, b := CreateEngine(first), SetVolumeStatus(Recorded(w.volume).status);
    assert CreatePlan(w) == Creates(w.volume, slots) + [a, b];
    ApplyAllAppend(w, Creates(w.volume, slots), [a, b]);
    CreatesEffect(w, w.volume, slots);
    var mid := w.(replicas := Made(w.volume, slots) + w.replicas);
    CreateEnds(mid, first);
  }

  lemma CreateEnds(w: World, first: Engine)
    ensures ApplyAll(w, [CreateEngine(first), SetVolumeStatus(Recorded(w.volume).status)])
            == w.(volume := Recorded(w.volume), engine := if w.engine.Some? then w.engine else Some(first))
  {
    var a, b := CreateEngine(first), SetVolumeStatus(Recorded(w.volume).status);
    ApplyTwo(w, a, b);
    var mid := Apply(w, a);
    assert mid == w.(engine := if w.engine.Some? then w.engine else Some(first));
    assert Apply(mid, b) == mid.(volume := Recorded(w.volume));
  }

  /** Slots with consecutive indices make exactly the objects with these indices. */
  lemma {:induction false} MadeInOrder(volume: Volume, slots: seq<Slot>, low: nat)
    requires forall k :: 0 <= k < |slots| ==> slots[k].index == low + k
    ensures Made(volume, slots).Keys == IndexNames(volume.name, low, low + |slots|)
  {
    if slots != [] {
      var n := |slots| - 1;
      MadeInOrder(volume, slots[..n], low);
      assert IndexNames(volume.name, low, low + n + 1)
          == IndexNames(volume.name, low, low + n) + {ReplicaName(volume.name, low + n)};
    }
  }

  // ---- Fresh indices ----

  lemma {:induction false} NatsBelow(m: nat, s: set<nat>)
    requires forall j: nat :: j < m ==> j in s
    ensures m <= |s|
  {
    if m > 0 {
      NatsBelow(m - 1, s - {m - 1});
    }
  }

  lemma {:induction false} FewUsedIndices(volume: string, list: seq<Attachment>, bound: nat)
    ensures |UsedIndices(volume, list, bound)| <= |list|
  {
    if list == [] {
      assert UsedIndices(volume, list, bound) == {};
    } else {
      var n := |list| - 1;
      var front, name := list[..n], list[n].name;
      FewUsedIndices(volume, front, bound);
      var used, before := UsedIndices(volume, list, bound), UsedIndices(volume, front, bound);
      assert forall i :: 0 <= i < n ==> list[i].name in AttachedNames(front) by {
        assert forall i :: 0 <= i < n ==> front[i] == list[i];
      }
      forall j | j in used && j !in before ensures ReplicaName(volume, j) == name {
        var i :| 0 <= i < |list| && list[i].name == ReplicaName(volume, j);
      }
      if j :| j in used && j !in before {
        forall k | k in used && k !in before ensures k == j {
          ReplicaNameInjective(volume, j, volume, k);
        }
        assert used <= before + {j};
        SubsetSize(used, before + {j});
      } else {
        SubsetSize(used, before);
      }
    }
  }

  lemma {:induction false} SubsetSize<T>(a: set<T>, b: set<T>)
    requires a <= b
    ensures |a| <= |b|
  {
    assert b == a + (b - a);
    assert |b| == |a| + |b - a|;
  }

  function Indices(slots: seq<Slot>): (s: set<nat>) {
    set k | 0 <= k < |slots| :: slots[k].index
  }

  ghost predicate Ascending(slots: seq<Slot>) {
    forall i, k :: 0 <= i < k < |slots| ==> slots[i].index < slots[k].index
  }

  /** Every index the slots skip is used. */
  ghost predicate NoGaps(slots: seq<Slot>, used: set<nat>, next: nat) {
    forall k, j: nat :: 0 <= k < |slots| && next <= j < slots[k].index ==> j in used || j in Indices(slots)
  }

  lemma AllocationUnfolds(nodes: seq<Node>, fixed: Option<string>, usedIndices: set<nat>,
                          usedNodes: set<string>, next: nat, count: nat)
    requires count > 0
    ensures var slots := Allocation(nodes, fixed, usedIndices, usedNodes, next, count);
            var index := LeastFree(usedIndices, next);
            var node := if fixed.Some? then fixed.value else Unused(nodes, usedNodes);
            && slots[0] == Slot(index, node)
            && slots[1..] == Allocation(nodes, fixed, usedIndices + {index}, usedNodes + {node}, index, count - 1)
  {
  }

  /** Allocated indices ascend, miss every used index, and stay below the number used plus allocated. */
  lemma {:induction false} AllocationIndices(nodes: seq<Node>, fixed: Option<string>, usedIndices: set<nat>,
                                             usedNodes: set<string>, next: nat, count: nat)
    requires forall j: nat :: j < next ==> j in usedIndices
    ensures var slots := Allocation(nodes, fixed, usedIndices, usedNodes, next, count);
            && (forall k :: 0 <= k < count ==> slots[k].index !in usedIndices)
            && (forall k :: 0 <= k < count ==> next <= slots[k].index < |usedIndices| + count)
            && Ascending(slots)
    decreases count
  {
    if count > 0 {
      AllocationUnfolds(nodes, fixed, usedIndices, usedNodes, next, count);
      var slots := Allocation(nodes, fixed, usedIndices, usedNodes, next, count);
      var index := LeastFree(usedIndices, next);
      var node := if fixed.Some? then fixed.value else Unused(nodes, usedNodes);
      NatsBelow(index, usedIndices);
      AllocationIndices(nodes, fixed, usedIndices + {index}, usedNodes + {node}, index, count - 1);
      var rest := slots[1..];
      assert forall k :: 1 <= k < count ==> slots[k] == rest[k - 1];
      forall k | 1 <= k < count ensures index < slots[k].index {
        assert rest[k - 1].index !in usedIndices + {index};
      }
    }
  }

  lemma {:induction false} AllocationGaps(nodes: seq<Node>, fixed: Option<string>, usedIndices: set<nat>,
                                          usedNodes: set<string>, next: nat, count: nat)
    ensures NoGaps(Allocation(nodes, fixed, usedIndices, usedNodes, next, count), usedIndices, next)
    decreases count
  {
    if count > 0 {
      AllocationUnfolds(nodes, fixed, usedIndices, usedNodes, next, count);
      var slots := Allocation(nodes, fixed, usedIndices, usedNodes, next, count);
      var index := LeastFree(usedIndices, next);
      var node := if fixed.Some? then fixed.value else Unused(nodes, usedNodes);
      AllocationGaps(nodes, fixed, usedIndices + {index}, usedNodes + {node}, index, count - 1);
      var rest := slots[1..];
      assert slots[0].index in Indices(slots);
      forall j | j in Indices(rest) ensures j in Indices(slots) {
        var i :| 0 <= i < |rest| && rest[i].index == j;
        assert slots[i + 1].index == j;
      }
      forall k, j: nat | 0 <= k < count && next <= j < slots[k].index ensures j in usedIndices || j in Indices(slots) {
        if k > 0 && index <= j {
          assert slots[k] == rest[k - 1];
          assert j in usedIndices + {index} || j in Indices(rest);
        }
      }
    }
  }

  ghost predicate DistinctAttached(list: seq<Attachment>) {
    forall i, j :: 0 <= i < j < |list| ==> list[i].name != list[j].name
  }

  /**
   Scale up never allocates an attached name, although it looks for attached names only below
   desired + 10: every index it allocates is below desired, and it skips only indices that are
   attached already.
   */
  lemma FreshIndices(w: World, list: seq<Attachment>, desired: nat)
    requires |list| <= desired
    ensures var slots := NewSlots(w, list, desired);
            && Ascending(slots)
            && (forall k :: 0 <= k < |slots| ==> slots[k].index < desired)
            && (forall k :: 0 <= k < |slots| ==> ReplicaName(w.volume.name, slots[k].index) !in AttachedNames(list))
            && NoGaps(slots, UsedIndices(w.volume.name, list, desired + 10), 0)
  {
    var bound := desired + 10;
    var used := UsedIndices(w.volume.name, list, bound);
    FewUsedIndices(w.volume.name, list, bound);
    AllocationIndices(w.nodes, FixedNode(w.volume), used, UsedNodes(list), 0, desired - |list|);
    AllocationGaps(w.nodes, FixedNode(w.volume), used, UsedNodes(list), 0, desired - |list|);
    var slots := NewSlots(w, list, desired);
    forall k | 0 <= k < |slots| ensures ReplicaName(w.volume.name, slots[k].index) !in AttachedNames(list) {
      assert slots[k].index !in used;
    }
  }

  /** After a scale up the old list is a prefix, the length is the target, and names are still distinct. */
  lemma ScaleUpKeepsNames(w: World, list: seq<Attachment>, desired: nat)
    requires |list| <= desired
    ensures var grown := GrownList(w, list, desired);
            |grown| == desired && list <= grown && (DistinctAttached(list) ==> DistinctAttached(grown))
  {
    FreshIndices(w, list, desired);
    var slots := NewSlots(w, list, desired);
    var added := Attachments(w.volume, slots);
    forall i, j | 0 <= i < j < |slots| ensures added[i].name != added[j].name {
      if added[i].name == added[j].name {
        ReplicaNameInjective(w.volume.name, slots[i].index, w.volume.name, slots[j].index);
      }
    }
    forall i, j | 0 <= i < |list| && 0 <= j < |slots| ensures list[i].name != added[j].name {
      assert list[i].name in AttachedNames(list);
    }
  }

}
