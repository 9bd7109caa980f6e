/**
 Scaling up and down: while no replica was ever healed, the list is replica-0 .. replica-(n-1) in
 order and equals the set of replica objects, which is what scale down by index relies on.
 */
module RoundTrip {
  import opened Wrappers
  import opened Names
  import opened Types
  import opened Nodes
  import opened Plan
  import opened Scale
  import opened Passes
  import opened Runs

  ghost predicate CanonicalNames(volume: string, list: seq<Attachment>) {
    forall i :: 0 <= i < |list| ==> list[i].name == ReplicaName(volume, i)
  }

  /** The engine lists replica-0 .. replica-(n-1) in order and exactly these objects exist. */
  ghost predicate Canonical(w: World) {
    && w.engine.Some?
    && CanonicalNames(w.volume.name, List(w))
    && w.replicas.Keys == IndexNames(w.volume.name, 0, |List(w)|)
  }

  lemma {:induction false} AscendingFills(slots: seq<Slot>, low: nat, k: nat)
    requires Ascending(slots) && k < |slots|
    requires forall i :: 0 <= i < |slots| ==> low <= slots[i].index < low + |slots|
    ensures slots[k].index == low + k
  {
    AscendingFromBelow(slots, low, k);
    AscendingFromAbove(slots, low, k);
  }

  lemma {:induction false} AscendingFromBelow(slots: seq<Slot>, low: nat, k: nat)
    requires Ascending(slots) && k < |slots|
    requires forall i :: 0 <= i < |slots| ==> low <= slots[i].index
    ensures slots[k].index >= low + k
  {
    if k > 0 { AscendingFromBelow(slots, low, k - 1); }
  }

  lemma {:induction false} AscendingFromAbove(slots: seq<Slot>, low: nat, k: nat)
    requires Ascending(slots) && k < |slots|
    requires forall i :: 0 <= i < |slots| ==> slots[i].index < low + |slots|
    ensures slots[k].index <= low + k
    decreases |slots| - k
  {
    if k < |slots| - 1 { AscendingFromAbove(slots, low, k + 1); }
  }

  /** On a canonical list, scale up allocates exactly the next indices. */
  lemma CanonicalSlots(w: World, list: seq<Attachment>, desired: nat)
    requires |list| <= desired && CanonicalNames(w.volume.name, list)
    ensures var slots := NewSlots(w, list, desired);
            forall k :: 0 <= k < |slots| ==> slots[k].index == |list| + k
  {
    FreshIndices(w, list, desired);
    var slots := NewSlots(w, list, desired);
    assert forall i: nat :: i < |list| ==> ReplicaName(w.volume.name, i) in AttachedNames(list) by {
      assert forall i :: 0 <= i < |list| ==> list[i].name in AttachedNames(list);
    }
    assert forall k :: 0 <= k < |slots| ==> slots[k].index >= |list|;
    forall k | 0 <= k < |slots| ensures slots[k].index == |list| + k {
      AscendingFills(slots, |list|, k);
    }
  }

  lemma ScaleUpKeepsCanonical(w: World, desired: nat)
    requires Canonical(w) && |List(w)| <= desired
    ensures Canonical(ApplyAll(w, ScaleUpPlan(w, List(w), desired)))
    ensures w.volume.name == ApplyAll(w, ScaleUpPlan(w, List(w), desired)).volume.name
  {
    var list, v := List(w), w.volume.name;
    var slots := NewSlots(w, list, desired);
    ScaleUpEffect(w, list, desired);
    CanonicalSlots(w, list, desired);
    MadeInOrder(w.volume, slots, |list|);
    GrownInOrder(w.volume, list, slots);
    assert (Made(w.volume, slots) + w.replicas).Keys == IndexNames(v, |list|, desired) + IndexNames(v, 0, |list|);
    assert IndexNames(v, 0, desired) == IndexNames(v, |list|, desired) + IndexNames(v, 0, |list|);
  }

  lemma GrownInOrder(volume: Volume, list: seq<Attachment>, slots: seq<Slot>)
    requires CanonicalNames(volume.name, list)
    requires forall k :: 0 <= k < |slots| ==> slots[k].index == |list| + k
    ensures CanonicalNames(volume.name, list + Attachments(volume, slots))
  {
    var grown := list + Attachments(volume, slots);
    forall i | 0 <= i < |grown| ensures grown[i].name == ReplicaName(volume.name, i) {
      if i >= |list| { assert grown[i] == Attachments(volume, slots)[i - |list|]; }
    }
  }

  lemma IndexNamesSplit(volume: string, low: nat, mid: nat, high: nat)
    requires low <= mid <= high
    ensures IndexNames(volume, low, high) - IndexNames(volume, mid, high) == IndexNames(volume, low, mid)
  {
    forall x | x in IndexNames(volume, low, mid) ensures x !in IndexNames(volume, mid, high) {
      var j: nat :| low <= j < mid && x == ReplicaName(volume, j);
      if k: nat :| mid <= k < high && x == ReplicaName(volume, k) {
        ReplicaNameInjective(volume, j, volume, k);
      }
    }
  }

  lemma ScaleDownKeepsCanonical(w: World, desired: nat)
    requires Canonical(w) && desired <= |List(w)|
    ensures Canonical(ApplyAll(w, ScaleDownPlan(w, List(w), desired)))
  {
    ScaleDownEffect(w, List(w), desired);
    IndexNamesSplit(w.volume.name, 0, desired, |List(w)|);
  }

  /** Scaling up and back down restores the list, every object and everything else but the volume's phase. */
  lemma UpThenDown(w: World, desired: nat)
    requires Canonical(w) && |List(w)| <= desired
    ensures var up := ApplyAll(w, ScaleUpPlan(w, List(w), desired));
            && up.engine.Some? && |List(up)| == desired
            && ApplyAll(up, ScaleDownPlan(up, List(up), |List(w)|)) == w.(volume := MarkDegraded(w.volume))
  {
    var list, v := List(w), w.volume.name;
    var slots := NewSlots(w, list, desired);
    ScaleUpEffect(w, list, desired);
    ScaleUpKeepsCanonical(w, desired);
    var up := ApplyAll(w, ScaleUpPlan(w, list, desired));
    ScaleDownEffect(up, List(up), |list|);
    IndexNamesSplit(v, 0, |list|, desired);
    CanonicalSlots(w, list, desired);
    MadeInOrder(w.volume, slots, |list|);
    TakenBack(Made(w.volume, slots), w.replicas, IndexNames(v, |list|, desired));
    assert List(up)[..|list|] == list;
  }

  lemma TakenBack(added: map<string, Replica>, kept: map<string, Replica>, gone: set<string>)
    requires added.Keys == gone && kept.Keys * gone == {}
    ensures (added + kept) - gone == kept
  {
    forall n | n in kept ensures n !in gone {
      assert n in gone ==> n in kept.Keys * gone;
    }
  }

  // ---- Runs without healing ----

  /** Nothing created yet, or canonical with the engine on record. */
  ghost predicate Orderly(w: World) {
    (w.engine.None? && w.replicas == map[]) || (Canonical(w) && w.volume.status.engineRef)
  }

  /** The pass, a whole one, repairs nothing. */
  ghost predicate HealsNothing(w: World, now: int) {
    UpkeepDue(w) && Target(w.volume.replicaCount, w.nodes) == Ok(|List(w)|) && !ChildrenReady(w) ==>
      Repaired(w, List(w), |List(w)|, now).None?
  }

  /** A whole pass that heals nothing, or an environment that neither adds nor removes objects. */
  ghost predicate OrderlyStep(w: World, e: Event, x: World) {
    && Next(w, e, x)
    && match e
       case Pass(now, cut) => cut == |PassPlan(w, now)| && HealsNothing(w, now)
       case UserDelete(_, _) => false
       case Environment => x.replicas.Keys == w.replicas.Keys && (x.engine.Some? <==> w.engine.Some?)
  }

  lemma CreateIsOrderly(w: World)
    requires w.engine.None? && w.replicas == map[]
    ensures Orderly(ApplyAll(w, CreatePlan(w)))
  {
    if Target(w.volume.replicaCount, w.nodes).Ok? {
      var n := Target(w.volume.replicaCount, w.nodes).value;
      var slots := FirstSlots(w.volume, FirstWorkers(w.nodes, n));
      CreateEffect(w, n);
      CreatedIsOrderly(w, ApplyAll(w, CreatePlan(w)), slots);
    }
  }

  lemma CreatedIsOrderly(w: World, x: World, slots: seq<Slot>)
    requires w.engine.None? && w.replicas == map[] && forall k :: 0 <= k < |slots| ==> slots[k].index == k
    requires x.volume == Recorded(w.volume) && x.replicas == Made(w.volume, slots) + w.replicas
    requires x.engine == Some(Engine(w.volume.nodeID, Attachments(w.volume, slots), EnginePhase.Unset))
    ensures Orderly(x)
  {
    MadeInOrder(w.volume, slots, 0);
    MergedKeys(Made(w.volume, slots), w.replicas);
    FirstListInOrder(w.volume, slots);
  }

  lemma MergedKeys(a: map<string, Replica>, b: map<string, Replica>)
    requires b == map[]
    ensures (a + b).Keys == a.Keys
  {
  }

  lemma FirstListInOrder(volume: Volume, slots: seq<Slot>)
    requires forall k :: 0 <= k < |slots| ==> slots[k].index == k
    ensures CanonicalNames(volume.name, Attachments(volume, slots))
  {
  }

  lemma FirstPassIsOrderly(w: World)
    requires w.engine.None? && w.replicas == map[]
    ensures Orderly(ApplyAll(w, FirstPlan(w)))
  {
    if w.volume.nodeID != "" {
      CreateIsOrderly(w);
    } else if AnyWorker(w.nodes).Some? {
      var settle := SetVolumeNode(AnyWorker(w.nodes).value);
      ApplyOne(w, settle);
      CreateIsOrderly(Apply(w, settle));
      ApplyAllAppend(w, [settle], CreatePlan(Apply(w, settle)));
    }
  }

  lemma TypesKeepCanonical(w: World, x: World)
    requires Orderly(w) && w.engine.Some? && SameButTypes(w, x)
    ensures Orderly(x) && Canonical(x)
  {
  }

  lemma UpkeepIsOrderly(w: World, now: int)
    requires Orderly(w) && UpkeepDue(w) && HealsNothing(w, now)
    ensures Orderly(ApplyAll(w, ExistingPlan(w, now)))
  {
    var list, types := List(w), TypePlan(w, List(w), 0);
    assert types[..|types|] == types;
    TypesOnly(w, list, 0, |types|);
    var x := ApplyAll(w, types);
    TypesKeepCanonical(w, x);
    ApplyAllAppend(w, types, UpkeepPlan(x, list, ChildrenReady(w), now));
    if Target(w.volume.replicaCount, w.nodes).Ok? {
      HealingIgnoresTypes(w, x, list, |list|, now);
      RestIsOrderly(x, Target(w.volume.replicaCount, w.nodes).value, ChildrenReady(w), now);
    }
  }

  lemma RestIsOrderly(w: World, desired: nat, ready: bool, now: int)
    requires Canonical(w) && w.volume.status.engineRef && Target(w.volume.replicaCount, w.nodes) == Ok(desired)
    requires desired == |List(w)| && !ready ==> Repaired(w, List(w), desired, now).None?
    ensures Orderly(ApplyAll(w, UpkeepPlan(w, List(w), ready, now)))
  {
    var list, rest := List(w), UpkeepPlan(w, List(w), ready, now);
    if desired > |list| {
      ScaleUpKeepsCanonical(w, desired);
      ScaleUpEffect(w, list, desired);
    } else if desired < |list| {
      ScaleDownKeepsCanonical(w, desired);
      ScaleDownEffect(w, list, desired);
    } else if !ready {
      ApplyOne(w, rest[0]);
    }
  }

  lemma StepIsOrderly(w: World, e: Event, x: World)
    requires Orderly(w) && OrderlyStep(w, e, x)
    ensures Orderly(x)
  {
    if e.Pass? {
      var plan := PassPlan(w, e.now);
      assert plan[..|plan|] == plan;
      if w.present && !w.volume.status.engineRef {
        FirstPassIsOrderly(w);
      } else if UpkeepDue(w) {
        UpkeepIsOrderly(w, e.now);
      } else if plan != [] {
        ApplyOne(w, plan[0]);
      }
    }
  }

  /** Over every run of create, scale up and scale down, the list stays in order and equals the set of objects. */
  lemma {:induction false} OrderOverRuns(ws: seq<World>, es: seq<Event>)
    requires |ws| == |es| + 1 && forall i :: 0 <= i < |es| ==> OrderlyStep(ws[i], es[i], ws[i + 1])
    requires Orderly(ws[0])
    ensures forall i :: 0 <= i < |ws| ==> Orderly(ws[i])
  {
    var n := |es|;
    if n > 0 {
      assert forall i :: 0 <= i < n - 1 ==> OrderlyStep(ws[..n][i], es[..n - 1][i], ws[..n][i + 1]);
      OrderOverRuns(ws[..n], es[..n - 1]);
      assert Orderly(ws[..n][n - 1]);
      StepIsOrderly(ws[n - 1], es[n - 1], ws[n]);
      forall i | 0 <= i < |ws| ensures Orderly(ws[i]) {
        if i < n { assert ws[i] == ws[..n][i]; }
      }
    }
  }

  // ---- What scale down deletes ----

  /** The list names the replicas with these indices, one for one. */
  ghost predicate Indexed(volume: string, list: seq<Attachment>, index: seq<nat>) {
    && |index| == |list| && Distinct(index)
    && forall k :: 0 <= k < |list| ==> list[k].name == ReplicaName(volume, index[k])
  }

  /**
   Scale down deletes objects by index and attachments by position. The objects it deletes are
   exactly those it detaches if and only if the tail of the list holds just the indices it deletes.
   */
  lemma ScaleDownDeletesDetached(w: World, list: seq<Attachment>, index: seq<nat>, desired: nat)
    requires w.engine.Some? && desired <= |list| && Indexed(w.volume.name, list, index)
    requires w.replicas.Keys == AttachedNames(list)
    ensures ApplyAll(w, ScaleDownPlan(w, list, desired)).replicas.Keys == AttachedNames(list[..desired])
            <==> forall k :: 0 <= k < |list| ==> (k >= desired <==> desired <= index[k] < |list|)
  {
    var v, n := w.volume.name, |list|;
    ScaleDownEffect(w, list, desired);
    var kept := w.replicas.Keys - IndexNames(v, desired, n);
    forall k | 0 <= k < n
      ensures list[k].name in w.replicas.Keys
      ensures list[k].name in IndexNames(v, desired, n) <==> desired <= index[k] < n
      ensures list[k].name in AttachedNames(list[..desired]) <==> k < desired
    {
      if list[k].name in IndexNames(v, desired, n) {
        var j: nat :| desired <= j < n && list[k].name == ReplicaName(v, j);
        ReplicaNameInjective(v, j, v, index[k]);
      }
      if k < desired { assert list[..desired][k].name == list[k].name; }
      if list[k].name in AttachedNames(list[..desired]) {
        var i :| 0 <= i < desired && list[..desired][i].name == list[k].name;
        ReplicaNameInjective(v, index[i], v, index[k]);
      }
    }
    if forall k :: 0 <= k < n ==> (k >= desired <==> desired <= index[k] < n) {
      forall x ensures x in kept <==> x in AttachedNames(list[..desired]) {
        if x in AttachedNames(list[..desired]) {
          var i :| 0 <= i < desired && list[..desired][i].name == x;
          assert list[i].name in kept;
        }
        if x in kept {
          var i :| 0 <= i < n && list[i].name == x;
        }
      }
    }
  }

  /**
   A heal in the middle breaks the order: replica-1 of three is detached, scale up re-creates it at
   the end, and the next scale down to two deletes replica-2, which stays attached, and detaches
   replica-1, whose object stays behind.
   */
  lemma MiddleHealBreaksOrder(w: World)
    requires Canonical(w) && |List(w)| == 3
    ensures var v, healed := w.volume.name, Without(List(w), 1);
            var up := GrownList(w, healed, 3);
            && |up| == 3
            && up[0].name == ReplicaName(v, 0) && up[1].name == ReplicaName(v, 2) && up[2].name == ReplicaName(v, 1)
            && (forall x: World :: x.volume.name == v && x.engine.Some? && x.replicas.Keys == AttachedNames(up) ==>
                  var down := ApplyAll(x, ScaleDownPlan(x, up, 2));
                  && down.engine.Some? && down.engine.value.replicas == up[..2]
                  && up[1].name !in down.replicas
                  && up[2].name in down.replicas && up[2].name !in AttachedNames(up[..2]))
  {
    var v, healed := w.volume.name, Without(List(w), 1);
    var up := GrownList(w, healed, 3);
    FreshIndices(w, healed, 3);
    var slot := NewSlots(w, healed, 3)[0];
    assert healed[0].name in AttachedNames(healed) && healed[1].name in AttachedNames(healed);
    assert slot.index == 1;
    forall x: World | x.volume.name == v && x.engine.Some? && x.replicas.Keys == AttachedNames(up)
      ensures var down := ApplyAll(x, ScaleDownPlan(x, up, 2));
              && down.engine.Some? && down.engine.value.replicas == up[..2]
              && up[1].name !in down.replicas
              && up[2].name in down.replicas && up[2].name !in AttachedNames(up[..2])
    {
      ScaleDownEffect(x, up, 2);
      assert up[1].name in IndexNames(v, 2, 3);
      DifferentIndices(v, 1, 0);
      DifferentIndices(v, 1, 2);
      assert up[2].name in AttachedNames(up);
    }
  }

}
