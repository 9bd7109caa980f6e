/** Invariants of the attachment list over whole runs: its names and its length. */
module Invariants {
  import opened Wrappers
  import opened Names
  import opened Types
  import opened Nodes
  import opened Plan
  import opened Scale
  import opened Passes
  import opened VolumeController
  import opened Runs

  /** A prefix of a run without its last step. */
  lemma RunPrefix(ws: seq<World>, es: seq<Event>)
    requires IsRun(ws, es) && es != []
    ensures IsRun(ws[..|ws| - 1], es[..|es| - 1])
  {
    var xs, fs := ws[..|ws| - 1], es[..|es| - 1];
    forall i | 0 <= i < |fs| ensures Next(xs[i], fs[i], xs[i + 1]) {
      assert Next(ws[i], es[i], ws[i + 1]);
    }
  }

  // ---- Names ----

  /** The attached names are distinct replica names of the volume with indices below the bound. */
  ghost predicate WellNamed(volume: string, list: seq<Attachment>, bound: nat) {
    && DistinctAttached(list)
    && forall i :: 0 <= i < |list| ==> NamedBelow(volume, list[i].name, bound)
  }

  ghost predicate NamedBelow(volume: string, name: string, bound: nat) {
    exists k: nat :: k < bound && name == ReplicaName(volume, k)
  }

  ghost predicate NamesInv(w: World, volume: string, bound: nat) {
    w.volume.name == volume && (w.engine.Some? ==> WellNamed(volume, List(w), bound))
  }

  /** The target, if there is one, is within the bound. */
  ghost predicate TargetWithin(w: World, bound: nat) {
    var t := Target(w.volume.replicaCount, w.nodes);
    t.Ok? ==> t.value <= bound
  }

  lemma GrownIsWellNamed(w: World, list: seq<Attachment>, desired: nat, bound: nat)
    requires |list| <= desired <= bound && WellNamed(w.volume.name, list, bound)
    ensures WellNamed(w.volume.name, GrownList(w, list, desired), bound)
  {
    FreshIndices(w, list, desired);
    ScaleUpKeepsNames(w, list, desired);
    var grown, slots := GrownList(w, list, desired), NewSlots(w, list, desired);
    forall i | 0 <= i < |grown| ensures NamedBelow(w.volume.name, grown[i].name, bound) {
      if i >= |list| {
        assert grown[i].name == ReplicaName(w.volume.name, slots[i - |list|].index);
      } else {
        assert grown[i] == list[i];
      }
    }
  }

  /** Any part of a well-named list, read in order, is well named. */
  lemma PartIsWellNamed(volume: string, part: seq<Attachment>, list: seq<Attachment>, at: seq<nat>, bound: nat)
    requires WellNamed(volume, list, bound) && Within(part, list, at)
    ensures WellNamed(volume, part, bound)
  {
    forall i, j | 0 <= i < j < |part| ensures part[i].name != part[j].name {
      assert list[at[i]].name != list[at[j]].name;
    }
    forall i | 0 <= i < |part| ensures NamedBelow(volume, part[i].name, bound) {
      assert list[at[i]] == part[i];
    }
  }

  lemma FirstListIsWellNamed(w: World, bound: nat)
    requires Target(w.volume.replicaCount, w.nodes).Ok? && TargetWithin(w, bound)
    ensures WellNamed(w.volume.name, FirstList(w), bound)
  {
    var list, v := FirstList(w), w.volume.name;
    assert Settled(w).name == v;
    forall i | 0 <= i < |list| ensures list[i].name == ReplicaName(v, i) && NamedBelow(v, list[i].name, bound) {
    }
    forall i, j | 0 <= i < j < |list| ensures list[i].name != list[j].name {
      if list[i].name == list[j].name { ReplicaNameInjective(v, i, v, j); }
    }
  }

  lemma ListAfterIsWellNamed(w: World, now: int, bound: nat)
    requires w.engine.Some? && WellNamed(w.volume.name, List(w), bound) && TargetWithin(w, bound)
    ensures WellNamed(w.volume.name, ListAfter(w, now), bound)
  {
    var list := List(w);
    var t := Target(w.volume.replicaCount, w.nodes);
    if t.Ok? {
      if t.value > |list| {
        GrownIsWellNamed(w, list, t.value, bound);
      } else if t.value < |list| {
        PrefixIsWellNamed(w.volume.name, list, t.value, bound);
      } else if Repaired(w, list, t.value, now).Some? {
        WithoutIsWellNamed(w.volume.name, list, Repaired(w, list, t.value, now).value, bound);
      }
    }
  }

  lemma PrefixIsWellNamed(volume: string, list: seq<Attachment>, n: nat, bound: nat)
    requires n <= |list| && WellNamed(volume, list, bound)
    ensures WellNamed(volume, list[..n], bound)
  {
    PartIsWellNamed(volume, list[..n], list, seq(n, k requires 0 <= k < n => k), bound);
  }

  lemma WithoutIsWellNamed(volume: string, list: seq<Attachment>, i: nat, bound: nat)
    requires i < |list| && WellNamed(volume, list, bound)
    ensures WellNamed(volume, Without(list, i), bound)
  {
    var at := seq(|list| - 1, k requires 0 <= k < |list| - 1 => if k < i then k else k + 1);
    PartIsWellNamed(volume, Without(list, i), list, at, bound);
  }

  lemma StepKeepsNames(w: World, e: Event, x: World, volume: string, bound: nat)
    requires Next(w, e, x) && NamesInv(w, volume, bound) && TargetWithin(w, bound)
    ensures NamesInv(x, volume, bound)
  {
    match e
    case Pass(now, cut) =>
      WritesKeepVolume(w, PassPlan(w, now)[..cut]);
      if UpkeepDue(w) {
        ListIsAtomic(w, now, cut);
        ListAfterIsWellNamed(w, now, bound);
      } else {
        OtherPasses(w, now, cut);
        if w.engine.None? && x.engine.Some? {
          FirstListIsWellNamed(w, bound);
        }
      }
    case UserDelete(name, cut) =>
      DashboardList(w, name, cut);
      if w.engine.Some? {
        var at := FilteredWithin(List(w), name);
        PartIsWellNamed(volume, Filtered(List(w), name), List(w), at, bound);
      }
    case Environment =>
      if x.engine.Some? {
        forall i | 0 <= i < |List(x)| ensures NamedBelow(volume, List(x)[i].name, bound) {
          assert List(w)[i].name == List(x)[i].name;
        }
      }
  }

  /**
   In every reachable state the attached names are pairwise distinct replica names of the volume, and
   their indices are below the largest target of the run.
   */
  lemma {:induction false} NamesOverRuns(ws: seq<World>, es: seq<Event>, volume: string, bound: nat)
    requires IsRun(ws, es) && NamesInv(ws[0], volume, bound)
    requires forall i :: 0 <= i < |ws| ==> TargetWithin(ws[i], bound)
    ensures forall i :: 0 <= i < |ws| ==> NamesInv(ws[i], volume, bound)
  {
    var n := |es|;
    if n > 0 {
      RunPrefix(ws, es);
      NamesOverRuns(ws[..n], es[..n - 1], volume, bound);
      assert NamesInv(ws[..n][n - 1], volume, bound);
      StepKeepsNames(ws[n - 1], es[n - 1], ws[n], volume, bound);
      forall i | 0 <= i < |ws| ensures NamesInv(ws[i], volume, bound) {
        if i < n { assert ws[i] == ws[..n][i]; }
      }
    }
  }

  /** If the dashboard accepts the volume's name, every attached name fits as long as the target is at most 1000. */
  lemma AttachedNamesFit(ws: seq<World>, es: seq<Event>, volume: string)
    requires DerivedVolumeNamesFit(volume)
    requires IsRun(ws, es) && NamesInv(ws[0], volume, 1000)
    requires forall i :: 0 <= i < |ws| ==> TargetWithin(ws[i], 1000)
    ensures forall i, k :: 0 <= i < |ws| && ws[i].engine.Some? && 0 <= k < |List(ws[i])| ==> Fits(List(ws[i])[k].name)
  {
    NamesOverRuns(ws, es, volume, 1000);
    SamplesDecide(volume);
    forall i, k | 0 <= i < |ws| && ws[i].engine.Some? && 0 <= k < |List(ws[i])| ensures Fits(List(ws[i])[k].name) {
      assert NamesInv(ws[i], volume, 1000);
      assert NamedBelow(volume, List(ws[i])[k].name, 1000);
    }
  }

  /** Every object a pass creates, attached later or not, has a replica name below the bound. */
  lemma CreatedNamesBelow(w: World, now: int, bound: nat, k: nat)
    requires TargetWithin(w, bound) && k < |PassPlan(w, now)| && PassPlan(w, now)[k].CreateReplica?
    ensures NamedBelow(w.volume.name, PassPlan(w, now)[k].name, bound)
  {
    if w.volume.status.engineRef {
      UpkeepCreatesBelow(w, now, bound, k);
    } else if w.volume.nodeID != "" {
      FirstCreatesBelow(w, bound, k);
    } else {
      FirstCreatesBelow(Apply(w, SetVolumeNode(AnyWorker(w.nodes).value)), bound, k - 1);
    }
  }

  lemma FirstCreatesBelow(w: World, bound: nat, k: nat)
    requires TargetWithin(w, bound) && k < |CreatePlan(w)| && CreatePlan(w)[k].CreateReplica?
    ensures NamedBelow(w.volume.name, CreatePlan(w)[k].name, bound)
  {
    assert CreatePlan(w)[k].name == ReplicaName(w.volume.name, k);
  }

  lemma UpkeepCreatesBelow(w: World, now: int, bound: nat, k: nat)
    requires TargetWithin(w, bound) && w.volume.status.engineRef
    requires k < |PassPlan(w, now)| && PassPlan(w, now)[k].CreateReplica?
    ensures NamedBelow(w.volume.name, PassPlan(w, now)[k].name, bound)
  {
    var y, j := CreateComesAfterTypes(w, now, k);
    RestCreatesBelow(y, List(w), ChildrenReady(w), now, bound, j);
  }

  /** A create comes from the scaling that follows the type corrections. */
  lemma CreateComesAfterTypes(w: World, now: int, k: nat) returns (y: World, j: nat)
    requires w.volume.status.engineRef && k < |PassPlan(w, now)| && PassPlan(w, now)[k].CreateReplica?
    ensures y.volume == w.volume && y.nodes == w.nodes && Target(y.volume.replicaCount, y.nodes).Ok?
    ensures j < |UpkeepPlan(y, List(w), ChildrenReady(w), now)|
    ensures UpkeepPlan(y, List(w), ChildrenReady(w), now)[j] == PassPlan(w, now)[k]
  {
    var types := TypePlan(w, List(w), 0);
    TypePlanTypesOnly(w, List(w), 0);
    y, j := ApplyAll(w, types), k - |types|;
    assert types[..|types|] == types;
    TypesOnly(w, List(w), 0, |types|);
  }

  lemma RestCreatesBelow(w: World, list: seq<Attachment>, ready: bool, now: int, bound: nat, k: nat)
    requires TargetWithin(w, bound)
    requires k < |UpkeepPlan(w, list, ready, now)| && UpkeepPlan(w, list, ready, now)[k].CreateReplica?
    ensures NamedBelow(w.volume.name, UpkeepPlan(w, list, ready, now)[k].name, bound)
  {
    ScaleCreatesBelow(w, list, Target(w.volume.replicaCount, w.nodes).value, k);
  }

  lemma ScaleCreatesBelow(w: World, list: seq<Attachment>, desired: nat, k: nat)
    requires k < |ScalePlan(w, list, desired)| && ScalePlan(w, list, desired)[k].CreateReplica?
    ensures NamedBelow(w.volume.name, ScalePlan(w, list, desired)[k].name, desired)
  {
    FreshIndices(w, list, desired);
  }

  /** And so does every name ever generated, whether or not the pass gets to attach it. */
  lemma GeneratedNamesFit(ws: seq<World>, es: seq<Event>, volume: string, i: nat, k: nat)
    requires DerivedVolumeNamesFit(volume)
    requires IsRun(ws, es) && NamesInv(ws[0], volume, 1000)
    requires forall i :: 0 <= i < |ws| ==> TargetWithin(ws[i], 1000)
    requires i < |es| && es[i].Pass?
    requires k < |PassPlan(ws[i], es[i].now)| && PassPlan(ws[i], es[i].now)[k].CreateReplica?
    ensures Fits(PassPlan(ws[i], es[i].now)[k].name)
  {
    NamesOverRuns(ws, es, volume, 1000);
    assert NamesInv(ws[i], volume, 1000);
    SamplesDecide(volume);
    CreatedNamesBelow(ws[i], es[i].now, 1000, k);
  }

  // ---- Length ----

  /** The engine is there and its list is at most one short of the target. */
  ghost predicate NearTarget(w: World, target: nat) {
    w.engine.Some? && target - 1 <= |List(w)| <= target
  }

  /** The target is fixed, and nobody but the volume controller changes the list. */
  ghost predicate Undisturbed(w: World, e: Event, target: nat) {
    && Target(w.volume.replicaCount, w.nodes) == Ok(target)
    && !e.UserDelete?
  }

  lemma StepKeepsNear(w: World, e: Event, x: World, target: nat)
    requires Next(w, e, x) && NearTarget(w, target) && Undisturbed(w, e, target) && x.engine.Some?
    ensures NearTarget(x, target)
  {
    if e.Pass? {
      if UpkeepDue(w) {
        ListIsAtomic(w, e.now, e.cut);
      } else {
        OtherPasses(w, e.now, e.cut);
      }
    }
  }

  /**
   Healing does not compound: with a fixed target, no user delete and no loss of the engine, a run
   that starts at the target, or one short of it, stays there, wherever its passes are cut off.
   */
  lemma {:induction false} HealingDoesNotCompound(ws: seq<World>, es: seq<Event>, target: nat)
    requires IsRun(ws, es) && NearTarget(ws[0], target)
    requires forall i :: 0 <= i < |es| ==> Undisturbed(ws[i], es[i], target)
    requires forall i :: 0 <= i < |ws| ==> ws[i].engine.Some?
    ensures forall i :: 0 <= i < |ws| ==> NearTarget(ws[i], target)
  {
    var n := |es|;
    if n > 0 {
      RunPrefix(ws, es);
      HealingDoesNotCompound(ws[..n], es[..n - 1], target);
      assert NearTarget(ws[..n][n - 1], target);
      StepKeepsNear(ws[n - 1], es[n - 1], ws[n], target);
      forall i | 0 <= i < |ws| ensures NearTarget(ws[i], target) {
        if i < n { assert ws[i] == ws[..n][i]; }
      }
    }
  }

  /** And a whole upkeep pass that finds the list one short brings it back to the target. */
  lemma OneShortIsRefilled(w: World, now: int, target: nat)
    requires UpkeepDue(w) && Target(w.volume.replicaCount, w.nodes) == Ok(target) && |List(w)| != target
    ensures FullPass(w, now).engine.Some? && |List(FullPass(w, now))| == target
  {
    var plan := PassPlan(w, now);
    assert plan[..|plan|] == plan;
    ListIsAtomic(w, now, |plan|);
  }

}
