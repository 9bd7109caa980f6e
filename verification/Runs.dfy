/** Runs of one volume: passes, whole or cut off, interleaved with everything else that writes. */
module Runs {
  import opened Wrappers
  import opened Names
  import opened Types
  import opened Nodes
  import opened Plan
  import opened Scale
  import opened VolumeController

  /**
   A pass at a time, cut off after so many writes; a dashboard delete, likewise; or the environment:
   nodes, replicas and pods change in any way, the other controllers fill in attachments, the user
   changes the replica count, the engine is lost.
   */
  datatype Event = Pass(now: int, cut: nat) | UserDelete(name: string, cut: nat) | Environment

  /** The same names on the same nodes in the same order. */
  ghost predicate SamePlaces(a: seq<Attachment>, b: seq<Attachment>) {
    |a| == |b| && forall i :: 0 <= i < |a| ==> a[i].name == b[i].name && a[i].node == b[i].node
  }

  ghost predicate EnvironmentStep(w: World, x: World) {
    && x.volume == w.volume.(replicaCount := x.volume.replicaCount)
    && (x.engine.None? || (w.engine.Some? && SamePlaces(w.engine.value.replicas, x.engine.value.replicas)))
  }

  ghost predicate Next(w: World, e: Event, x: World) {
    match e
    case Pass(now, cut) => cut <= |PassPlan(w, now)| && x == CutPass(w, now, cut)
    case UserDelete(name, cut) => cut <= |DashboardPlan(w, name)| && x == ApplyAll(w, DashboardPlan(w, name)[..cut])
    case Environment => EnvironmentStep(w, x)
  }

  ghost predicate IsRun(ws: seq<World>, es: seq<Event>) {
    |ws| == |es| + 1 && forall i :: 0 <= i < |es| ==> Next(ws[i], es[i], ws[i + 1])
  }

  /** No pass writes the volume's name, its snapshot source or its replica count. */
  lemma {:induction false} WritesKeepVolume(w: World, plan: seq<Write>)
    ensures var x := ApplyAll(w, plan).volume;
            x == w.volume.(nodeID := x.nodeID, status := x.status)
  {
    if plan != [] {
      WritesKeepVolume(w, plan[..|plan| - 1]);
    }
  }

  /** A dashboard delete leaves the engine's list as it was, or without the deleted name. */
  lemma DashboardList(w: World, name: string, cut: nat)
    requires cut <= |DashboardPlan(w, name)|
    ensures var x := ApplyAll(w, DashboardPlan(w, name)[..cut]);
            && x.volume == w.volume && x.nodes == w.nodes
            && (x.engine == w.engine
                || (w.engine.Some? && x.engine == Some(w.engine.value.(replicas := Filtered(w.engine.value.replicas, name)))))
  {
    var plan := DashboardPlan(w, name);
    if cut == 1 {
      assert plan[..1] == [DeleteReplica(name)];
      ApplyOne(w, DeleteReplica(name));
    } else if cut == 2 {
      assert plan[..2] == [DeleteReplica(name), plan[1]];
      ApplyTwo(w, DeleteReplica(name), plan[1]);
    }
  }

  /** Filtering keeps the order: what is left can be read off the old list at ascending positions. */
  ghost predicate Within(part: seq<Attachment>, list: seq<Attachment>, at: seq<nat>) {
    && |at| == |part|
    && (forall k :: 0 <= k < |at| ==> at[k] < |list| && list[at[k]] == part[k])
    && (forall j, k :: 0 <= j < k < |at| ==> at[j] < at[k])
  }

  lemma {:induction false} FilteredWithin(list: seq<Attachment>, name: string) returns (at: seq<nat>)
    ensures Within(Filtered(list, name), list, at)
  {
    if list == [] {
      at := [];
    } else {
      var n := |list| - 1;
      var front := FilteredWithin(list[..n], name);
      at := if list[n].name != name then front + [n] else front;
      ExtendWithin(Filtered(list[..n], name), list, front);
    }
  }

  lemma ExtendWithin(part: seq<Attachment>, list: seq<Attachment>, at: seq<nat>)
    requires list != [] && Within(part, list[..|list| - 1], at)
    ensures Within(part, list, at) && Within(part + [list[|list| - 1]], list, at + [|list| - 1])
  {
  }

}
