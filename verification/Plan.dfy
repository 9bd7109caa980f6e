/**
 The stored state of one volume, the writes a reconcile pass may issue, and the plan of a pass:
 the exact sequence of writes it issues when it starts from a given state. A pass that is cut
 off has issued a prefix of its plan.
 */
module Plan {
  import opened Wrappers
  import opened Names
  import opened Types
  import opened Nodes

  datatype World = World(
    present: bool,
    volume: Volume,
    nodes: seq<Node>,
    replicas: map<string, Replica>,
    pods: map<string, Pod>,
    engine: Option<Engine>)

  datatype Write =
    | SetVolumeNode(node: string)
    | SetVolumeStatus(status: VolumeStatus)
    | CreateReplica(name: string, replica: Replica)
    | SetReplicaType(name: string, rtype: ReplicaType)
    | DeleteReplica(name: string)
    | DeletePod(name: string)
    | CreateEngine(engine: Engine)
    | SetAttachments(replicas: seq<Attachment>)

  /** A create of an existing object and a delete of an absent one change nothing, and the pass goes on. */
  function Apply(w: World, write: Write): (r: World)
    ensures r.nodes == w.nodes && r.present == w.present
  {
    match write
    case SetVolumeNode(node) => w.(volume := w.volume.(nodeID := node))
    case SetVolumeStatus(status) => w.(volume := w.volume.(status := status))
    case CreateReplica(name, replica) =>
      if name in w.replicas then w else w.(replicas := w.replicas[name := replica])
    case SetReplicaType(name, rtype) =>
      if name !in w.replicas then w
      else
        var r := w.replicas[name];
        w.(replicas := w.replicas[name := r.(spec := r.spec.(rtype := rtype))])
    case DeleteReplica(name) => w.(replicas := w.replicas - {name})
    case DeletePod(name) => w.(pods := w.pods - {name})
    case CreateEngine(engine) => if w.engine.Some? then w else w.(engine := Some(engine))
    case SetAttachments(replicas) =>
      if w.engine.None? then w else w.(engine := Some(w.engine.value.(replicas := replicas)))
  }

  function ApplyAll(w: World, writes: seq<Write>): (r: World)
    ensures r.nodes == w.nodes && r.present == w.present
  {
    if writes == [] then w
    else Apply(ApplyAll(w, writes[..|writes| - 1]), writes[|writes| - 1])
  }

  lemma {:induction false} ApplyAllAppend(w: World, p: seq<Write>, q: seq<Write>)
    ensures ApplyAll(w, p + q) == ApplyAll(ApplyAll(w, p), q)
  {
    if q == [] {
      assert p + q == p;
    } else {
      assert (p + q)[..|p + q| - 1] == p + q[..|q| - 1];
      ApplyAllAppend(w, p, q[..|q| - 1]);
    }
  }

  lemma ApplyOne(w: World, write: Write)
    ensures ApplyAll(w, [write]) == Apply(w, write)
  {
    assert [write][..0] == [];
  }

  lemma ApplyTwo(w: World, a: Write, b: Write)
    ensures ApplyAll(w, [a, b]) == Apply(Apply(w, a), b)
  {
    var both := [a, b];
    assert both[..1] == [a];
    ApplyOne(w, a);
    assert ApplyAll(w, both) == Apply(ApplyAll(w, both[..1]), both[1]);
  }

  // ---- Replicas and attachments ----

  function ExpectedType(volume: Volume, node: string): ReplicaType {
    if node == volume.nodeID then Local else Remote
  }

  /** The replica object the volume controller creates for a node. */
  function NewReplica(volume: Volume, node: string): Replica {
    var source := if volume.snapshotSource.Some? then volume.snapshotSource.value else "";
    Replica(
      ReplicaSpec(volume.name, node, ExpectedType(volume, node), volume.size, DataPath(volume.name), source),
      ReplicaStatus(ReplicaPhase.Unset, "", ""),
      false)
  }

  function NewAttachment(name: string, node: string): Attachment {
    Attachment(name, node, false, "", "", "")
  }

  /** A replica to be: its index and the node it goes to. */
  datatype Slot = Slot(index: nat, node: string)

  function Creates(volume: Volume, slots: seq<Slot>): (p: seq<Write>)
    ensures |p| == |slots|
  {
    seq(|slots|, k requires 0 <= k < |slots| =>
      CreateReplica(ReplicaName(volume.name, slots[k].index), NewReplica(volume, slots[k].node)))
  }

  function Attachments(volume: Volume, slots: seq<Slot>): (a: seq<Attachment>)
    ensures |a| == |slots|
  {
    seq(|slots|, k requires 0 <= k < |slots| =>
      NewAttachment(ReplicaName(volume.name, slots[k].index), slots[k].node))
  }

  // ---- First pass: create the children ----

  /** The slots of a new volume: indices in order, each on a chosen node or on the snapshot's node. */
  function FirstSlots(volume: Volume, nodes: seq<string>): (s: seq<Slot>)
    ensures |s| == |nodes|
  {
    seq(|nodes|, i requires 0 <= i < |nodes| =>
      Slot(i, if volume.snapshotSource.Some? then volume.nodeID else nodes[i]))
  }

  function ChildrenPlan(volume: Volume, nodes: seq<string>): seq<Write> {
    var slots := FirstSlots(volume, nodes);
    Creates(volume, slots) + [CreateEngine(Engine(volume.nodeID, Attachments(volume, slots), EnginePhase.Unset))]
  }

  function CreatePlan(w: World): seq<Write> {
    match Target(w.volume.replicaCount, w.nodes)
    case Err => []
    case Ok(n) =>
      ChildrenPlan(w.volume, FirstWorkers(w.nodes, n)) +
      [SetVolumeStatus(w.volume.status.(engineRef := true, phase := VolumePhase.Creating))]
  }

  // ---- Scaling ----

  function AttachedNames(list: seq<Attachment>): (s: set<string>) {
    set i | 0 <= i < |list| :: list[i].name
  }

  function UsedNodes(list: seq<Attachment>): (s: set<string>) {
    set i | 0 <= i < |list| :: list[i].node
  }

  /** The indices below the bound whose replica names are attached. */
  function UsedIndices(volume: string, list: seq<Attachment>, bound: nat): set<nat> {
    set idx: nat | idx < bound && ReplicaName(volume, idx) in AttachedNames(list)
  }

  ghost function Above(used: set<nat>, from: nat): set<nat> {
    set j | j in used && j >= from
  }

  /** The least index at or after `from` that is not used. */
  function LeastFree(used: set<nat>, from: nat): (r: nat)
    ensures r >= from && r !in used
    ensures forall j: nat :: from <= j < r ==> j in used
    decreases Above(used, from)
  {
    if from in used then
      assert from in Above(used, from) && from !in Above(used, from + 1);
      LeastFree(used, from + 1)
    else from
  }

  /** The next `count` slots: the least unused index, on an unused node or on the fixed node. */
  function Allocation(nodes: seq<Node>, fixed: Option<string>, usedIndices: set<nat>, usedNodes: set<string>,
                      next: nat, count: nat): (slots: seq<Slot>)
    ensures |slots| == count
    decreases count
  {
    if count == 0 then []
    else
      var index := LeastFree(usedIndices, next);
      var node := if fixed.Some? then fixed.value else Unused(nodes, usedNodes);
      [Slot(index, node)] +
      Allocation(nodes, fixed, usedIndices + {index}, usedNodes + {node}, index, count - 1)
  }

  function FixedNode(volume: Volume): Option<string> {
    if volume.snapshotSource.Some? then Some(volume.nodeID) else None
  }

  function NewSlots(w: World, list: seq<Attachment>, desired: nat): (slots: seq<Slot>)
    requires |list| <= desired
    ensures |slots| == desired - |list|
  {
    Allocation(w.nodes, FixedNode(w.volume), UsedIndices(w.volume.name, list, desired + 10),
               UsedNodes(list), 0, desired - |list|)
  }

  function ScaleUpPlan(w: World, list: seq<Attachment>, desired: nat): seq<Write>
    requires |list| <= desired
  {
    var slots := NewSlots(w, list, desired);
    Creates(w.volume, slots) +
    [SetAttachments(list + Attachments(w.volume, slots)),
     SetVolumeStatus(w.volume.status.(phase := VolumePhase.Degraded))]
  }

  function Deletes(volume: string, from: nat, to: nat): (p: seq<Write>)
    requires from <= to
    ensures |p| == to - from
  {
    seq(to - from, k requires 0 <= k < to - from => DeleteReplica(ReplicaName(volume, from + k)))
  }

  function ScaleDownPlan(w: World, list: seq<Attachment>, desired: nat): seq<Write>
    requires desired <= |list|
  {
    Deletes(w.volume.name, desired, |list|) +
    [SetAttachments(list[..desired]),
     SetVolumeStatus(w.volume.status.(phase := VolumePhase.Degraded))]
  }

  function ScalePlan(w: World, list: seq<Attachment>, desired: nat): seq<Write> {
    if desired == |list| then []
    else if desired > |list| then ScaleUpPlan(w, list, desired)
    else ScaleDownPlan(w, list, desired)
  }

  // ---- Healing ----

  const MAX_ATTEMPTS := 5
  const BASE_BACKOFF := 30

  function Pow2(n: nat): (p: nat)
    ensures p >= 1
  {
    if n == 0 then 1 else 2 * Pow2(n - 1)
  }

  /** Seconds to wait after `attempts` restarts; 0 once they are exhausted. */
  function Backoff(attempts: nat): nat {
    if attempts >= MAX_ATTEMPTS then 0 else BASE_BACKOFF * Pow2(attempts)
  }

  /** A replica's pod, if it exists and has an address. */
  function PodOf(w: World, name: string): Option<Pod> {
    if PodName(name) in w.pods && w.pods[PodName(name)].ip != "" then Some(w.pods[PodName(name)]) else None
  }

  predicate Healthy(w: World, name: string) {
    && name in w.replicas
    && w.replicas[name].status.phase == ReplicaPhase.Running
    && PodOf(w, name).Some? && PodOf(w, name).value.phase == PodRunning
    && w.replicas[name].status.nqn != ""
  }

  function Observe(w: World, name: string): HealthPhase {
    if name !in w.replicas then Missing
    else if w.replicas[name].status.phase != ReplicaPhase.Running then Seen(w.replicas[name].status.phase)
    else if Healthy(w, name) then Seen(ReplicaPhase.Running)
    else Seen(ReplicaPhase.Pending)
  }

  datatype Record = Record(attempts: nat, lastHeal: Option<int>)

  /** The restart record kept under a name: the first entry with that name, or a blank one. */
  function FindRecord(health: seq<Health>, name: string): Record {
    if health == [] then Record(0, None)
    else if health[0].name == name then Record(health[0].attempts, health[0].lastHeal)
    else FindRecord(health[1..], name)
  }

  function HealthOf(w: World, a: Attachment): Health {
    var record := FindRecord(w.volume.status.health, a.name);
    Health(a.name, a.node, Observe(w, a.name), record.attempts, record.lastHeal)
  }

  function Rebuilt(w: World, list: seq<Attachment>): (h: seq<Health>)
    ensures |h| == |list|
    ensures forall i :: 0 <= i < |list| ==> h[i] == HealthOf(w, list[i])
  {
    seq(|list|, i requires 0 <= i < |list| => HealthOf(w, list[i]))
  }

  function HealthyCount(w: World, list: seq<Attachment>): (n: nat)
    ensures n <= |list|
  {
    if list == [] then 0
    else HealthyCount(w, list[..|list| - 1]) + if Healthy(w, list[|list| - 1].name) then 1 else 0
  }

  /** What a pass decides for one replica: nothing, wait so many seconds, or one of three repairs. */
  datatype Act = Skip | Wait(seconds: nat) | RemoveMissing | Recreate | Restart

  predicate Repairs(a: Act) {
    a.RemoveMissing? || a.Recreate? || a.Restart?
  }

  function Cooldown(h: Health, now: int): Act {
    if h.lastHeal.None? then Skip
    else
      var remaining := Backoff(h.attempts) - (now - h.lastHeal.value);
      if remaining > 0 then Wait(remaining) else Skip
  }

  function Decide(w: World, h: Health, now: int): Act {
    match h.phase
    case Missing => RemoveMissing
    case Seen(phase) =>
      if phase == ReplicaPhase.Failed || phase == ReplicaPhase.Pending then
        if PodOf(w, h.name).None? then
          if h.name in w.replicas && w.replicas[h.name].status.phase == ReplicaPhase.Running
             && !w.replicas[h.name].deleting
          then Recreate else Skip
        else if h.attempts >= MAX_ATTEMPTS then Recreate
        else if Cooldown(h, now).Wait? then Cooldown(h, now)
        else Restart
      else Cooldown(h, now)
  }

  /** The first replica the pass repairs. */
  function FirstRepair(w: World, health: seq<Health>, now: int, from: nat): (r: Option<nat>)
    requires from <= |health|
    ensures r.Some? ==> from <= r.value < |health| && Repairs(Decide(w, health[r.value], now))
    ensures r.Some? ==> forall j :: from <= j < r.value ==> !Repairs(Decide(w, health[j], now))
    ensures r.None? ==> forall j :: from <= j < |health| ==> !Repairs(Decide(w, health[j], now))
    decreases |health| - from
  {
    if from == |health| then None
    else if Repairs(Decide(w, health[from], now)) then Some(from)
    else FirstRepair(w, health, now, from + 1)
  }

  /** The shortest wait among the decisions for the first `n` replicas. */
  function ShortestWait(w: World, health: seq<Health>, now: int, n: nat): (r: Option<nat>)
    requires n <= |health|
    ensures r.Some? ==> exists j :: 0 <= j < n && Decide(w, health[j], now) == Wait(r.value)
    ensures r.Some? ==> forall j :: 0 <= j < n && Decide(w, health[j], now).Wait? ==>
                                      r.value <= Decide(w, health[j], now).seconds
    ensures r.None? ==> forall j :: 0 <= j < n ==> !Decide(w, health[j], now).Wait?
  {
    if n == 0 then None
    else
      var before := ShortestWait(w, health, now, n - 1);
      match Decide(w, health[n - 1], now)
      case Wait(s) => if before.None? || s < before.value then Some(s) else before
      case _ => before
  }

  function Without<T>(s: seq<T>, i: nat): (r: seq<T>)
    requires i < |s|
    ensures |r| == |s| - 1
  {
    s[..i] + s[i + 1..]
  }

  /** At least all but one of the desired replicas are healthy. */
  predicate GuardHolds(w: World, list: seq<Attachment>, desired: nat) {
    HealthyCount(w, list) >= desired - 1
  }

  function RepairPlan(w: World, list: seq<Attachment>, health: seq<Health>, i: nat, now: int): seq<Write>
    requires |health| == |list| && i < |list|
  {
    var status := w.volume.status.(health := health);
    match Decide(w, health[i], now)
    case RemoveMissing => [SetAttachments(Without(list, i)), SetVolumeStatus(status)]
    case Recreate =>
      [DeleteReplica(list[i].name), SetAttachments(Without(list, i)), SetVolumeStatus(status)]
    case Restart =>
      var h := health[i].(attempts := health[i].attempts + 1, lastHeal := Some(now), phase := Seen(ReplicaPhase.Pending));
      [DeletePod(PodName(list[i].name)), SetVolumeStatus(status.(health := health[i := h]))]
    case _ => []
  }

  function HealPlan(w: World, list: seq<Attachment>, desired: nat, now: int): seq<Write> {
    var health := Rebuilt(w, list);
    var status := w.volume.status.(health := health);
    if !GuardHolds(w, list, desired) then [SetVolumeStatus(status.(phase := VolumePhase.Degraded))]
    else match FirstRepair(w, health, now, 0)
      case None => [SetVolumeStatus(status)]
      case Some(i) => RepairPlan(w, list, health, i, now)
  }

  /** The replica a healing pass repairs, if any. */
  function Repaired(w: World, list: seq<Attachment>, desired: nat, now: int): (r: Option<nat>)
    ensures r.Some? ==> r.value < |list|
  {
    if GuardHolds(w, list, desired) then FirstRepair(w, Rebuilt(w, list), now, 0) else None
  }

  /** What a completed healing pass asks for: to be called again after so many seconds; 0 for no wish. */
  function HealRequeue(w: World, list: seq<Attachment>, desired: nat, now: int): nat {
    if GuardHolds(w, list, desired) && Repaired(w, list, desired, now).None? then
      match ShortestWait(w, Rebuilt(w, list), now, |list|)
      case Some(s) => s
      case None => 0
    else 0
  }

  // ---- The pass ----

  predicate ChildrenReady(w: World) {
    && w.engine.Some?
    && w.engine.value.phase == EnginePhase.Running
    && forall i :: 0 <= i < |w.engine.value.replicas| ==>
         var name := w.engine.value.replicas[i].name;
         name in w.replicas && w.replicas[name].status.phase == ReplicaPhase.Running
  }

  /** Correct the type of each attached replica, from position i on. */
  function TypePlan(w: World, list: seq<Attachment>, i: nat): seq<Write>
    requires i <= |list|
    decreases |list| - i
  {
    if i == |list| then []
    else
      var name, rtype := list[i].name, ExpectedType(w.volume, list[i].node);
      if name in w.replicas && w.replicas[name].spec.rtype != rtype then
        var write := SetReplicaType(name, rtype);
        [write] + TypePlan(Apply(w, write), list, i + 1)
      else TypePlan(w, list, i + 1)
  }

  /** The rest of a pass on an existing engine, once the types are right. */
  function UpkeepPlan(w: World, list: seq<Attachment>, ready: bool, now: int): seq<Write> {
    match Target(w.volume.replicaCount, w.nodes)
    case Err => []
    case Ok(desired) =>
      if desired != |list| then ScalePlan(w, list, desired)
      else if !ready then HealPlan(w, list, desired, now)
      else []
  }

  function ExistingPlan(w: World, now: int): seq<Write> {
    if ChildrenReady(w) && w.volume.status.phase != VolumePhase.Ready then
      [SetVolumeStatus(w.volume.status.(phase := VolumePhase.Ready))]
    else if w.engine.None? then
      [SetVolumeStatus(w.volume.status.(engineRef := false, phase := VolumePhase.Creating))]
    else
      var list := w.engine.value.replicas;
      var types := TypePlan(w, list, 0);
      types + UpkeepPlan(ApplyAll(w, types), list, ChildrenReady(w), now)
  }

  function FirstPlan(w: World): seq<Write> {
    if w.volume.nodeID != "" then CreatePlan(w)
    else match AnyWorker(w.nodes)
      case None => []
      case Some(node) => [SetVolumeNode(node)] + CreatePlan(Apply(w, SetVolumeNode(node)))
  }

  /** Every write a reconcile pass issues, in order. */
  function PassPlan(w: World, now: int): seq<Write> {
    if !w.present then []
    else if !w.volume.status.engineRef then FirstPlan(w)
    else ExistingPlan(w, now)
  }

  /** The state after a pass that is cut off once it has issued `cut` writes. */
  function CutPass(w: World, now: int, cut: nat): World
    requires cut <= |PassPlan(w, now)|
  {
    ApplyAll(w, PassPlan(w, now)[..cut])
  }

  /** The state after a whole pass. */
  function FullPass(w: World, now: int): World {
    ApplyAll(w, PassPlan(w, now))
  }

}
