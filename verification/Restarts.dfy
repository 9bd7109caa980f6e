/** The restart budget of a replica name, over whole runs. */
module Restarts {
  import opened Wrappers
  import opened Names
  import opened Types
  import opened Nodes
  import opened Plan
  import opened Scale
  import opened Passes
  import opened VolumeController
  import opened Runs
  import opened Healing

  // ---- Only the last write of a pass is a status write ----

  ghost predicate StatusLast(plan: seq<Write>) {
    forall i :: 0 <= i < |plan| - 1 ==> !plan[i].SetVolumeStatus?
  }

  lemma {:induction false} StatusUntouched(w: World, plan: seq<Write>)
    requires forall i :: 0 <= i < |plan| ==> !plan[i].SetVolumeStatus?
    ensures ApplyAll(w, plan).volume.status == w.volume.status
  {
    if plan != [] {
      StatusUntouched(w, plan[..|plan| - 1]);
    }
  }

  /** The status a plan leaves if it is carried out in full. */
  function FinalStatus(w: World, plan: seq<Write>): VolumeStatus {
    if plan != [] && plan[|plan| - 1].SetVolumeStatus? then plan[|plan| - 1].status else w.volume.status
  }

  lemma StatusWrittenLast(w: World, plan: seq<Write>, cut: nat)
    requires StatusLast(plan) && cut <= |plan|
    ensures ApplyAll(w, plan[..cut]).volume.status
            == if cut == |plan| then FinalStatus(w, plan) else w.volume.status
  {
    if cut < |plan| || plan == [] {
      StatusUntouched(w, plan[..cut]);
    } else {
      assert plan[..cut][..cut - 1] == plan[..cut - 1];
      StatusUntouched(w, plan[..cut - 1]);
    }
  }

  lemma UpkeepStatusLast(w: World, now: int)
    requires UpkeepDue(w)
    ensures StatusLast(PassPlan(w, now))
  {
    var types := TypePlan(w, List(w), 0);
    TypePlanTypesOnly(w, List(w), 0);
    RestStores(ApplyAll(w, types), List(w), ChildrenReady(w), now);
    StatusLastLater(types, UpkeepPlan(ApplyAll(w, types), List(w), ChildrenReady(w), now));
  }

  lemma StatusLastLater(types: seq<Write>, rest: seq<Write>)
    requires StatusLast(rest) && forall i :: 0 <= i < |types| ==> !types[i].SetVolumeStatus?
    ensures StatusLast(types + rest)
  {
  }

  lemma PassStatusLast(w: World, now: int)
    ensures StatusLast(PassPlan(w, now))
  {
    if UpkeepDue(w) {
      UpkeepStatusLast(w, now);
    } else if w.present && !w.volume.status.engineRef {
      if w.volume.nodeID == "" && AnyWorker(w.nodes).Some? {
        var settle := SetVolumeNode(AnyWorker(w.nodes).value);
        CreateStatusLast(Apply(w, settle));
        StatusLastLater([settle], CreatePlan(Apply(w, settle)));
      } else if w.volume.nodeID != "" {
        CreateStatusLast(w);
      }
    }
  }

  lemma CreateStatusLast(w: World)
    ensures StatusLast(CreatePlan(w))
    ensures FinalStatus(w, CreatePlan(w)).health == w.volume.status.health
  {
  }

  /** A pass that is no upkeep stores the health list it found. */
  lemma OtherPassesKeepHealth(w: World, now: int)
    requires !UpkeepDue(w)
    ensures FinalStatus(w, PassPlan(w, now)).health == w.volume.status.health
  {
    if w.present && !w.volume.status.engineRef {
      if w.volume.nodeID == "" && AnyWorker(w.nodes).Some? {
        var settle := SetVolumeNode(AnyWorker(w.nodes).value);
        CreateStatusLast(Apply(w, settle));
        FinalStatusLater(w, Apply(w, settle), [settle], CreatePlan(Apply(w, settle)));
      } else if w.volume.nodeID != "" {
        CreateStatusLast(w);
      }
    }
  }

  lemma FinalStatusLater(w: World, y: World, p: seq<Write>, rest: seq<Write>)
    requires y.volume.status == w.volume.status && forall i :: 0 <= i < |p| ==> !p[i].SetVolumeStatus?
    ensures FinalStatus(w, p + rest) == FinalStatus(y, rest)
  {
    if rest == [] {
      assert p + rest == p;
    }
  }

  // ---- Records ----

  function RecordOf(w: World, name: string): Record {
    FindRecord(w.volume.status.health, name)
  }

  /** The pass issues the delete of this replica's pod, as a restart. */
  predicate Restarts(w: World, now: int, cut: nat, name: string) {
    && UpkeepDue(w) && !ChildrenReady(w)
    && Target(w.volume.replicaCount, w.nodes) == Ok(|List(w)|)
    && Repaired(w, List(w), |List(w)|, now).Some?
    && (var a := List(w)[Repaired(w, List(w), |List(w)|, now).value];
        a.name == name && Decide(w, HealthOf(w, a), now).Restart?)
    && cut + 1 >= |PassPlan(w, now)|
  }

  /** Restarting is what deletes a pod: a pass that restarts nothing deletes no pod. */
  lemma OnlyRestartsDeletePods(w: World, now: int, cut: nat, name: string)
    requires cut <= |PassPlan(w, now)|
    requires PodName(name) in w.pods && PodName(name) !in CutPass(w, now, cut).pods
    ensures Restarts(w, now, cut, name)
  {
    var plan := PassPlan(w, now);
    PodsWritten(w, plan[..cut], PodName(name));
    var k :| 0 <= k < cut && plan[..cut][k] == DeletePod(PodName(name));
    assert plan[k] == DeletePod(PodName(name));
    if UpkeepDue(w) {
      UpkeepDeletesPod(w, now, k, name);
    } else {
      OtherPassesDeleteNoPod(w, now, k);
    }
  }

  lemma UpkeepDeletesPod(w: World, now: int, k: nat, name: string)
    requires UpkeepDue(w) && k < |PassPlan(w, now)| && PassPlan(w, now)[k] == DeletePod(PodName(name))
    ensures Restarts(w, now, k + 1, name)
    ensures k == |PassPlan(w, now)| - 2
  {
    var list, types := List(w), TypePlan(w, List(w), 0);
    var y := ApplyAll(w, types);
    TypePlanTypesOnly(w, list, 0);
    PassInParts(w, now, 0);
    var rest := UpkeepPlan(y, list, ChildrenReady(w), now);
    assert PassPlan(w, now) == types + rest && k >= |types|;
    PodDeleteIsRestart(y, list, ChildrenReady(w), now, k - |types|, name);
    RestartIgnoresTypes(w, y, list, now);
  }

  /** Who is restarted does not depend on types. */
  lemma RestartIgnoresTypes(w: World, y: World, list: seq<Attachment>, now: int)
    requires SameButTypes(w, y)
    ensures Repaired(w, list, |list|, now) == Repaired(y, list, |list|, now)
    ensures forall i :: 0 <= i < |list| ==>
              Decide(w, HealthOf(w, list[i]), now) == Decide(y, HealthOf(y, list[i]), now)
  {
    HealingIgnoresTypes(w, y, list, |list|, now);
    forall i | 0 <= i < |list| ensures HealthOf(w, list[i]) == HealthOf(y, list[i]) {
      assert Rebuilt(w, list)[i] == Rebuilt(y, list)[i];
    }
  }

  lemma CreatingDeletesNoPod(w: World)
    ensures forall k :: 0 <= k < |CreatePlan(w)| ==> !CreatePlan(w)[k].DeletePod?
  {
  }

  lemma OtherPassesDeleteNoPod(w: World, now: int, k: nat)
    requires !UpkeepDue(w) && k < |PassPlan(w, now)|
    ensures !PassPlan(w, now)[k].DeletePod?
  {
    CreatingDeletesNoPod(w);
    if w.present && !w.volume.status.engineRef && w.volume.nodeID == "" {
      CreatingDeletesNoPod(Apply(w, SetVolumeNode(AnyWorker(w.nodes).value)));
    }
  }

  lemma PodDeleteIsRestart(w: World, list: seq<Attachment>, ready: bool, now: int, k: nat, name: string)
    requires k < |UpkeepPlan(w, list, ready, now)| && UpkeepPlan(w, list, ready, now)[k] == DeletePod(PodName(name))
    ensures Target(w.volume.replicaCount, w.nodes) == Ok(|list|) && !ready
    ensures var r := Repaired(w, list, |list|, now);
            && r.Some? && list[r.value].name == name && Decide(w, HealthOf(w, list[r.value]), now).Restart?
    ensures k == |UpkeepPlan(w, list, ready, now)| - 2
  {
    if Target(w.volume.replicaCount, w.nodes) == Ok(|list|) {
      var i := Repaired(w, list, |list|, now).value;
      assert UpkeepPlan(w, list, ready, now) == RepairPlan(w, list, Rebuilt(w, list), i, now);
      PodNameInjective(name, list[i].name);
    } else {
      ScalingDeletesNoPod(w, list, Target(w.volume.replicaCount, w.nodes).value);
    }
  }

  lemma ScalingDeletesNoPod(w: World, list: seq<Attachment>, desired: nat)
    ensures forall k :: 0 <= k < |ScalePlan(w, list, desired)| ==> !ScalePlan(w, list, desired)[k].DeletePod?
  {
  }

  lemma {:induction false} PodsWritten(w: World, plan: seq<Write>, pod: string)
    requires pod in w.pods && pod !in ApplyAll(w, plan).pods
    ensures exists k :: 0 <= k < |plan| && plan[k] == DeletePod(pod)
  {
    if plan != [] {
      var front := plan[..|plan| - 1];
      if pod !in ApplyAll(w, front).pods {
        PodsWritten(w, front, pod);
        var k :| 0 <= k < |front| && front[k] == DeletePod(pod);
        assert plan[k] == DeletePod(pod);
      } else {
        assert plan[|plan| - 1] == DeletePod(pod);
      }
    }
  }

  /** The health list a whole healing pass stores. */
  function StoredHealth(w: World, list: seq<Attachment>, desired: nat, now: int): seq<Health> {
    var health := Rebuilt(w, list);
    match Repaired(w, list, desired, now)
    case None => health
    case Some(i) =>
      if Decide(w, health[i], now).Restart? then
        health[i := health[i].(attempts := health[i].attempts + 1, lastHeal := Some(now),
              phase := Seen(ReplicaPhase.Pending))]
      else health
  }

  lemma HealStores(w: World, list: seq<Attachment>, desired: nat, now: int)
    ensures StatusLast(HealPlan(w, list, desired, now))
    ensures FinalStatus(w, HealPlan(w, list, desired, now)).health == StoredHealth(w, list, desired, now)
  {
  }

  lemma ScaleStores(w: World, list: seq<Attachment>, desired: nat)
    ensures StatusLast(ScalePlan(w, list, desired))
    ensures FinalStatus(w, ScalePlan(w, list, desired)).health == w.volume.status.health
  {
  }

  lemma RestStores(w: World, list: seq<Attachment>, ready: bool, now: int)
    ensures FinalStatus(w, UpkeepPlan(w, list, ready, now)).health
            == if Target(w.volume.replicaCount, w.nodes) == Ok(|list|) && !ready then StoredHealth(w, list, |list|, now)
               else w.volume.status.health
    ensures StatusLast(UpkeepPlan(w, list, ready, now))
  {
    if Target(w.volume.replicaCount, w.nodes).Ok? {
      ScaleStores(w, list, Target(w.volume.replicaCount, w.nodes).value);
      HealStores(w, list, |list|, now);
    }
  }

  /** Healing runs to its end in this pass. */
  predicate HealsToTheEnd(w: World, now: int, cut: nat) {
    && UpkeepDue(w) && !ChildrenReady(w)
    && Target(w.volume.replicaCount, w.nodes) == Ok(|List(w)|)
    && cut == |PassPlan(w, now)|
  }

  /** What a pass stores: the old health list, or, when healing ran to its end, the new one. */
  lemma HealthWritten(w: World, now: int, cut: nat)
    requires cut <= |PassPlan(w, now)|
    ensures CutPass(w, now, cut).volume.status.health
            == if HealsToTheEnd(w, now, cut) then StoredHealth(w, List(w), |List(w)|, now) else w.volume.status.health
  {
    PassStatusLast(w, now);
    StatusWrittenLast(w, PassPlan(w, now), cut);
    if UpkeepDue(w) {
      UpkeepStores(w, now);
    } else {
      OtherPassesKeepHealth(w, now);
    }
  }

  lemma StoredIgnoresTypes(w: World, y: World, list: seq<Attachment>, now: int)
    requires SameButTypes(w, y)
    ensures StoredHealth(y, list, |list|, now) == StoredHealth(w, list, |list|, now)
  {
    HealingIgnoresTypes(w, y, list, |list|, now);
  }

  lemma UpkeepStores(w: World, now: int)
    requires UpkeepDue(w)
    ensures FinalStatus(w, PassPlan(w, now)).health
            == if HealsToTheEnd(w, now, |PassPlan(w, now)|) then StoredHealth(w, List(w), |List(w)|, now)
               else w.volume.status.health
  {
    var list, types := List(w), TypePlan(w, List(w), 0);
    var y := ApplyAll(w, types);
    TypePlanTypesOnly(w, list, 0);
    PassInParts(w, now, 0);
    StoredIgnoresTypes(w, y, list, now);
    RestStores(y, list, ChildrenReady(w), now);
    FinalStatusLater(w, y, types, UpkeepPlan(y, list, ChildrenReady(w), now));
  }

  /** The record found in a list that was rebuilt from another, except that entry i was bumped. */
  lemma {:induction false} BumpedRecord(health: seq<Health>, i: nat, b: Health, name: string)
    requires i < |health| && b.name == health[i].name
    requires forall j :: 0 <= j < i ==> health[j].name != health[i].name
    ensures FindRecord(health[i := b], name)
            == if name == b.name then Record(b.attempts, b.lastHeal) else FindRecord(health, name)
  {
    if i > 0 {
      assert health[i := b][1..] == health[1..][i - 1 := b];
      BumpedRecord(health[1..], i - 1, b, name);
    } else {
      assert health[i := b][1..] == health[1..];
    }
  }

  lemma SameNameSameDecision(w: World, list: seq<Attachment>, i: nat, j: nat, now: int)
    requires i < |list| && j < |list|
    ensures list[j].name == list[i].name ==> Decide(w, Rebuilt(w, list)[j], now) == Decide(w, Rebuilt(w, list)[i], now)
  {
  }

  /** The first repaired replica is the first of its name. */
  lemma RepairedIsFirst(w: World, list: seq<Attachment>, desired: nat, now: int, j: nat)
    requires Repaired(w, list, desired, now).Some? && j < Repaired(w, list, desired, now).value
    ensures list[j].name != list[Repaired(w, list, desired, now).value].name
  {
    var i := Repaired(w, list, desired, now).value;
    SameNameSameDecision(w, list, i, j, now);
  }

  /**
   One pass and the record of an attached name: unless the pass restarts it to the end, the record
   stays; if it does, the count goes up by one from less than five, the time is now, and the backoff
   of the old count has passed.
   */
  lemma PassAndRecord(w: World, now: int, cut: nat, name: string)
    requires cut <= |PassPlan(w, now)| && w.engine.Some? && name in AttachedNames(List(w))
    ensures var before, after := RecordOf(w, name), RecordOf(CutPass(w, now, cut), name);
            if Restarts(w, now, cut, name) && cut == |PassPlan(w, now)| then
              && before.attempts < MAX_ATTEMPTS
              && after == Record(before.attempts + 1, Some(now))
              && (before.lastHeal.Some? ==> now - before.lastHeal.value >= Backoff(before.attempts))
            else after == before
  {
    HealthWritten(w, now, cut);
    if HealsToTheEnd(w, now, cut) {
      StoredRecord(w, List(w), |List(w)|, now, name);
    }
  }

  /** The record a healing pass stores for an attached name. */
  lemma StoredRecord(w: World, list: seq<Attachment>, desired: nat, now: int, name: string)
    requires name in AttachedNames(list)
    ensures var before, after := RecordOf(w, name), FindRecord(StoredHealth(w, list, desired, now), name);
            var r := Repaired(w, list, desired, now);
            if r.Some? && list[r.value].name == name && Decide(w, HealthOf(w, list[r.value]), now).Restart? then
              && before.attempts < MAX_ATTEMPTS
              && after == Record(before.attempts + 1, Some(now))
              && (before.lastHeal.Some? ==> now - before.lastHeal.value >= Backoff(before.attempts))
            else after == before
  {
    var health := Rebuilt(w, list);
    var at :| 0 <= at < |list| && list[at].name == name;
    assert health[at].name == name;
    RecordKept(health, w.volume.status.health, name);
    var r := Repaired(w, list, desired, now);
    if r.Some? && Decide(w, health[r.value], now).Restart? {
      var i := r.value;
      var b := health[i].(attempts := health[i].attempts + 1, lastHeal := Some(now), phase := Seen(ReplicaPhase.Pending));
      forall j | 0 <= j < i ensures health[j].name != health[i].name {
        RepairedIsFirst(w, list, desired, now, j);
      }
      BumpedRecord(health, i, b, name);
    }
  }

  // ---- Runs ----

  /** The pass restarts the pod and gets to record it. */
  predicate RecordsRestart(w: World, now: int, cut: nat, name: string) {
    Restarts(w, now, cut, name) && cut == |PassPlan(w, now)|
  }

  /** For each event of a run, the time at which it restarted the name's pod and recorded that, if it did. */
  function Hits(ws: seq<World>, es: seq<Event>, name: string): (hits: seq<Option<int>>)
    requires |ws| == |es| + 1
    ensures |hits| == |es|
    ensures forall i :: 0 <= i < |es| ==>
              hits[i] == if es[i].Pass? && RecordsRestart(ws[i], es[i].now, es[i].cut, name) then Some(es[i].now) else None
  {
    seq(|es|, i requires 0 <= i < |es| =>
      if es[i].Pass? && RecordsRestart(ws[i], es[i].now, es[i].cut, name) then Some(es[i].now) else None)
  }

  function Times(hits: seq<Option<int>>, k: nat): (times: seq<int>)
    requires k <= |hits|
  {
    if k == 0 then []
    else if hits[k - 1].Some? then Times(hits, k - 1) + [hits[k - 1].value]
    else Times(hits, k - 1)
  }

  /** The times of the recorded restarts among the first k events. */
  function RestartTimes(ws: seq<World>, es: seq<Event>, name: string, k: nat): seq<int>
    requires |ws| == |es| + 1 && k <= |es|
  {
    Times(Hits(ws, es, name), k)
  }

  /** A run that keeps the name attached. */
  ghost predicate KeepsAttached(ws: seq<World>, es: seq<Event>, name: string) {
    && IsRun(ws, es)
    && (forall i :: 0 <= i < |ws| ==> ws[i].engine.Some? && name in AttachedNames(List(ws[i])))
  }

  /** Each time is at least the backoff of its count after the one before. */
  ghost predicate Spaced(times: seq<int>, attempts: nat) {
    forall j :: 0 < j < |times| ==> times[j] - times[j - 1] >= Backoff(attempts + j)
  }

  /** How an event moves a record: a restart counts up from less than five, once the backoff is over. */
  ghost predicate Moves(before: Record, hit: Option<int>, after: Record) {
    if hit.Some? then
      && before.attempts < MAX_ATTEMPTS
      && after == Record(before.attempts + 1, hit)
      && (before.lastHeal.Some? ==> hit.value - before.lastHeal.value >= Backoff(before.attempts))
    else after == before
  }

  lemma StepMoves(w: World, e: Event, x: World, name: string)
    requires Next(w, e, x) && w.engine.Some? && name in AttachedNames(List(w))
    ensures Moves(RecordOf(w, name),
                  if e.Pass? && RecordsRestart(w, e.now, e.cut, name) then Some(e.now) else None, RecordOf(x, name))
  {
    match e
    case Pass(now, cut) => PassAndRecord(w, now, cut, name);
    case UserDelete(n, cut) => DashboardList(w, n, cut);
    case Environment =>
  }

  /** The record counts the restarts and holds the time of the last one. */
  lemma {:induction false} MovesCount(records: seq<Record>, hits: seq<Option<int>>, k: nat)
    requires |records| == |hits| + 1 && k <= |hits|
    requires forall i :: 0 <= i < |hits| ==> Moves(records[i], hits[i], records[i + 1])
    ensures var a, times, r := records[0].attempts, Times(hits, k), records[k];
            && r.attempts == a + |times|
            && (times != [] ==> r.lastHeal == Some(times[|times| - 1]) && r.attempts <= MAX_ATTEMPTS)
            && Spaced(times, a)
  {
    if k > 0 {
      MovesCount(records, hits, k - 1);
      assert Moves(records[k - 1], hits[k - 1], records[k]);
    }
  }

  lemma RecordCounts(ws: seq<World>, es: seq<Event>, name: string, k: nat)
    requires KeepsAttached(ws, es, name) && k <= |es|
    ensures var a, times, r := RecordOf(ws[0], name).attempts, RestartTimes(ws, es, name, k), RecordOf(ws[k], name);
            && r.attempts == a + |times|
            && (times != [] ==> r.lastHeal == Some(times[|times| - 1]) && r.attempts <= MAX_ATTEMPTS)
            && Spaced(times, a)
  {
    var records := seq(|ws|, i requires 0 <= i < |ws| => RecordOf(ws[i], name));
    var hits := Hits(ws, es, name);
    forall i | 0 <= i < |es| ensures Moves(records[i], hits[i], records[i + 1]) {
      StepMoves(ws[i], es[i], ws[i + 1], name);
    }
    MovesCount(records, hits, k);
  }

  /** A restart, recorded or not, finds less than five on record and comes after the backoff. */
  lemma RestartIsDue(w: World, now: int, cut: nat, name: string)
    requires Restarts(w, now, cut, name)
    ensures var before := RecordOf(w, name);
            && before.attempts < MAX_ATTEMPTS
            && (before.lastHeal.Some? ==> now - before.lastHeal.value >= Backoff(before.attempts))
  {
    var list := List(w);
    assert name in AttachedNames(list);
    PassAndRecord(w, now, |PassPlan(w, now)|, name);
  }

  /**
   While a replica name stays attached, its count never decreases and at most five restarts of its pod
   are recorded; recorded restart k + 1 comes at least 30 * 2^k seconds after recorded restart k.
   */
  lemma RestartBudget(ws: seq<World>, es: seq<Event>, name: string)
    requires KeepsAttached(ws, es, name)
    ensures var a, times := RecordOf(ws[0], name).attempts, RestartTimes(ws, es, name, |es|);
            && (times != [] ==> a + |times| <= 5)
            && (forall i, j :: 0 <= i <= j < |ws| ==> RecordOf(ws[i], name).attempts <= RecordOf(ws[j], name).attempts)
            && forall j :: 0 < j < |times| ==> times[j] - times[j - 1] >= 30 * Pow2(a + j)
  {
    var a, times := RecordOf(ws[0], name).attempts, RestartTimes(ws, es, name, |es|);
    RecordCounts(ws, es, name, |es|);
    forall i, j | 0 <= i <= j < |ws| ensures RecordOf(ws[i], name).attempts <= RecordOf(ws[j], name).attempts {
      RecordCounts(ws, es, name, i);
      RecordCounts(ws, es, name, j);
      TimesGrow(Hits(ws, es, name), i, j);
    }
  }

  /**
   The restarts beyond those: a restart that is not recorded is one by a pass cut off between the pod
   delete and the status write, and even that finds fewer than five recorded and comes after the backoff
   of the last one recorded.
   */
  lemma EveryRestartIsInBudget(ws: seq<World>, es: seq<Event>, name: string, i: nat)
    requires KeepsAttached(ws, es, name)
    requires i < |es| && es[i].Pass? && Restarts(ws[i], es[i].now, es[i].cut, name)
    ensures es[i].cut == |PassPlan(ws[i], es[i].now)| || es[i].cut == |PassPlan(ws[i], es[i].now)| - 1
    ensures var a, times := RecordOf(ws[0], name).attempts, RestartTimes(ws, es, name, i);
            && a + |times| < 5
            && (times != [] ==> es[i].now - times[|times| - 1] >= 30 * Pow2(a + |times|))
  {
    RecordCounts(ws, es, name, i);
    RestartFits(ws[i], es[i], ws[i + 1], name, RecordOf(ws[0], name).attempts, RestartTimes(ws, es, name, i));
  }

  lemma RestartFits(w: World, e: Event, x: World, name: string, a: nat, times: seq<int>)
    requires Next(w, e, x) && e.Pass? && Restarts(w, e.now, e.cut, name)
    requires RecordOf(w, name).attempts == a + |times|
    requires times != [] ==> RecordOf(w, name).lastHeal == Some(times[|times| - 1])
    ensures e.cut == |PassPlan(w, e.now)| || e.cut == |PassPlan(w, e.now)| - 1
    ensures a + |times| < 5
    ensures times != [] ==> e.now - times[|times| - 1] >= 30 * Pow2(a + |times|)
  {
    RestartIsLate(w, e, x, name);
    RestartIsDue(w, e.now, e.cut, name);
    DueAfterLast(a, times, RecordOf(w, name), e.now);
  }

  lemma RestartIsLate(w: World, e: Event, x: World, name: string)
    requires Next(w, e, x) && e.Pass? && Restarts(w, e.now, e.cut, name)
    ensures e.cut == |PassPlan(w, e.now)| || e.cut == |PassPlan(w, e.now)| - 1
  {
  }

  lemma DueAfterLast(a: nat, times: seq<int>, r: Record, now: int)
    requires r.attempts == a + |times| && (times != [] ==> r.lastHeal == Some(times[|times| - 1]))
    requires r.attempts < MAX_ATTEMPTS && (r.lastHeal.Some? ==> now - r.lastHeal.value >= Backoff(r.attempts))
    ensures times != [] ==> now - times[|times| - 1] >= 30 * Pow2(a + |times|)
  {
  }

  lemma {:induction false} TimesGrow(hits: seq<Option<int>>, i: nat, j: nat)
    requires i <= j <= |hits|
    ensures |Times(hits, i)| <= |Times(hits, j)|
  {
    if i < j {
      TimesGrow(hits, i, j - 1);
    }
  }

  /** The first and the fifth recorded restart of a fresh name are at least 900 seconds apart. */
  lemma FiveRestartsTakeFifteenMinutes(ws: seq<World>, es: seq<Event>, name: string)
    requires KeepsAttached(ws, es, name) && |RestartTimes(ws, es, name, |es|)| == 5
    ensures RecordOf(ws[0], name).attempts == 0
    ensures var times := RestartTimes(ws, es, name, |es|); times[4] - times[0] >= 900
  {
    RecordCounts(ws, es, name, |es|);
    var times := RestartTimes(ws, es, name, |es|);
    assert Backoff(1) == 60 && Backoff(2) == 120;
    assert Backoff(3) == 2 * Backoff(2) && Backoff(4) == 2 * Backoff(3);
    assert times[4] - times[3] >= Backoff(4) && times[3] - times[2] >= Backoff(3);
    assert times[2] - times[1] >= Backoff(2) && times[1] - times[0] >= Backoff(1);
  }

}
