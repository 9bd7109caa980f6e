/** Runs of the engine controller, with replica passes, list changes and pods coming up in between. */
module EngineRuns {
  import opened Wrappers
  import opened Names
  import opened Types
  import RC = ReplicaController
  import opened EngineController
  import Sidecar
  import Mirror

  // ---- What filling in does ----

  /** The attachment agrees with its running replica. */
  predicate Agrees(s: State, node: string, a: Attachment, split: RC.Splitter) {
    && a.name in s.replicas && s.replicas[a.name].status.phase == ReplicaPhase.Running
    && (a.isLocal <==> s.replicas[a.name].spec.node == node)
    && (!a.isLocal ==>
          && PodName(a.name) in s.pods
          && s.replicas[a.name].status.nqn != "" && a.nqn == s.replicas[a.name].status.nqn
          && split(s.replicas[a.name].status.endpoint) == Some(RC.HostPort(a.address, a.port)))
  }

  lemma {:induction false} FillKeepsNames(s: State, node: string, list: seq<Attachment>, n: nat,
                                          c: EngineCalls, split: RC.Splitter)
    requires n <= |list|
    ensures var l := Fill(s, node, list, n, c, split).0;
            forall i :: 0 <= i < |list| ==> l[i].name == list[i].name && l[i].node == list[i].node
  {
    if n > 0 {
      FillKeepsNames(s, node, list, n - 1, c, split);
    }
  }

  lemma {:induction false} FillVerdict(s: State, node: string, list: seq<Attachment>, n: nat, c: EngineCalls,
                                       split: RC.Splitter)
    requires n <= |list|
    ensures var v := Fill(s, node, list, n, c, split).1;
            && (Stops(v) <==> exists i :: 0 <= i < n && Stops(FillOne(s, node, list[i], i, c, split).1))
            && (v == AllReady <==> forall i :: 0 <= i < n ==> FillOne(s, node, list[i], i, c, split).1 == AllReady)
  {
    if n > 0 {
      FillVerdict(s, node, list, n - 1, c, split);
      var v := Fill(s, node, list, n - 1, c, split).1;
      var u := FillOne(s, node, list[n - 1], n - 1, c, split).1;
      assert Fill(s, node, list, n, c, split).1 == if Stops(v) then v else if Stops(u) then u
            else if v == AllReady then u else NotReady;
    }
  }

  lemma {:induction false} FillByPosition(s: State, node: string, list: seq<Attachment>, n: nat,
                                          c: EngineCalls, split: RC.Splitter)
    requires n <= |list|
    ensures var (l, v) := Fill(s, node, list, n, c, split);
            !Stops(v) ==> forall i :: 0 <= i < n ==> l[i] == FillOne(s, node, list[i], i, c, split).0
  {
    if n > 0 {
      FillByPosition(s, node, list, n - 1, c, split);
    }
  }

  predicate Trusted(s: State, node: string, b: Attachment, i: nat, c: EngineCalls, split: RC.Splitter) {
    c.get(i) && Agrees(s, node, b, split) && (!b.isLocal ==> c.find(i))
  }

  /** The verdict on an attachment depends on its name only. */
  lemma OneMatches(s: State, node: string, a: Attachment, b: Attachment, i: nat, c: EngineCalls, split: RC.Splitter)
    requires a.name == b.name
    ensures Trusted(s, node, b, i, c, split) ==> FillOne(s, node, a, i, c, split).1 == AllReady
    ensures FillOne(s, node, a, i, c, split) == (b, AllReady) ==> Trusted(s, node, b, i, c, split)
    ensures var (d, v) := FillOne(s, node, a, i, c, split); !Stops(v) ==> FillOne(s, node, d, i, c, split) == (d, v)
  {
  }

  /**
   A filled-in list counts as ready exactly when every attachment agrees with its replica and every
   read succeeded; the names and nodes are those of the list it was made from.
   */
  lemma FilledMatches(s: State, node: string, list: seq<Attachment>, c: EngineCalls, split: RC.Splitter)
    ensures var (l, v) := Fill(s, node, list, |list|, c, split);
            && (forall i :: 0 <= i < |list| ==> l[i].name == list[i].name && l[i].node == list[i].node)
            && (v == AllReady <==> forall i :: 0 <= i < |list| ==> Trusted(s, node, l[i], i, c, split))
  {
    FillKeepsNames(s, node, list, |list|, c, split);
    FillVerdict(s, node, list, |list|, c, split);
    FillByPosition(s, node, list, |list|, c, split);
    var (l, v) := Fill(s, node, list, |list|, c, split);
    forall i | 0 <= i < |list|
      ensures Trusted(s, node, l[i], i, c, split) ==> FillOne(s, node, list[i], i, c, split).1 == AllReady
      ensures FillOne(s, node, list[i], i, c, split) == (l[i], AllReady) ==> Trusted(s, node, l[i], i, c, split)
    {
      OneMatches(s, node, list[i], l[i], i, c, split);
    }
  }

  /** Filling in a list again changes nothing, so a steady state is not written again. */
  lemma FillIsIdempotent(s: State, node: string, list: seq<Attachment>, c: EngineCalls, split: RC.Splitter)
    requires !Stops(Fill(s, node, list, |list|, c, split).1)
    ensures var (l, v) := Fill(s, node, list, |list|, c, split); Fill(s, node, l, |l|, c, split) == (l, v)
  {
    var (l, v) := Fill(s, node, list, |list|, c, split);
    FillVerdict(s, node, list, |list|, c, split);
    FillByPosition(s, node, list, |list|, c, split);
    FillVerdict(s, node, l, |l|, c, split);
    FillByPosition(s, node, l, |l|, c, split);
    forall i | 0 <= i < |l|
      ensures FillOne(s, node, l[i], i, c, split) == (l[i], FillOne(s, node, list[i], i, c, split).1)
    {
      OneMatches(s, node, list[i], l[i], i, c, split);
    }
    SameVerdict(Fill(s, node, l, |l|, c, split), l, v);
  }

  lemma SameVerdict(r: (seq<Attachment>, Verdict), l: seq<Attachment>, v: Verdict)
    requires |r.0| == |l| && forall i :: 0 <= i < |l| ==> r.0[i] == l[i]
    requires !Stops(r.1) && !Stops(v) && (r.1 == AllReady <==> v == AllReady)
    ensures r == (l, v)
  {
    assert r.0 == l;
  }

  // ---- Complete endpoints when the pod starts ----

  predicate AllEndpointed(s: State, split: RC.Splitter) {
    forall n :: n in s.replicas ==> RC.Endpointed(s.replicas[n].status, split)
  }

  /** Every remote attachment carries an NQN and an address. */
  predicate Complete(list: seq<Attachment>) {
    forall i :: 0 <= i < |list| && !list[i].isLocal ==> Sidecar.Attemptable(list[i])
  }

  lemma ReadyIsComplete(s: State, node: string, list: seq<Attachment>, c: EngineCalls, split: RC.Splitter)
    requires AllEndpointed(s, split) && Fill(s, node, list, |list|, c, split).1 == AllReady
    ensures Complete(Fill(s, node, list, |list|, c, split).0)
  {
    FilledMatches(s, node, list, c, split);
    var l := Fill(s, node, list, |list|, c, split).0;
    forall i | 0 <= i < |l| && !l[i].isLocal ensures Sidecar.Attemptable(l[i]) {
      assert Trusted(s, node, l[i], i, c, split);
      assert !RC.Blank(l[i].address);
    }
  }

  // ---- Events ----

  function WithList(s: State, list: seq<Attachment>): State
    requires s.engine.Some?
  {
    s.(engine := Some(s.engine.value.(replicas := list)))
  }

  datatype Event =
    | Pass(calls: EngineCalls)
    | ReplicaPass(name: string, replicaCalls: RC.Calls)
    | SetList(list: seq<Attachment>)
    | PodSeen(ip: string, containers: seq<bool>)
    | ObjectsChange
    | PodLost
    | SidecarRestart
    | NewEngine(engine: Option<EngineObject>)

  function Lookup<T>(m: map<string, T>, name: string): Option<T> {
    if name in m then Some(m[name]) else None
  }

  function Put<T>(m: map<string, T>, name: string, value: Option<T>): map<string, T> {
    if value.Some? then m[name := value.value] else m - {name}
  }

  function AfterReplicaPass(s: State, name: string, c: RC.Calls, split: RC.Splitter): State {
    var pair := RC.ReplicaPass(RC.Pair(Lookup(s.replicas, name), Lookup(s.pods, PodName(name))), c, split).0;
    s.(replicas := Put(s.replicas, name, pair.replica), pods := Put(s.pods, PodName(name), pair.pod))
  }

  /** Others create replicas without a status, delete them and change their spec; pods change in any way. */
  ghost predicate OthersChange(s: State, t: State) {
    && t == s.(replicas := t.replicas, pods := t.pods)
    && forall n :: n in t.replicas ==>
         || t.replicas[n].status == ReplicaStatus(ReplicaPhase.Unset, "", "")
         || (n in s.replicas && t.replicas[n].status == s.replicas[n].status)
  }

  ghost predicate Next(s: State, e: Event, t: State, split: RC.Splitter, hash: Hasher) {
    match e
    case Pass(c) => t == EnginePass(s, c, split, hash).0
    case ReplicaPass(name, c) => t == AfterReplicaPass(s, name, c, split)
    case SetList(list) => t == if s.engine.Some? then s.(engine := Some(s.engine.value.(replicas := list))) else s
    case PodSeen(ip, containers) =>
      t == if s.pod.Some? then s.(pod := Some(s.pod.value.(ip := ip, containers := containers))) else s
    case ObjectsChange => OthersChange(s, t)
    case PodLost => t == s.(pod := None)
    case SidecarRestart => t == if s.pod.Some? then s.(sidecar := s.pod.value.started) else s
    case NewEngine(engine) => t == s.(engine := engine)
  }

  ghost predicate IsRun(ss: seq<State>, es: seq<Event>, split: RC.Splitter, hash: Hasher) {
    |ss| == |es| + 1 && forall i :: 0 <= i < |es| ==> Next(ss[i], es[i], ss[i + 1], split, hash)
  }

  lemma ReadyPassAndPod(s: State, c: EngineCalls, split: RC.Splitter, hash: Hasher)
    requires s.engine.Some?
    ensures var t := ReadyPass(s, c, split, hash).0;
            && t.replicas == s.replicas && t.pods == s.pods
            && t.engine.Some? && t.engine.value.replicas == s.engine.value.replicas
            && (t.pod != s.pod ==>
                  s.pod.None? && t.pod == Some(EnginePod(s.engine.value.replicas, "", []))
                        && t.sidecar == s.engine.value.replicas)
  {
  }

  /** An engine pass touches no replica; if it changes the pod, it started one with the filled-in list. */
  lemma PassAndPod(s: State, c: EngineCalls, split: RC.Splitter, hash: Hasher)
    ensures var t := EnginePass(s, c, split, hash).0;
            && t.replicas == s.replicas && t.pods == s.pods
            && (t.pod != s.pod ==>
                  && s.pod.None? && s.engine.Some? && Filled(s, c, split).1 == AllReady
                  && t.pod == Some(EnginePod(Filled(s, c, split).0, "", []))
                  && t.sidecar == Filled(s, c, split).0)
  {
    if s.engine.Some? {
      ReadyPassAndPod(WithList(s, Filled(s, c, split).0), c, split, hash);
    }
  }

  lemma {:induction false} StartedListIsComplete(ss: seq<State>, es: seq<Event>, split: RC.Splitter,
                                                 hash: Hasher, i: nat)
    requires IsRun(ss, es, split, hash) && i < |ss| && AllEndpointed(ss[0], split) && ss[0].pod.None?
    ensures AllEndpointed(ss[i], split) && (ss[i].pod.Some? ==> Complete(ss[i].pod.value.started))
  {
    if i > 0 {
      StartedListIsComplete(ss, es, split, hash, i - 1);
      var s, e, t := ss[i - 1], es[i - 1], ss[i];
      assert Next(s, e, t, split, hash);
      match e
      case Pass(c) =>
        PassAndPod(s, c, split, hash);
        if t.pod != s.pod {
          ReadyIsComplete(s, s.engine.value.node, s.engine.value.replicas, c, split);
        }
      case ReplicaPass(name, c) => ReplicaPassKeepsEndpoints(s, name, c, split);
      case _ =>
    }
  }

  lemma ReplicaPassKeepsEndpoints(s: State, name: string, c: RC.Calls, split: RC.Splitter)
    requires AllEndpointed(s, split)
    ensures AllEndpointed(AfterReplicaPass(s, name, c, split), split)
  {
    var p := RC.Pair(Lookup(s.replicas, name), Lookup(s.pods, PodName(name)));
    var q := RC.ReplicaPass(p, c, split).0;
    assert q.replica.Some? ==> RC.Endpointed(q.replica.value.status, split);
  }

  /**
   In every run, whatever the sidecar of a started pod meets, its setup tries to attach every remote
   replica of the list it was started with; and if no other call fails, it exports the mirror raid0 exactly
   if one of them attached within five attempts, and the local device aio0 otherwise.
   */
  lemma EveryReplicaIsAttempted(ss: seq<State>, es: seq<Event>, split: RC.Splitter, hash: Hasher, i: nat,
                                f: Sidecar.Faults, g: Sidecar.SetupFaults, suffix: string)
    requires IsRun(ss, es, split, hash) && i < |ss| && AllEndpointed(ss[0], split) && ss[0].pod.None?
    requires ss[i].pod.Some?
    ensures var list := ss[i].pod.value.started;
            forall k: nat :: k in Sidecar.AttachCalls(list, f, |list|) <==> k < |list| && !list[k].isLocal
    ensures var list := ss[i].pod.value.started;
            g.transport && g.aio && g.mirror && g.subsystem && g.namespace && g.listener ==>
              && Sidecar.Stacked(list, suffix, f, g)
              && Sidecar.TargetOf(Sidecar.ExportOf(list, suffix, f), g)
                 == Sidecar.Target(true, Some(if exists k: nat :: RemoteAttaches(list, f, k) then "raid0" else "aio0"), true)
  {
    var list := ss[i].pod.value.started;
    StartedListIsComplete(ss, es, split, hash, i);
    Mirror.SetupAttempts(list, suffix, f);
    if g.transport && g.aio && g.mirror && g.subsystem && g.namespace && g.listener {
      Mirror.SetupExports(list, suffix, f, g);
      assert forall k: nat :: Mirror.Attachable(list, f, k) <==> RemoteAttaches(list, f, k);
    }
  }

  /** The remote replica at position k attaches at one of five attempts. */
  ghost predicate RemoteAttaches(list: seq<Attachment>, f: Sidecar.Faults, k: nat) {
    k < |list| && !list[k].isLocal && exists attempt: nat :: attempt < 5 && f.attach(k, attempt)
  }

  // ---- The hash gate ----

  /** The pass gets as far as storing the phase Running. */
  predicate ReachesRunning(s: State, c: EngineCalls, split: RC.Splitter, hash: Hasher) {
    && s.engine.Some? && s.engine.value.status.podRef
    && Filled(s, c, split).1 == AllReady
    && (Filled(s, c, split).0 == s.engine.value.replicas || c.update)
    && Answered(s, c, split)
    && (GateOpens(s.engine.value.status, Filled(s, c, split).0, hash) ==> c.reconfigure == Accepted)
  }

  predicate WritesRunning(s: State, c: EngineCalls, split: RC.Splitter, hash: Hasher) {
    ReachesRunning(s, c, split, hash) && c.status
  }

  /** The list is as it was filled in: what the rest of the pass does to the hash, the phase and the sidecar. */
  lemma ReadyPassAgrees(s: State, c: EngineCalls, split: RC.Splitter, hash: Hasher)
    requires s.engine.Some?
    ensures var (t, e) := (ReadyPass(s, c, split, hash).0, s.engine.value);
            var gate := GateOpens(e.status, e.replicas, hash);
            var reaches := e.status.podRef && Answered(s, c, split) && (gate ==> c.reconfigure == Accepted);
            && t.engine.Some? && t.engine.value.replicas == e.replicas
            && (if reaches && c.status then
                  && t.engine.value.status.phase == EnginePhase.Running && t.engine.value.status.lastHash == hash(e.replicas)
                  && (t.sidecar == e.replicas <==> gate || s.sidecar == e.replicas)
                else
                  && t.engine.value.status.lastHash == e.status.lastHash
                  && (t.engine.value.status.phase == EnginePhase.Running ==> e.status.phase == EnginePhase.Running))
            && (t.sidecar != s.sidecar ==> (s.pod.None? && t.pod.Some?) || reaches || c.reconfigure == Lost)
  {
  }

  /**
   Exactly when a pass that stores Running leaves the sidecar with the engine's list: it reconfigured,
   or the sidecar had that list already. Any other pass leaves the stored hash alone.
   */
  lemma RunningAgrees(s: State, c: EngineCalls, split: RC.Splitter, hash: Hasher)
    requires s.engine.Some?
    ensures var t := EnginePass(s, c, split, hash).0;
            var list := Filled(s, c, split).0;
            && t.engine.Some?
            && (if WritesRunning(s, c, split, hash) then
                  && t.engine.value.status.phase == EnginePhase.Running
                  && t.engine.value.status.lastHash == hash(list) && t.engine.value.replicas == list
                  && (t.sidecar == list <==> GateOpens(s.engine.value.status, list, hash) || s.sidecar == list)
                else
                  && t.engine.value.status.lastHash == s.engine.value.status.lastHash
                  && (t.engine.value.status.phase == EnginePhase.Running ==>
                        s.engine.value.status.phase == EnginePhase.Running))
            && (t.sidecar != s.sidecar ==>
                  (s.pod.None? && t.pod.Some?) || ReachesRunning(s, c, split, hash) || c.reconfigure == Lost)
  {
    ReadyPassAgrees(WithList(s, Filled(s, c, split).0), c, split, hash);
  }

  /**
   Steps that keep the gate sound: no answer of the sidecar is lost, the status is stored after a
   reconfigure, the first Running sees the list the pod was started with, and once a hash is stored
   the engine, its pod and the sidecar's process stay the same.
   */
  ghost predicate Orderly(s: State, e: Event, split: RC.Splitter, hash: Hasher) {
    match e
    case Pass(c) =>
      && c.reconfigure != Lost
      && (s.engine.Some? ==>
            var status, list := s.engine.value.status, Filled(s, c, split).0;
            && (ReachesRunning(s, c, split, hash) && GateOpens(status, list, hash) ==> c.status)
            && (status.lastHash == "" && WritesRunning(s, c, split, hash) ==> s.sidecar == list))
    case PodLost => NoHash(s)
    case SidecarRestart => NoHash(s) || (s.pod.Some? && s.pod.value.started == s.sidecar)
    case NewEngine(engine) => NoHash(s.(engine := engine))
    case _ => true
  }

  predicate NoHash(s: State) {
    s.engine.Some? ==> s.engine.value.status.lastHash == ""
  }

  /** What the stored hash says about the sidecar. */
  ghost predicate HashTells(s: State, hash: Hasher) {
    !NoHash(s) ==>
      s.pod.Some? && s.engine.value.status.lastHash == hash(s.sidecar)
  }

  lemma OrderlyPass(s: State, c: EngineCalls, split: RC.Splitter, hash: Hasher)
    requires CollisionFree(hash) && HashTells(s, hash) && Orderly(s, Pass(c), split, hash)
    ensures var t := EnginePass(s, c, split, hash).0;
            && HashTells(t, hash)
            && (WritesRunning(s, c, split, hash) ==> t.engine.Some? && t.sidecar == t.engine.value.replicas)
  {
    if s.engine.Some? {
      RunningAgrees(s, c, split, hash);
      PassAndPod(s, c, split, hash);
    }
  }

  lemma {:induction false} HashTellsOverRuns(ss: seq<State>, es: seq<Event>, split: RC.Splitter, hash: Hasher, i: nat)
    requires CollisionFree(hash) && IsRun(ss, es, split, hash) && i < |ss| && HashTells(ss[0], hash)
    requires forall k :: 0 <= k < |es| ==> Orderly(ss[k], es[k], split, hash)
    ensures HashTells(ss[i], hash)
  {
    if i > 0 {
      HashTellsOverRuns(ss, es, split, hash, i - 1);
      assert Next(ss[i - 1], es[i - 1], ss[i], split, hash) && Orderly(ss[i - 1], es[i - 1], split, hash);
      if es[i - 1].Pass? {
        OrderlyPass(ss[i - 1], es[i - 1].calls, split, hash);
      }
    }
  }

  /** In an orderly run, whenever Running is stored, the sidecar works with the engine's list. */
  lemma HashGateOverRuns(ss: seq<State>, es: seq<Event>, split: RC.Splitter, hash: Hasher, i: nat)
    requires CollisionFree(hash) && IsRun(ss, es, split, hash) && HashTells(ss[0], hash)
    requires forall k :: 0 <= k < |es| ==> Orderly(ss[k], es[k], split, hash)
    requires i < |es| && es[i].Pass? && WritesRunning(ss[i], es[i].calls, split, hash)
    ensures ss[i + 1].engine.Some? && ss[i + 1].sidecar == ss[i + 1].engine.value.replicas
  {
    HashTellsOverRuns(ss, es, split, hash, i);
    OrderlyPass(ss[i], es[i].calls, split, hash);
  }

  /** A pass over a steady engine: its list is filled in and ready, its pod is up and answers. */
  predicate Steady(s: State, c: EngineCalls, split: RC.Splitter) {
    && s.engine.Some? && s.engine.value.status.podRef && Answered(s, c, split)
    && Filled(s, c, split) == (s.engine.value.replicas, AllReady)
  }

  /**
   Why the status must be stored after a reconfigure: the list changes from a to b, the sidecar follows,
   the pass is cut off before it stores the hash, and the list changes back. The next pass finds the
   hash unchanged and stores Running, while the sidecar still works with b.
   */
  lemma LostStatusHidesAChange(s: State, b: seq<Attachment>, cut: EngineCalls, whole: EngineCalls,
                               split: RC.Splitter, hash: Hasher)
    requires CollisionFree(hash) && Steady(s, whole, split) && Steady(WithList(s, b), cut, split)
          && b != s.engine.value.replicas
    requires s.engine.value.status.lastHash == hash(s.engine.value.replicas) && s.sidecar == s.engine.value.replicas
    requires cut.reconfigure == Accepted && !cut.status && whole.status
    ensures var a := s.engine.value.replicas;
            var s1 := EnginePass(WithList(s, b), cut, split, hash).0;
            && s1.engine.Some? && s1.sidecar == b
            && var s2 := EnginePass(WithList(s1, a), whole, split, hash).0;
               s2.engine.Some? && s2.engine.value.status.phase == EnginePhase.Running
               && s2.engine.value.replicas == a && s2.sidecar == b
  {
    var a := s.engine.value.replicas;
    var s1 := EnginePass(WithList(s, b), cut, split, hash).0;
    assert s1 == WithList(s, b).(sidecar := b);
    var back := WithList(s1, a);
    assert back == s.(sidecar := b);
    FillIgnoresSidecar(s, b, s.engine.value.node, a, |a|, whole, split);
    assert Filled(back, whole, split) == (a, AllReady);
  }

  lemma {:induction false} FillIgnoresSidecar(s: State, sidecar: seq<Attachment>, node: string,
                                              list: seq<Attachment>, n: nat, c: EngineCalls, split: RC.Splitter)
    requires n <= |list|
    ensures Fill(s.(sidecar := sidecar), node, list, n, c, split) == Fill(s, node, list, n, c, split)
  {
    if n > 0 {
      FillIgnoresSidecar(s, sidecar, node, list, n - 1, c, split);
    }
  }

  /** An engine stored as Running has an endpoint and a subsystem that clients can be given. */
  predicate Published(s: State, split: RC.Splitter) {
    s.engine.Some? && s.engine.value.status.phase == EnginePhase.Running ==>
      !RC.Blank(s.engine.value.status.subsystemNQN) && RC.ValidEndpoint(s.engine.value.status.endpoint, split)
  }

  lemma PassPublishes(s: State, c: EngineCalls, split: RC.Splitter, hash: Hasher)
    requires Published(s, split)
    ensures Published(EnginePass(s, c, split, hash).0, split)
  {
    if s.engine.Some? {
      var t := WithList(s, Filled(s, c, split).0);
      assert Published(t, split);
      assert Published(ReadyPass(t, c, split, hash).0, split);
    }
  }

  /** In every run, whenever the engine is stored as Running, its endpoint and subsystem are valid. */
  lemma {:induction false} PublishedOverRuns(ss: seq<State>, es: seq<Event>, split: RC.Splitter, hash: Hasher, i: nat)
    requires IsRun(ss, es, split, hash) && i < |ss| && Published(ss[0], split)
    requires forall k :: 0 <= k < |es| && es[k].NewEngine? ==> Published(ss[k + 1], split)
    ensures Published(ss[i], split)
  {
    if i > 0 {
      PublishedOverRuns(ss, es, split, hash, i - 1);
      assert Next(ss[i - 1], es[i - 1], ss[i], split, hash);
      if es[i - 1].Pass? {
        PassPublishes(ss[i - 1], es[i - 1].calls, split, hash);
      }
    }
  }

  /** With every replica ready and the list stored, the pass gets to an end that stores another phase. */
  predicate EndsElsewhere(s: State, list: seq<Attachment>, c: EngineCalls, split: RC.Splitter, hash: Hasher)
    requires s.engine.Some?
  {
    var status := s.engine.value.status;
    if !status.podRef then c.create
    else
      || s.pod.None? || !c.read
      || (Answered(s, c, split) && GateOpens(status, list, hash) && c.reconfigure != Accepted)
  }

  /**
   Exactly when a pass takes a Running engine out of Running: every replica is ready, the list and the
   status can be stored, and no pod is on record, or the pod is gone or cannot be read, or a
   reconfigure is due and not accepted.
   */
  lemma WhenRunningEnds(s: State, c: EngineCalls, split: RC.Splitter, hash: Hasher)
    requires s.engine.Some? && s.engine.value.status.phase == EnginePhase.Running
    ensures var (t, list) := (EnginePass(s, c, split, hash).0, Filled(s, c, split).0);
            && t.engine.Some?
            && (t.engine.value.status.phase != EnginePhase.Running <==>
                  && Filled(s, c, split).1 == AllReady && (list == s.engine.value.replicas || c.update) && c.status
                  && EndsElsewhere(s, list, c, split, hash))
  {
    ReadyEnds(WithList(s, Filled(s, c, split).0), c, split, hash);
  }

  lemma ReadyEnds(s: State, c: EngineCalls, split: RC.Splitter, hash: Hasher)
    requires s.engine.Some? && s.engine.value.status.phase == EnginePhase.Running
    ensures var t := ReadyPass(s, c, split, hash).0;
            && t.engine.Some?
            && (t.engine.value.status.phase != EnginePhase.Running <==>
                  c.status && EndsElsewhere(s, s.engine.value.replicas, c, split, hash))
  {
  }

  /**
   An engine stays Running although a replica is not ready, or its own pod is not ready or does not
   answer: such a pass stores no status at all.
   */
  lemma UnreadyStaysRunning(s: State, c: EngineCalls, split: RC.Splitter, hash: Hasher)
    requires s.engine.Some? && s.engine.value.status.podRef && s.pod.Some? && c.read
    requires Filled(s, c, split).1 != AllReady || !Answered(s, c, split)
    ensures var t := EnginePass(s, c, split, hash).0;
            t.engine.Some? && t.engine.value.status == s.engine.value.status && t.sidecar == s.sidecar && t.pod == s.pod
  {
    var t := WithList(s, Filled(s, c, split).0);
    assert !Answered(s, c, split) ==> ReadyPass(t, c, split, hash).0 == t;
  }

}
