/**
 The engine controller of one volume: it fills in the endpoints of the attached replicas, starts the
 engine's pod once all of them are ready, and has the sidecar follow later changes of the list.
 */
module EngineController {
  import opened Wrappers
  import opened Names
  import opened Types
  import opened ReplicaController

  datatype EngineStatus = EngineStatus(podRef: bool, phase: EnginePhase, endpoint: string, subsystemNQN: string,
                                       lastHash: string)

  datatype EngineObject = EngineObject(node: string, replicas: seq<Attachment>, status: EngineStatus)

  /** The engine's pod: the list in its environment, its address, and whether each container is ready. */
  datatype EnginePod = EnginePod(started: seq<Attachment>, ip: string, containers: seq<bool>)

  /** What is stored, and the list the sidecar in the engine's pod works with. */
  datatype State = State(engine: Option<EngineObject>, pod: Option<EnginePod>, sidecar: seq<Attachment>,
                         replicas: map<string, Replica>, pods: map<string, Pod>)

  /** What becomes of a reconfigure call: done, refused without effect, or done but the answer is lost. */
  datatype Reply = Accepted | Refused | Lost

  /** The calls of a pass: reads per replica, then the others. A crash is a call that fails. */
  datatype EngineCalls = EngineCalls(get: nat -> bool, find: nat -> bool, update: bool, create: bool, read: bool,
                                     report: Option<SidecarStatus>, reconfigure: Reply, status: bool)

  /** Hashing a replica list; the results are never empty. */
  type Hasher = seq<Attachment> -> string

  ghost predicate CollisionFree(hash: Hasher) {
    (forall l :: hash(l) != "") && (forall l, m :: hash(l) == hash(m) ==> l == m)
  }

  // ---- Filling in the attachments ----

  datatype Verdict = AllReady | NotReady | Absent | Broken

  predicate Stops(v: Verdict) {
    v == Absent || v == Broken
  }

  /** One attachment after a look at its replica. */
  function FillOne(s: State, node: string, a: Attachment, i: nat, c: EngineCalls,
                   split: Splitter): (Attachment, Verdict) {
    if !c.get(i) then (a, Broken)
    else if a.name !in s.replicas then (a, Absent)
    else
      var replica := s.replicas[a.name];
      var b := a.(isLocal := replica.spec.node == node);
      if b.isLocal then (b, if replica.status.phase == ReplicaPhase.Running then AllReady else NotReady)
      else if replica.status.phase != ReplicaPhase.Running || replica.status.nqn == ""
              || !(c.find(i) && PodName(a.name) in s.pods) then (b, NotReady)
      else match split(replica.status.endpoint)
        case None => (b, Broken)
        case Some(hp) => (b.(nqn := replica.status.nqn, address := hp.host, port := hp.port), AllReady)
  }

  /** The first n attachments filled in, up to one that stops the loop. */
  function Fill(s: State, node: string, list: seq<Attachment>, n: nat, c: EngineCalls,
                split: Splitter): (r: (seq<Attachment>, Verdict))
    requires n <= |list|
    ensures |r.0| == |list| && r.0[n..] == list[n..]
  {
    if n == 0 then (list, AllReady)
    else
      var (l, v) := Fill(s, node, list, n - 1, c, split);
      if Stops(v) then (l, v)
      else
        var (b, u) := FillOne(s, node, list[n - 1], n - 1, c, split);
        (l[n - 1 := b], if Stops(u) then u else if v == AllReady then u else NotReady)
  }

  function Filled(s: State, c: EngineCalls, split: Splitter): (r: (seq<Attachment>, Verdict))
    requires s.engine.Some?
  {
    var e := s.engine.value;
    Fill(s, e.node, e.replicas, |e.replicas|, c, split)
  }

  // ---- A pass ----

  function Store(s: State, status: EngineStatus, c: EngineCalls, out: Outcome): (State, Outcome)
    requires s.engine.Some?
  {
    if c.status then (s.(engine := Some(s.engine.value.(status := status))), out) else (s, Error)
  }

  predicate PodReady(pod: EnginePod) {
    pod.ip != "" && pod.containers != [] && false !in pod.containers
  }

  /** Start the pod, unless one is still there, and record that there is one. */
  function StartPod(s: State, c: EngineCalls): (State, Outcome)
    requires s.engine.Some?
  {
    var e := s.engine.value;
    if !c.create then (s, Error)
    else
      var t := if s.pod.None? then s.(pod := Some(EnginePod(e.replicas, "", [])), sidecar := e.replicas) else s;
      Store(t, e.status.(podRef := true, phase := EnginePhase.Pending), c, Done)
  }

  /** Whether the stored hash calls for a reconfigure. */
  predicate GateOpens(status: EngineStatus, list: seq<Attachment>, hash: Hasher) {
    status.lastHash != "" && status.lastHash != hash(list)
  }

  /** The sidecar has answered: reconfigure it if the list has changed, and record the outcome. */
  function Follow(s: State, report: SidecarStatus, c: EngineCalls, hash: Hasher): (State, Outcome)
    requires s.engine.Some?
  {
    var e := s.engine.value;
    var status := e.status.(endpoint := report.endpoint, subsystemNQN := report.subsystemNQN);
    var running := status.(lastHash := hash(e.replicas), phase := EnginePhase.Running);
    if !GateOpens(e.status, e.replicas, hash) then Store(s, running, c, Done)
    else match c.reconfigure
      case Accepted => Store(s.(sidecar := e.replicas), running, c, Done)
      case Refused => Store(s, status.(phase := EnginePhase.Degraded), c, Requeue(5))
      case Lost => Store(s.(sidecar := e.replicas), status.(phase := EnginePhase.Degraded), c, Requeue(5))
  }

  predicate Answered(s: State, c: EngineCalls, split: Splitter) {
    && s.pod.Some? && c.read && PodReady(s.pod.value)
    && c.report.Some? && ValidEngineReport(c.report.value, split)
  }

  /** A pass once every replica is ready. */
  function ReadyPass(s: State, c: EngineCalls, split: Splitter, hash: Hasher): (State, Outcome)
    requires s.engine.Some?
  {
    var status := s.engine.value.status;
    if !status.podRef then StartPod(s, c)
    else if s.pod.None? || !c.read then Store(s, status.(podRef := false, phase := EnginePhase.Unset), c, Done)
    else if !Answered(s, c, split) then (s, Requeue(2))
    else Follow(s, c.report.value, c, hash)
  }

  function EnginePass(s: State, c: EngineCalls, split: Splitter, hash: Hasher): (State, Outcome) {
    if s.engine.None? then (s, Done)
    else
      var (list, verdict) := Filled(s, c, split);
      if verdict == Broken then (s, Error)
      else if verdict == Absent then (s, Requeue(2))
      else if list != s.engine.value.replicas && !c.update then (s, Error)
      else
        var t := s.(engine := Some(s.engine.value.(replicas := list)));
        if verdict == NotReady then (t, Requeue(2)) else ReadyPass(t, c, split, hash)
  }

  class Controller {
    var engine: Option<EngineObject>
    var pod: Option<EnginePod>
    var sidecar: seq<Attachment>
    var replicas: map<string, Replica>
    var pods: map<string, Pod>

    constructor (s: State)
      ensures Contents() == s
    {
      engine, pod, sidecar, replicas, pods := s.engine, s.pod, s.sidecar, s.replicas, s.pods;
    }

    ghost function Contents(): State
      reads this
    {
      State(engine, pod, sidecar, replicas, pods)
    }

    /** Fill in the copy of the list a pass works on, in place, up to an attachment that stops it. */
    method FillIn(list: array<Attachment>, node: string, c: EngineCalls, split: Splitter)
      returns (verdict: Verdict, changed: bool)
      modifies list
      ensures (list[..], verdict) == Fill(Contents(), node, old(list[..]), list.Length, c, split)
      ensures changed <==> list[..] != old(list[..])
    {
      ghost var was := list[..];
      verdict, changed := AllReady, false;
      for i := 0 to list.Length
        invariant (list[..], verdict) == Fill(Contents(), node, was, i, c, split) && !Stops(verdict)
        invariant changed <==> list[..] != was
        invariant list[..][i..] == was[i..]
      {
        assert list[i] == list[..][i..][0] == was[i];
        var v, c1 := FillAt(list, i, node, c, split);
        assert c1 <==> list[i] != was[i];
        changed := changed || c1;
        assert (list[..], if Stops(v) then v else if verdict == AllReady then v else NotReady)
            == Fill(Contents(), node, was, i + 1, c, split);
        if Stops(v) {
          StopsAt(was, node, i + 1, c, split);
          return v, changed;
        }
        if v == NotReady {
          verdict := NotReady;
        }
      }
    }

    /** Fill in one attachment. */
    method FillAt(list: array<Attachment>, i: nat, node: string, c: EngineCalls, split: Splitter)
      returns (verdict: Verdict, changed: bool)
      requires i < list.Length
      modifies list
      ensures list[..] == old(list[..])[i := list[i]]
      ensures (list[i], verdict) == FillOne(Contents(), node, old(list[i]), i, c, split)
      ensures changed <==> list[i] != old(list[i])
    {
      changed := false;
      if !c.get(i) {
        return Broken, false;
      }
      var name := list[i].name;
      if name !in replicas {
        return Absent, false;
      }
      var replica := replicas[name];
      var isLocal := replica.spec.node == node;
      if list[i].isLocal != isLocal {
        list[i] := list[i].(isLocal := isLocal);
        changed := true;
      }
      if isLocal {
        return if replica.status.phase == ReplicaPhase.Running then AllReady else NotReady, changed;
      }
      if replica.status.phase != ReplicaPhase.Running || replica.status.nqn == "" || !(c.find(i) && PodName(name) in pods) {
        return NotReady, changed;
      }
      var parts := split(replica.status.endpoint);
      if parts.None? {
        return Broken, changed;
      }
      if list[i].nqn != replica.status.nqn || list[i].address != parts.value.host || list[i].port != parts.value.port {
        list[i] := list[i].(nqn := replica.status.nqn, address := parts.value.host, port := parts.value.port);
        changed := true;
      }
      return AllReady, changed;
    }

    lemma StopsAt(list: seq<Attachment>, node: string, n: nat, c: EngineCalls, split: Splitter)
      requires n <= |list| && Stops(Fill(Contents(), node, list, n, c, split).1)
      ensures Fill(Contents(), node, list, |list|, c, split) == Fill(Contents(), node, list, n, c, split)
      decreases |list| - n
    {
      if n < |list| {
        StopsAt(list, node, n + 1, c, split);
      }
    }

    method Reconcile(c: EngineCalls, split: Splitter, hash: Hasher) returns (out: Outcome)
      modifies this`engine, this`pod, this`sidecar
      ensures (Contents(), out) == EnginePass(old(Contents()), c, split, hash)
    {
      if engine.None? {
        return Done;
      }
      var e := engine.value;
      var list := new Attachment[|e.replicas|](i requires 0 <= i < |e.replicas| => e.replicas[i]);
      assert list[..] == e.replicas;
      var verdict, changed := FillIn(list, e.node, c, split);
      if verdict == Broken {
        return Error;
      }
      if verdict == Absent {
        return Requeue(2);
      }
      if changed {
        if !c.update {
          return Error;
        }
        engine := Some(e.(replicas := list[..]));
      }
      assert engine == Some(e.(replicas := list[..]));
      if verdict == NotReady {
        return Requeue(2);
      }
      out := ContinueReady(c, split, hash);
    }

    method ContinueReady(c: EngineCalls, split: Splitter, hash: Hasher) returns (out: Outcome)
      requires engine.Some?
      modifies this`engine, this`pod, this`sidecar
      ensures (Contents(), out) == ReadyPass(old(Contents()), c, split, hash)
    {
      var e := engine.value;
      if !e.status.podRef {
        if !c.create {
          return Error;
        }
        if pod.None? {
          pod := Some(EnginePod(e.replicas, "", []));
          sidecar := e.replicas;
        }
        out := Write(e.status.(podRef := true, phase := EnginePhase.Pending), c, Done);
        return;
      }
      var found, ready := PodInfo(c);
      if !found {
        out := Write(e.status.(podRef := false, phase := EnginePhase.Unset), c, Done);
        return;
      }
      if !ready || c.report.None? || !ValidEngineReport(c.report.value, split) {
        return Requeue(2);
      }
      var status := e.status.(endpoint := c.report.value.endpoint, subsystemNQN := c.report.value.subsystemNQN);
      var currentHash := hash(e.replicas);
      if status.lastHash != "" && status.lastHash != currentHash {
        if c.reconfigure != Refused {
          sidecar := e.replicas;
        }
        if c.reconfigure != Accepted {
          out := Write(status.(phase := EnginePhase.Degraded), c, Requeue(5));
          return;
        }
      }
      out := Write(status.(lastHash := currentHash, phase := EnginePhase.Running), c, Done);
    }

    method Write(status: EngineStatus, c: EngineCalls, wish: Outcome) returns (out: Outcome)
      requires engine.Some?
      modifies this`engine
      ensures (Contents(), out) == Store(old(Contents()), status, c, wish)
    {
      if !c.status {
        return Error;
      }
      engine := Some(engine.value.(status := status));
      return wish;
    }

    /** Whether the engine's pod can be read, and whether it has an address and ready containers. */
    method PodInfo(c: EngineCalls) returns (found: bool, ready: bool)
      ensures found <==> pod.Some? && c.read
      ensures ready <==> found && PodReady(pod.value)
    {
      if pod.None? || !c.read {
        return false, false;
      }
      ready := pod.value.ip != "";
      for i := 0 to |pod.value.containers|
        invariant ready <==> pod.value.ip != "" && forall k :: 0 <= k < i ==> pod.value.containers[k]
      {
        if !pod.value.containers[i] {
          ready := false;
          break;
        }
      }
      if |pod.value.containers| == 0 {
        ready := false;
      }
      return true, ready;
    }
  }

}
