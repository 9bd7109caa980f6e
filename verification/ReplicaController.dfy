/**
 The replica controller of one replica: it has the backing file made, runs a pod for a remote replica
 and records the endpoint the pod's sidecar reports.
 */
module ReplicaController {
  import opened Wrappers
  import opened Names
  import opened Types
  import opened Plan

  // ---- What a sidecar reports ----

  datatype SidecarStatus = SidecarStatus(role: string, replicaNQN: string, subsystemNQN: string, endpoint: string)

  datatype HostPort = HostPort(host: string, port: string)

  /** Splitting an endpoint into host and port, which may fail. */
  type Splitter = string -> Option<HostPort>

  predicate IsSpace(c: char) {
    || '\t' <= c <= '\r' || c == ' ' || c == '\U{85}' || c == '\U{A0}' || c == '\U{1680}'
    || '\U{2000}' <= c <= '\U{200A}' || c in ['\U{2028}', '\U{2029}', '\U{202F}', '\U{205F}', '\U{3000}']
  }

  /** Nothing is left after trimming. */
  predicate Blank(s: string) {
    forall i :: 0 <= i < |s| ==> IsSpace(s[i])
  }

  predicate ValidEndpoint(endpoint: string, split: Splitter) {
    && !Blank(endpoint)
    && split(endpoint).Some?
    && !Blank(split(endpoint).value.host)
    && !Blank(split(endpoint).value.port)
  }

  predicate ValidReplicaReport(r: SidecarStatus, split: Splitter) {
    r.role == "replica" && !Blank(r.replicaNQN) && ValidEndpoint(r.endpoint, split)
  }

  predicate ValidEngineReport(r: SidecarStatus, split: Splitter) {
    r.role == "engine" && !Blank(r.subsystemNQN) && ValidEndpoint(r.endpoint, split)
  }

  // ---- A pass ----

  /** The stored object and its pod. */
  datatype Pair = Pair(replica: Option<Replica>, pod: Option<Pod>)

  /**
   Which calls of a pass succeed, and what the sidecar answers. A crash is a call that fails. A pass
   reads the pod twice, before and after it had the backing file made; `seen` is the pod as it is the
   second time, with whatever happened to it in between.
   */
  datatype Calls = Calls(look: bool, agent: bool, create: bool, read: bool, seen: Option<Pod>,
                         report: Option<SidecarStatus>, delete: bool, status: bool)

  datatype Outcome = Done | Requeue(seconds: nat) | Error

  predicate Serving(pod: Option<Pod>) {
    pod.Some? && pod.value.ip != ""
  }

  /** A running remote replica whose pod has an address is left alone. */
  predicate LeftAlone(p: Pair, c: Calls) {
    && p.replica.Some? && p.replica.value.status.phase == ReplicaPhase.Running
    && p.replica.value.spec.rtype == Remote && c.look && Serving(p.pod)
  }

  function Recorded(p: Pair, nqn: string, endpoint: string, c: Calls): (Pair, Outcome)
    requires p.replica.Some?
  {
    if c.status
    then (p.(replica := Some(p.replica.value.(status := ReplicaStatus(ReplicaPhase.Running, nqn, endpoint)))), Done)
    else (p, Error)
  }

  function ReplicaPass(p: Pair, c: Calls, split: Splitter): (Pair, Outcome) {
    if p.replica.None? || LeftAlone(p, c) then (p, Done)
    else if !c.agent then (p, Error)
    else if p.replica.value.spec.rtype == Remote then
      if !c.create then (p, Error)
      else if !c.read then (if p.pod.None? then p.(pod := Some(Pod(PodPending, ""))) else p, Error)
      else
        var q := p.(pod := c.seen);
        if !Serving(q.pod) || c.report.None? || !ValidReplicaReport(c.report.value, split) then (q, Requeue(2))
        else Recorded(q, c.report.value.replicaNQN, c.report.value.endpoint, c)
    else if !c.read then Recorded(p, "", "", c)
    else if c.seen.Some? && !c.delete then (p.(pod := c.seen), Error)
    else Recorded(p.(pod := None), "", "", c)
  }

  class Controller {
    var replica: Option<Replica>
    var pod: Option<Pod>

    constructor (replica: Option<Replica>, pod: Option<Pod>)
      ensures Contents() == Pair(replica, pod)
    {
      this.replica, this.pod := replica, pod;
    }

    ghost function Contents(): Pair
      reads this
    {
      Pair(replica, pod)
    }

    method Reconcile(c: Calls, split: Splitter) returns (out: Outcome)
      modifies this
      ensures (Contents(), out) == ReplicaPass(old(Contents()), c, split)
    {
      if replica.None? {
        return Done;
      }
      var r := replica.value;
      if r.status.phase == ReplicaPhase.Running && r.spec.rtype == Remote {
        if c.look && pod.Some? && pod.value.ip != "" {
          return Done;
        }
      }
      if !c.agent {
        return Error;
      }
      if r.spec.rtype == Remote {
        if !c.create {
          return Error;
        }
        if pod.None? {
          pod := Some(Pod(PodPending, ""));
        }
        if !c.read {
          return Error;
        }
        pod := c.seen;
        if pod.None? || pod.value.ip == "" {
          return Requeue(2);
        }
        if c.report.None? || !ValidReplicaReport(c.report.value, split) {
          return Requeue(2);
        }
        r := r.(status := r.status.(nqn := c.report.value.replicaNQN, endpoint := c.report.value.endpoint));
      } else {
        if c.read {
          pod := c.seen;
          if pod.Some? {
            if !c.delete {
              return Error;
            }
            pod := None;
          }
        }
        r := r.(status := r.status.(nqn := "", endpoint := ""));
      }
      r := r.(status := r.status.(phase := ReplicaPhase.Running));
      if !c.status {
        return Error;
      }
      replica := Some(r);
      return Done;
    }
  }

  // ---- Runs ----

  /** The recorded endpoint is complete and valid, or there is none at all. */
  predicate Endpointed(status: ReplicaStatus, split: Splitter) {
    if status.nqn == "" then status.endpoint == ""
    else status.phase == ReplicaPhase.Running && !Blank(status.nqn) && ValidEndpoint(status.endpoint, split)
  }

  datatype Event = Pass(calls: Calls) | Environment

  /** Others create objects without a status, delete them and change their spec; pods change in any way. */
  predicate OthersStep(p: Pair, q: Pair) {
    q.replica.Some? ==>
      || q.replica.value.status == ReplicaStatus(ReplicaPhase.Unset, "", "")
      || (p.replica.Some? && q.replica.value.status == p.replica.value.status)
  }

  predicate Next(p: Pair, e: Event, q: Pair, split: Splitter) {
    match e
    case Pass(c) => q == ReplicaPass(p, c, split).0
    case Environment => OthersStep(p, q)
  }

  predicate IsRun(ps: seq<Pair>, es: seq<Event>, split: Splitter) {
    |ps| == |es| + 1 && forall i :: 0 <= i < |es| ==> Next(ps[i], es[i], ps[i + 1], split)
  }

  /** In every run the NQN and the endpoint are both empty or both valid, and empty before Running. */
  lemma {:induction false} EndpointsOverRuns(ps: seq<Pair>, es: seq<Event>, split: Splitter, i: nat)
    requires IsRun(ps, es, split) && i < |ps|
    requires ps[0].replica.Some? ==> ps[0].replica.value.status == ReplicaStatus(ReplicaPhase.Unset, "", "")
    ensures ps[i].replica.Some? ==> Endpointed(ps[i].replica.value.status, split)
  {
    if i > 0 {
      EndpointsOverRuns(ps, es, split, i - 1);
      assert Next(ps[i - 1], es[i - 1], ps[i], split);
    }
  }

  predicate RunningRemote(p: Pair) {
    p.replica.Some? && p.replica.value.status.phase == ReplicaPhase.Running && p.replica.value.spec.rtype == Remote
  }

  /**
   Exactly when a pass changes what is recorded for a running remote replica: its first look shows no
   address, because it fails, finds no pod or one without an address, and the second read shows a pod
   with one, whose sidecar reports something else that is valid.
   */
  lemma WhenAnEndpointChanges(p: Pair, c: Calls, split: Splitter)
    requires RunningRemote(p)
    ensures var q := ReplicaPass(p, c, split).0;
            && RunningRemote(q)
            && (q.replica != p.replica <==>
                  && !(c.look && Serving(p.pod)) && c.agent && c.create && c.read && Serving(c.seen) && c.status
                  && c.report.Some? && ValidReplicaReport(c.report.value, split)
                  && (c.report.value.replicaNQN != p.replica.value.status.nqn
                      || c.report.value.endpoint != p.replica.value.status.endpoint))
  {
    var q := ReplicaPass(p, c, split).0;
    if q.replica.value == p.replica.value {
      assert q.replica.value.status == p.replica.value.status;
    }
  }

  /** The first look succeeds, and no address turns up between it and the second read. */
  predicate SeesNoNewAddress(p: Pair, c: Calls) {
    c.look && (Serving(p.pod) || !Serving(c.seen))
  }

  /**
   A running remote replica keeps the endpoint it was first recorded with for as long as it stays
   remote, however often its pod is replaced and whatever address the new pod has, unless a pod gets
   its address just between the two reads of a pass: otherwise a pass asks the sidecar only while the
   pod has no address yet, and then there is none to ask.
   */
  lemma {:induction false} EndpointsAreNotRefreshed(ps: seq<Pair>, es: seq<Event>, split: Splitter, i: nat)
    requires IsRun(ps, es, split) && i < |ps| && RunningRemote(ps[0])
    requires forall k :: 0 <= k < |es| ==> es[k].Pass? ==> SeesNoNewAddress(ps[k], es[k].calls)
    requires forall k :: 0 <= k < |es| ==> es[k].Environment? ==>
               ps[k + 1].replica.Some? && ps[k + 1].replica.value.spec.rtype == Remote
               && (ps[k].replica.Some? ==> ps[k + 1].replica.value.status == ps[k].replica.value.status)
    ensures ps[i].replica.Some? && ps[i].replica.value.status == ps[0].replica.value.status && RunningRemote(ps[i])
  {
    if i > 0 {
      EndpointsAreNotRefreshed(ps, es, split, i - 1);
      assert Next(ps[i - 1], es[i - 1], ps[i], split);
      if es[i - 1].Pass? {
        WhenAnEndpointChanges(ps[i - 1], es[i - 1].calls, split);
      }
    }
  }

  /** After a completed pass on a local replica its pod is gone and no healing pass counts it as healthy. */
  lemma LocalIsNeverHealthy(p: Pair, c: Calls, split: Splitter, w: World, name: string)
    requires p.replica.Some? && p.replica.value.spec.rtype == Local
    requires name in w.replicas && ReplicaPass(p, c, split).1 == Done
    requires ReplicaPass(p, c, split).0.replica == Some(w.replicas[name])
    ensures !Healthy(w, name) && w.replicas[name].status.phase == ReplicaPhase.Running
    ensures c.read ==> ReplicaPass(p, c, split).0.pod.None?
  {
    assert ReplicaPass(p, c, split).0.replica.value.status.nqn == "";
  }

  /**
   A pass on a remote replica that is not left alone records what a valid report of a replica's sidecar
   says, exactly if every call succeeds and the pod has an address at the second read. Short of that it
   changes nothing on record; while the pod does not answer it comes back in two seconds.
   */
  lemma RemoteIsRecorded(p: Pair, c: Calls, split: Splitter)
    requires p.replica.Some? && p.replica.value.spec.rtype == Remote && !LeftAlone(p, c)
    ensures var ((q, out), called) := (ReplicaPass(p, c, split), c.agent && c.create && c.read);
            var answered := Serving(c.seen) && c.report.Some? && ValidReplicaReport(c.report.value, split);
            && out == (if !called then Error else if !answered then Requeue(2) else if c.status then Done else Error)
            && (if out == Done then
                  q.replica == Some(p.replica.value.(status :=
                    ReplicaStatus(ReplicaPhase.Running, c.report.value.replicaNQN, c.report.value.endpoint)))
                else q.replica == p.replica)
            && (answered ==> c.report.value.role == "replica" && !Blank(c.report.value.replicaNQN))
            && (called ==> q.pod == c.seen)
            && (c.agent && c.create && !c.read ==> q.pod.Some?)
  {
  }

  /**
   A pass on a local replica completes exactly if its backing file is made, its pod, if one is seen, is
   deleted, and the status is stored; it then records Running without an endpoint.
   */
  lemma LocalIsRecorded(p: Pair, c: Calls, split: Splitter)
    requires p.replica.Some? && p.replica.value.spec.rtype == Local
    ensures var (q, out) := ReplicaPass(p, c, split);
            && (out == Done <==> c.agent && (c.read && c.seen.Some? ==> c.delete) && c.status)
            && (out != Done ==> out == Error && q.replica == p.replica)
            && (out == Done ==>
                  && q.replica == Some(p.replica.value.(status := ReplicaStatus(ReplicaPhase.Running, "", "")))
                  && q.pod == if c.read then None else p.pod)
  {
  }

}
