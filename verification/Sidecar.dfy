/**
 The engine's sidecar: it builds the storage stack once and then changes the members of the mirror
 when the replica list changes. SPDK is a set of controllers with the targets they are connected to,
 and a set of mirror members; every call to it may fail, as the Faults say.
 */
module Sidecar {
  import opened Wrappers
  import opened Decimal
  import opened Types

  const LOCAL_BDEV := "aio0"
  const ATTEMPTS := 5

  /** The controller name for the replica at position i of a list. */
  function ControllerName(i: nat): string {
    "nvme" + Print(i)
  }

  /** Where a controller is connected to. */
  datatype Peer = Peer(nqn: string, address: string, port: string)

  function PeerOf(a: Attachment): Peer {
    Peer(a.nqn, a.address, a.port)
  }

  /**
   SPDK and the sidecar's own record. A controller's device is named after it with a suffix; the
   mirror exists once it was created, and lists its members by device name.
   */
  datatype Stack = Stack(suffix: string, controllers: map<string, Peer>, mirror: Option<set<string>>,
                         replicas: seq<Attachment>)

  /** Which calls succeed: by position and, for attaching, by attempt. */
  datatype Faults = Faults(info: bool, remove: nat -> bool, detach: nat -> bool,
                           attach: (nat, nat) -> bool, add: nat -> bool)

  // ---- Single calls ----

  /** Detaching a controller takes its device away, from the mirror too. */
  function Detached(s: Stack, name: string): Stack {
    s.(controllers := s.controllers - {name},
       mirror := if name in s.controllers && s.mirror.Some? then Some(s.mirror.value - {name + s.suffix}) else s.mirror)
  }

  /** One attach: an existing controller is detached and attached again. */
  function Attached(s: Stack, name: string, peer: Peer, ok: bool): Stack {
    var t := Detached(s, name);
    if ok then t.(controllers := t.controllers[name := peer]) else t
  }

  /** Adding a member needs the mirror, a device of that name, and that it is no member yet. */
  predicate CanAdd(s: Stack, name: string) {
    && s.mirror.Some?
    && name !in s.mirror.value
    && exists c :: c in s.controllers && c + s.suffix == name
  }

  function Added(s: Stack, name: string): Stack {
    if CanAdd(s, name) then s.(mirror := Some(s.mirror.value + {name})) else s
  }

  /** The first attempt that succeeds, or the number of attempts. */
  function FirstSuccess(f: Faults, i: nat, from: nat): (n: nat)
    requires from <= ATTEMPTS
    ensures from <= n <= ATTEMPTS
    ensures n < ATTEMPTS ==> f.attach(i, n)
    ensures forall k: nat :: from <= k < n ==> !f.attach(i, k)
    decreases ATTEMPTS - from
  {
    if from == ATTEMPTS || f.attach(i, from) then from else FirstSuccess(f, i, from + 1)
  }

  predicate Attaches(f: Faults, i: nat) {
    FirstSuccess(f, i, 0) < ATTEMPTS
  }

  // ---- The change of members ----

  predicate NamedIn(name: string, list: seq<Attachment>) {
    exists i :: 0 <= i < |list| && list[i].name == name
  }

  /** The devices the mirror reports, or none if it cannot be asked. */
  function Current(s: Stack, f: Faults): set<string> {
    if f.info && s.mirror.Some? then s.mirror.value else {}
  }

  predicate MustRemove(before: seq<Attachment>, list: seq<Attachment>, current: set<string>, i: nat)
    requires i < |before|
  {
    !before[i].isLocal && !NamedIn(before[i].name, list) && ControllerName(i) in current
  }

  function RemoveOne(s: Stack, i: nat, f: Faults): Stack {
    var name := ControllerName(i);
    var t := if f.remove(i) && s.mirror.Some? then s.(mirror := Some(s.mirror.value - {name})) else s;
    if f.detach(i) then Detached(t, name) else t
  }

  /** Removals for the old positions below n. */
  function Removals(s: Stack, list: seq<Attachment>, current: set<string>, f: Faults, n: nat): (t: Stack)
    requires n <= |s.replicas|
    ensures t.replicas == s.replicas && t.suffix == s.suffix
  {
    if n == 0 then s
    else
      var t := Removals(s, list, current, f, n - 1);
      if MustRemove(s.replicas, list, current, n - 1) then RemoveOne(t, n - 1, f) else t
  }

  predicate MustAdd(list: seq<Attachment>, current: set<string>, i: nat)
    requires i < |list|
  {
    !list[i].isLocal && ControllerName(i) !in current
  }

  /** One addition: attach with retries, then add to the mirror. */
  function AddOne(s: Stack, a: Attachment, i: nat, f: Faults): (r: (Stack, bool))
    ensures r.0.replicas == s.replicas && r.0.suffix == s.suffix
  {
    var name := ControllerName(i);
    var t := Attached(s, name, PeerOf(a), Attaches(f, i));
    if Attaches(f, i) && f.add(i) && CanAdd(t, name) then (Added(t, name), true) else (t, false)
  }

  /** Additions for the new positions below n, up to the first failure. */
  function Additions(s: Stack, list: seq<Attachment>, current: set<string>, f: Faults, n: nat): (r: (Stack, bool))
    requires n <= |list|
    ensures r.0.replicas == s.replicas && r.0.suffix == s.suffix
  {
    if n == 0 then (s, true)
    else
      var (t, ok) := Additions(s, list, current, f, n - 1);
      if ok && MustAdd(list, current, n - 1) then AddOne(t, list[n - 1], n - 1, f) else (t, ok)
  }

  /** The whole change: the stack after it, and whether it succeeded. */
  function Reconfigured(s: Stack, list: seq<Attachment>, f: Faults): (r: (Stack, bool))
    ensures r.0.suffix == s.suffix
    ensures r.0.replicas == if r.1 then list else s.replicas
  {
    var current := Current(s, f);
    var removed := Removals(s, list, current, f, |s.replicas|);
    var (t, ok) := Additions(removed, list, current, f, |list|);
    (if ok then t.(replicas := list) else t, ok)
  }

  class Engine {
    const suffix: string
    var controllers: map<string, Peer>
    var mirror: Option<set<string>>
    var replicas: seq<Attachment>
    /** Attach calls made, by position, in order. */
    var calls: seq<nat>
    /** What clients can reach of the stack. */
    var target: Target

    constructor (suffix: string)
      ensures this.suffix == suffix && Contents() == Stack(suffix, map[], None, []) && calls == [] && target == NO_TARGET
    {
      this.suffix := suffix;
      controllers, mirror, replicas, calls, target := map[], None, [], [], NO_TARGET;
    }

    ghost function Contents(): Stack
      reads this
    {
      Stack(suffix, controllers, mirror, replicas)
    }

    method Detach(name: string)
      modifies this`controllers, this`mirror
      ensures Contents() == Detached(old(Contents()), name)
    {
      if name in controllers && mirror.Some? {
        mirror := Some(mirror.value - {name + suffix});
      }
      controllers := controllers - {name};
    }

    lemma DetachedTwice(s: Stack, name: string)
      ensures Detached(Detached(s, name), name) == Detached(s, name)
    {
      assert s.controllers - {name} - {name} == s.controllers - {name};
    }

    /** Up to five attempts to attach a controller. */
    method AttachWithRetries(name: string, peer: Peer, i: nat, f: Faults) returns (attached: bool)
      modifies this`controllers, this`mirror, this`calls
      ensures attached <==> Attaches(f, i)
      ensures Contents() == Attached(old(Contents()), name, peer, attached)
      ensures calls == old(calls) + Repeat(i, AttemptsMade(f, i))
    {
      ghost var s := Contents();
      attached := false;
      var attempt := 0;
      while attempt < ATTEMPTS
        invariant attempt <= ATTEMPTS && FirstSuccess(f, i, 0) == FirstSuccess(f, i, attempt) && !attached
        invariant Contents() == if attempt == 0 then s else Detached(s, name)
        invariant calls == old(calls) + Repeat(i, attempt)
      {
        DetachedTwice(s, name);
        Detach(name);
        calls := calls + [i];
        assert calls == old(calls) + Repeat(i, attempt + 1);
        if f.attach(i, attempt) {
          controllers := controllers[name := peer];
          attached := true;
          break;
        }
        attempt := attempt + 1;
      }
    }

    /** Change the members of the mirror to follow a new replica list, without tearing the stack down. */
    method Reconfigure(list: seq<Attachment>, f: Faults) returns (ok: bool)
      modifies this`controllers, this`mirror, this`calls, this`replicas
      ensures (Contents(), ok) == Reconfigured(old(Contents()), list, f)
    {
      var current: set<string> := {};
      if f.info && mirror.Some? {
        current := mirror.value;
      }
      RemoveStale(list, current, f);
      ok := AddMissing(list, current, f);
      if ok {
        replicas := list;
      }
    }

    /** Remove the old replicas that are not in the new list; failures are only logged. */
    method RemoveStale(list: seq<Attachment>, current: set<string>, f: Faults)
      modifies this`controllers, this`mirror
      ensures Contents() == Removals(old(Contents()), list, current, f, |replicas|)
    {
      ghost var s := Contents();
      for i := 0 to |replicas|
        invariant Contents() == Removals(s, list, current, f, i)
      {
        if replicas[i].isLocal {
          continue;
        }
        var name := ControllerName(i);
        var needed := IsNeeded(replicas[i].name, list);
        if !needed && name in current {
          if f.remove(i) && mirror.Some? {
            mirror := Some(mirror.value - {name});
          }
          if f.detach(i) {
            Detach(name);
          }
        }
      }
    }

    method IsNeeded(name: string, list: seq<Attachment>) returns (needed: bool)
      ensures needed <==> NamedIn(name, list)
    {
      for k := 0 to |list|
        invariant forall i :: 0 <= i < k ==> list[i].name != name
      {
        if list[k].name == name {
          return true;
        }
      }
      return false;
    }

    /** Add the new replicas that are not members; the first failure ends the call. */
    method AddMissing(list: seq<Attachment>, current: set<string>, f: Faults) returns (ok: bool)
      modifies this`controllers, this`mirror, this`calls
      ensures (Contents(), ok) == Additions(old(Contents()), list, current, f, |list|)
    {
      ghost var s := Contents();
      for i := 0 to |list|
        invariant Additions(s, list, current, f, i) == (Contents(), true)
      {
        if list[i].isLocal {
          continue;
        }
        var name := ControllerName(i);
        if name in current {
          continue;
        }
        var attached := AttachWithRetries(name, PeerOf(list[i]), i, f);
        if attached && f.add(i) && mirror.Some? && name !in mirror.value
           && exists c :: c in controllers && c + suffix == name {
          mirror := Some(mirror.value + {name});
        } else {
          StopsAt(s, list, current, f, i + 1);
          return false;
        }
      }
      return true;
    }

    lemma StopsAt(s: Stack, list: seq<Attachment>, current: set<string>, f: Faults, n: nat)
      requires n <= |list| && !Additions(s, list, current, f, n).1
      ensures Additions(s, list, current, f, |list|) == Additions(s, list, current, f, n)
      decreases |list| - n
    {
      if n < |list| {
        StopsAt(s, list, current, f, n + 1);
      }
    }

    /**
     Build the stack: attach every remote replica with an endpoint, mirror what attached, export it. A
     call that fails ends it and leaves what was built so far.
     */
    method Configure(list: seq<Attachment>, f: Faults, g: SetupFaults) returns (ok: bool)
      requires controllers == map[] && mirror == None && calls == [] && target == NO_TARGET
      modifies this
      ensures ok <==> Stacked(list, suffix, f, g) && g.subsystem && g.namespace && g.listener
      ensures ok ==> Contents() == SetupStack(suffix, list, f)
      ensures ok ==> target == Target(true, Some(if Bases(list, suffix, f, |list|) == [] then "aio0" else "raid0"), true)
      ensures !ok ==> replicas == old(replicas)
      ensures if g.transport && g.aio
              then calls == AttachCalls(list, f, |list|) && controllers == Connections(list, f, |list|)
                   && mirror == if g.mirror then MirrorOf(list, suffix, f) else None
              else calls == [] && controllers == map[] && mirror == None
      ensures target == if Stacked(list, suffix, f, g) then TargetOf(ExportOf(list, suffix, f), g) else NO_TARGET
    {
      if !g.transport || !g.aio {
        return false;
      }
      var baseBdevs := AttachReplicas(list, f);
      var exportBdev: string;
      if |baseBdevs| <= 1 {
        exportBdev := LOCAL_BDEV;
      } else {
        if !g.mirror {
          return false;
        }
        mirror := Some(set x | x in baseBdevs);
        exportBdev := "raid0";
      }
      ok := Export(exportBdev, g);
      if ok {
        replicas := list;
      }
    }

    /** The devices to mirror: the local one and what can be attached. */
    method AttachReplicas(list: seq<Attachment>, f: Faults) returns (baseBdevs: seq<string>)
      requires controllers == map[] && mirror == None && calls == []
      modifies this`controllers, this`mirror, this`calls
      ensures controllers == Connections(list, f, |list|) && mirror == None
      ensures baseBdevs == [LOCAL_BDEV] + Bases(list, suffix, f, |list|)
      ensures calls == AttachCalls(list, f, |list|)
    {
      baseBdevs := [LOCAL_BDEV];
      for i := 0 to |list|
        invariant controllers == Connections(list, f, i) && mirror == None
        invariant baseBdevs == [LOCAL_BDEV] + Bases(list, suffix, f, i)
        invariant calls == AttachCalls(list, f, i)
      {
        if list[i].isLocal {
          continue;
        }
        if list[i].address == "" || list[i].nqn == "" {
          continue;
        }
        var name := ControllerName(i);
        ConnectionNames(list, f, i);
        assert controllers - {name} == controllers;
        var attached := AttachWithRetries(name, PeerOf(list[i]), i, f);
        if attached {
          baseBdevs := baseBdevs + [name + suffix];
        }
      }
    }

    /** Export a device step by step: a subsystem, its namespace, a listener. */
    method Export(device: string, g: SetupFaults) returns (ok: bool)
      requires target == NO_TARGET
      modifies this`target
      ensures target == TargetOf(device, g) && ok == target.listening
    {
      if !g.subsystem {
        return false;
      }
      target := target.(subsystem := true);
      if !g.namespace {
        return false;
      }
      target := target.(namespace := Some(device));
      if !g.listener {
        return false;
      }
      target := target.(listening := true);
      return true;
    }

    /** Before position n is reached, its controller is not there. */
    lemma {:induction false} ConnectionNames(list: seq<Attachment>, f: Faults, n: nat)
      requires n <= |list|
      ensures forall m: nat :: m >= n ==> ControllerName(m) !in Connections(list, f, n)
    {
      if n > 0 {
        ConnectionNames(list, f, n - 1);
        forall m: nat | m >= n ensures ControllerName(m) != ControllerName(n - 1) {
          ControllerNameInjective(m, n - 1);
        }
      }
    }
  }

  lemma ControllerNameInjective(i: nat, j: nat)
    ensures ControllerName(i) == ControllerName(j) ==> i == j
  {
    if ControllerName(i) == ControllerName(j) {
      assert ControllerName(i)[4..] == Print(i) && ControllerName(j)[4..] == Print(j);
      PrintInjective(i, j);
    }
  }

  // ---- Building the stack ----

  datatype SetupFaults = SetupFaults(transport: bool, aio: bool, mirror: bool, subsystem: bool,
                                     namespace: bool, listener: bool)

  /** The export to clients: the subsystem, the device in its namespace, and whether it listens. */
  datatype Target = Target(subsystem: bool, namespace: Option<string>, listening: bool)

  const NO_TARGET := Target(false, None, false)

  /** How far the export of a device gets. */
  function TargetOf(device: string, g: SetupFaults): Target {
    Target(g.subsystem, if g.subsystem && g.namespace then Some(device) else None,
           g.subsystem && g.namespace && g.listener)
  }

  /** The setup gets as far as having a device to export. */
  predicate Stacked(list: seq<Attachment>, suffix: string, f: Faults, g: SetupFaults) {
    g.transport && g.aio && (MirrorOf(list, suffix, f).Some? ==> g.mirror)
  }

  /** The device to export: the mirror if there is one. */
  function ExportOf(list: seq<Attachment>, suffix: string, f: Faults): string {
    if MirrorOf(list, suffix, f).Some? then "raid0" else LOCAL_BDEV
  }

  /** A remote replica with an endpoint, which the first setup tries to attach. */
  predicate Attemptable(a: Attachment) {
    !a.isLocal && a.address != "" && a.nqn != ""
  }

  function Connections(list: seq<Attachment>, f: Faults, n: nat): map<string, Peer>
    requires n <= |list|
  {
    if n == 0 then map[]
    else if Attemptable(list[n - 1]) && Attaches(f, n - 1)
    then Connections(list, f, n - 1)[ControllerName(n - 1) := PeerOf(list[n - 1])]
    else Connections(list, f, n - 1)
  }

  /** The devices that attached, in order. */
  function Bases(list: seq<Attachment>, suffix: string, f: Faults, n: nat): seq<string>
    requires n <= |list|
  {
    if n == 0 then []
    else
      Bases(list, suffix, f, n - 1) +
      if Attemptable(list[n - 1]) && Attaches(f, n - 1) then [ControllerName(n - 1) + suffix] else []
  }

  function MirrorOf(list: seq<Attachment>, suffix: string, f: Faults): Option<set<string>> {
    var bases := Bases(list, suffix, f, |list|);
    if bases == [] then None else Some(set x | x in [LOCAL_BDEV] + bases)
  }

  /** The stack that a successful setup leaves. */
  function SetupStack(suffix: string, list: seq<Attachment>, f: Faults): Stack {
    Stack(suffix, Connections(list, f, |list|), MirrorOf(list, suffix, f), list)
  }

  function AttachCalls(list: seq<Attachment>, f: Faults, n: nat): seq<nat>
    requires n <= |list|
  {
    if n == 0 then []
    else
      AttachCalls(list, f, n - 1) +
      if Attemptable(list[n - 1]) then Repeat(n - 1, AttemptsMade(f, n - 1)) else []
  }

  function Repeat(i: nat, n: nat): (r: seq<nat>)
    ensures |r| == n && forall k :: 0 <= k < n ==> r[k] == i
  {
    seq(n, _ => i)
  }

  function AttemptsMade(f: Faults, i: nat): nat {
    if Attaches(f, i) then FirstSuccess(f, i, 0) + 1 else ATTEMPTS
  }

}
