/** The snapshot controller: the phases of a snapshot, its finalizer, and the requests made for its file. */
module Snapshots {
  import opened Wrappers
  import opened Names

  const FINALIZER := "storage.krea.to/snapshot-protection"

  datatype Phase = Unset | Pending | Creating | Ready | Failed

  datatype Status = Status(phase: Phase, path: string, node: string, size: int, created: Option<int>, ready: bool)

  datatype Snapshot = Snapshot(volume: string, id: string, deleting: bool, finalizers: seq<string>, status: Status)

  /** A request to the sidecar in the engine's pod, or to the agent on a node. */
  datatype Request = MakeFile(id: string) | DeleteFile(node: string, path: string)

  /** The stored snapshot, if it exists, and the requests sent for it so far. */
  datatype State = State(snapshot: Option<Snapshot>, sent: seq<Request>)

  datatype File = File(path: string, size: int)

  /** The sidecar's answer: a status code, and a body that can be decoded or not. */
  datatype Answer = Answer(code: int, body: Option<File>)

  /** What looking up the engine gives: its node, no such object, or an error. */
  datatype Lookup = Found(node: string) | NotFound | LookupError

  /** The calls of a pass. A crash is a call that fails. */
  datatype Calls = Calls(engine: Lookup, address: bool, answer: Option<Answer>, agent: bool, update: bool, status: bool,
                         now: int)

  datatype Outcome = Done | Requeue(seconds: nat) | Error

  const OK := 200

  // ---- Finalizers ----

  function Removed(list: seq<string>, s: string): (r: seq<string>)
    ensures s !in r
    ensures forall x :: x != s ==> multiset(r)[x] == multiset(list)[x]
  {
    if list == [] then []
    else
      var n := |list| - 1;
      assert list == list[..n] + [list[n]];
      Removed(list[..n], s) + if list[n] == s then [] else [list[n]]
  }

  predicate Protected(s: Snapshot) {
    FINALIZER in s.finalizers
  }

  /** A deleted object goes away with its last finalizer. */
  function Stored(s: Snapshot): Option<Snapshot> {
    if s.deleting && s.finalizers == [] then None else Some(s)
  }

  // ---- A pass ----

  function WithStatus(s: State, status: Status, c: Calls, out: Outcome): (State, Outcome)
    requires s.snapshot.Some?
  {
    if c.status then (s.(snapshot := Some(s.snapshot.value.(status := status))), out) else (s, Error)
  }

  function Start(s: State, c: Calls): (State, Outcome)
    requires s.snapshot.Some?
  {
    var status := s.snapshot.value.status;
    match c.engine
    case Found(node) => WithStatus(s, status.(node := node, phase := Creating), c, Done)
    case NotFound => (WithStatus(s, status.(phase := Failed), c, Done).0, Done)
    case LookupError => (WithStatus(s, status.(phase := Failed), c, Done).0, Error)
  }

  function Poll(s: State, c: Calls): (State, Outcome)
    requires s.snapshot.Some?
  {
    var snap := s.snapshot.value;
    if !c.engine.Found? || !c.address then (s, Requeue(2))
    else
      var t := s.(sent := s.sent + [MakeFile(snap.id)]);
      if c.answer.None? then (t, Requeue(2))
      else if c.answer.value.code != OK || c.answer.value.body.None? then
        WithStatus(t, snap.status.(phase := Failed), c, Done)
      else
        var file := c.answer.value.body.value;
        WithStatus(t, snap.status.(phase := Ready, ready := true, path := file.path, size := file.size,
              created := Some(c.now)), c, Done)
  }

  /** The file a deletion asks an agent to remove. */
  predicate KnowsFile(s: Snapshot) {
    s.status.path != "" && s.status.node != ""
  }

  function Delete(s: State, c: Calls): (State, Outcome)
    requires s.snapshot.Some?
  {
    var snap := s.snapshot.value;
    var t := if KnowsFile(snap) && c.agent then s.(sent := s.sent + [DeleteFile(snap.status.node, snap.status.path)]) else s;
    if !Protected(snap) then (t, Done)
    else if !c.update then (t, Error)
    else (t.(snapshot := Stored(snap.(finalizers := Removed(snap.finalizers, FINALIZER)))), Done)
  }

  function SnapshotPass(s: State, c: Calls): (State, Outcome) {
    if s.snapshot.None? then (s, Done)
    else
      var snap := s.snapshot.value;
      if snap.deleting then Delete(s, c)
      else if !Protected(snap) then
        if c.update then (s.(snapshot := Some(snap.(finalizers := snap.finalizers + [FINALIZER]))), Done) else (s, Error)
      else match snap.status.phase
        case Unset => WithStatus(s, snap.status.(phase := Pending), c, Done)
        case Pending => Start(s, c)
        case Creating => Poll(s, c)
        case _ => (s, Done)
  }

  class Controller {
    var snapshot: Option<Snapshot>
    var sent: seq<Request>

    constructor (snapshot: Option<Snapshot>)
      ensures Contents() == State(snapshot, [])
    {
      this.snapshot, sent := snapshot, [];
    }

    ghost function Contents(): State
      reads this
    {
      State(snapshot, sent)
    }

    method Reconcile(c: Calls) returns (out: Outcome)
      modifies this
      ensures (Contents(), out) == SnapshotPass(old(Contents()), c)
    {
      if snapshot.None? {
        return Done;
      }
      var snap := snapshot.value;
      if snap.deleting {
        out := ReconcileDelete(c);
        return;
      }
      var protected := ContainsString(snap.finalizers, FINALIZER);
      if !protected {
        if !c.update {
          return Error;
        }
        snapshot := Some(snap.(finalizers := snap.finalizers + [FINALIZER]));
        return Done;
      }
      match snap.status.phase {
        case Unset => out := Write(snap.status.(phase := Pending), c);
        case Pending => out := StartCreate(c);
        case Creating => out := PollCreate(c);
        case Ready => out := Done;
        case Failed => out := Done;
      }
    }

    method Write(status: Status, c: Calls) returns (out: Outcome)
      requires snapshot.Some?
      modifies this`snapshot
      ensures (Contents(), out) == WithStatus(old(Contents()), status, c, Done)
    {
      if !c.status {
        return Error;
      }
      snapshot := Some(snapshot.value.(status := status));
      return Done;
    }

    method StartCreate(c: Calls) returns (out: Outcome)
      requires snapshot.Some?
      modifies this`snapshot
      ensures (Contents(), out) == Start(old(Contents()), c)
    {
      var status := snapshot.value.status;
      if !c.engine.Found? {
        var _ := Write(status.(phase := Failed), c);
        return if c.engine.NotFound? then Done else Error;
      }
      status := status.(node := c.engine.node);
      status := status.(phase := Creating);
      out := Write(status, c);
    }

    method PollCreate(c: Calls) returns (out: Outcome)
      requires snapshot.Some?
      modifies this
      ensures (Contents(), out) == Poll(old(Contents()), c)
    {
      var status := snapshot.value.status;
      if !c.engine.Found? || !c.address {
        return Requeue(2);
      }
      sent := sent + [MakeFile(snapshot.value.id)];
      if c.answer.None? {
        return Requeue(2);
      }
      if c.answer.value.code != OK {
        out := Write(status.(phase := Failed), c);
        return;
      }
      if c.answer.value.body.None? {
        out := Write(status.(phase := Failed), c);
        return;
      }
      var file := c.answer.value.body.value;
      status := status.(phase := Ready);
      status := status.(ready := true);
      status := status.(path := file.path, size := file.size, created := Some(c.now));
      out := Write(status, c);
    }

    method ReconcileDelete(c: Calls) returns (out: Outcome)
      requires snapshot.Some?
      modifies this
      ensures (Contents(), out) == Delete(old(Contents()), c)
    {
      var snap := snapshot.value;
      if snap.status.path != "" && snap.status.node != "" {
        if c.agent {
          sent := sent + [DeleteFile(snap.status.node, snap.status.path)];
        }
      }
      var protected := ContainsString(snap.finalizers, FINALIZER);
      if protected {
        var rest := RemoveString(snap.finalizers, FINALIZER);
        if !c.update {
          return Error;
        }
        snapshot := Stored(snap.(finalizers := rest));
      }
      return Done;
    }

    static method ContainsString(list: seq<string>, s: string) returns (found: bool)
      ensures found <==> s in list
    {
      for i := 0 to |list|
        invariant s !in list[..i]
      {
        if list[i] == s {
          return true;
        }
      }
      return false;
    }

    static method RemoveString(list: seq<string>, s: string) returns (rest: seq<string>)
      ensures rest == Removed(list, s)
    {
      rest := [];
      for i := 0 to |list|
        invariant rest == Removed(list[..i], s)
      {
        assert list[..i + 1][..i] == list[..i];
        if list[i] != s {
          rest := rest + [list[i]];
        }
      }
      assert list[..|list|] == list;
    }
  }

  // ---- Runs ----

  datatype Event = Pass(calls: Calls) | UserDelete | OthersChange

  /** A user deletes the snapshot; others add or drop finalizers of their own. */
  predicate Next(s: State, e: Event, t: State) {
    match e
    case Pass(c) => t == SnapshotPass(s, c).0
    case UserDelete =>
      t == if s.snapshot.Some? then s.(snapshot := Stored(s.snapshot.value.(deleting := true))) else s
    case OthersChange =>
      && s.snapshot.Some? && t.sent == s.sent
      && if t.snapshot.Some? then
           && t.snapshot.value == s.snapshot.value.(finalizers := t.snapshot.value.finalizers)
           && (Protected(t.snapshot.value) <==> Protected(s.snapshot.value))
         else s.snapshot.value.deleting && !Protected(s.snapshot.value)
  }

  predicate IsRun(ss: seq<State>, es: seq<Event>) {
    |ss| == |es| + 1 && forall i :: 0 <= i < |es| ==> Next(ss[i], es[i], ss[i + 1])
  }

  /** A snapshot as it is created. */
  predicate Fresh(s: State) {
    && s.sent == [] && s.snapshot.Some? && !s.snapshot.value.deleting
    && s.snapshot.value.status == Status(Unset, "", "", 0, None, false) && !Protected(s.snapshot.value)
  }

  /** The phases that can come later. */
  predicate Leads(p: Phase, q: Phase) {
    match p
    case Unset => true
    case Pending => q != Unset
    case Creating => q in {Creating, Ready, Failed}
    case _ => q == p
  }

  lemma StepForward(s: State, e: Event, t: State)
    requires Next(s, e, t) && t.snapshot.Some?
    ensures s.snapshot.Some? && Leads(s.snapshot.value.status.phase, t.snapshot.value.status.phase)
    ensures t.snapshot.value.status != s.snapshot.value.status ==> Protected(s.snapshot.value) && !s.snapshot.value.deleting
    ensures t.snapshot.value.id == s.snapshot.value.id && (s.snapshot.value.deleting ==> t.snapshot.value.deleting)
  {
  }

  /** Phases only move forward: Ready and Failed are final, and no earlier phase ever comes back. */
  lemma {:induction false} PhasesMoveForward(ss: seq<State>, es: seq<Event>, i: nat, j: nat)
    requires IsRun(ss, es) && i <= j < |ss| && ss[j].snapshot.Some?
    ensures ss[i].snapshot.Some? && Leads(ss[i].snapshot.value.status.phase, ss[j].snapshot.value.status.phase)
    decreases j - i
  {
    if i < j {
      assert Next(ss[j - 1], es[j - 1], ss[j]);
      StepForward(ss[j - 1], es[j - 1], ss[j]);
      PhasesMoveForward(ss, es, i, j - 1);
    }
  }

  /** What the recorded phase says about the rest of the object, and about the requests sent so far. */
  predicate Coherent(s: State) {
    && (s.snapshot.Some? ==>
          var snap := s.snapshot.value;
          && (snap.status.ready <==> snap.status.phase == Ready)
          && (snap.status.phase != Ready ==> snap.status.path == "" && snap.status.created.None?)
          && (snap.status.phase == Unset || snap.status.phase == Pending ==> s.sent == [] || snap.deleting)
          && (!snap.deleting ==> forall k :: 0 <= k < |s.sent| ==> s.sent[k] == MakeFile(snap.id))
          && (s.sent != [] && !snap.deleting ==> Protected(snap))
          && (snap.status.phase != Unset && !snap.deleting ==> Protected(snap)))
  }

  /**
   In every run the snapshot is ready to use exactly in phase Ready, a path is recorded only then, and
   as long as the snapshot is not being deleted the finalizer is set if any request was sent.
   */
  lemma {:induction false} CoherentOverRuns(ss: seq<State>, es: seq<Event>, i: nat)
    requires IsRun(ss, es) && Fresh(ss[0]) && i < |ss|
    ensures Coherent(ss[i])
  {
    if i > 0 {
      CoherentOverRuns(ss, es, i - 1);
      assert Next(ss[i - 1], es[i - 1], ss[i]);
      CoherentStep(ss[i - 1], es[i - 1], ss[i]);
    }
  }

  lemma CoherentStep(s: State, e: Event, t: State)
    requires Coherent(s) && Next(s, e, t)
    ensures Coherent(t)
  {
  }

  /** No file is asked for unless the finalizer is set and the snapshot is not being deleted. */
  lemma FilesNeedTheFinalizer(s: State, c: Calls, id: string)
    requires multiset(SnapshotPass(s, c).0.sent)[MakeFile(id)] > multiset(s.sent)[MakeFile(id)]
    ensures s.snapshot.Some? && Protected(s.snapshot.value) && !s.snapshot.value.deleting
    ensures s.snapshot.value.status.phase == Creating && s.snapshot.value.id == id
  {
  }

  /** The pass takes the finalizer off, be it that the object goes with it. */
  predicate DropsFinalizer(s: State, t: State) {
    && s.snapshot.Some? && Protected(s.snapshot.value)
    && (t.snapshot.None? || !Protected(t.snapshot.value))
  }

  /**
   The finalizer is dropped only on a snapshot being deleted, and only by a pass that first asked the
   agent to delete the file, exactly when it knows a path and a node and gets hold of an agent.
   */
  lemma DroppedAfterDelete(s: State, e: Event, t: State)
    requires Next(s, e, t) && DropsFinalizer(s, t)
    ensures e.Pass? && s.snapshot.value.deleting
    ensures var snap := s.snapshot.value;
            t.sent == s.sent + if KnowsFile(snap) && e.calls.agent
                  then [DeleteFile(snap.status.node, snap.status.path)] else []
  {
    if e.Pass? && s.snapshot.value.deleting {
      assert s.sent + [] == s.sent;
    }
  }

  /**
   A file whose answer was not recorded is forgotten: the sidecar makes it, the pass is cut off before
   it stores the path, the user deletes the snapshot, and the finalizer goes without a delete request.
   */
  lemma ForgottenFile(s: State, polled: Calls, deleted: Calls)
    requires Coherent(s) && s.snapshot.Some? && !s.snapshot.value.deleting
    requires s.snapshot.value.status.phase == Creating && s.snapshot.value.finalizers == [FINALIZER]
    requires polled.engine.Found? && polled.address && !polled.status && deleted.update
    ensures var s1 := SnapshotPass(s, polled).0;
            && s1.snapshot.Some?
            && var s2 := s1.(snapshot := Stored(s1.snapshot.value.(deleting := true)));
               SnapshotPass(s2, deleted).0 == State(None, s.sent + [MakeFile(s.snapshot.value.id)])
  {
    var one := [FINALIZER];
    assert one[..0] == [];
    assert Removed([FINALIZER], FINALIZER) == [];
  }

  /**
   What a deletion sends, over a whole run: if the snapshot is gone at the end, an agent was asked to
   delete a file only if the snapshot was Ready before, and then it was the recorded file.
   */
  lemma {:induction false} OnlyRecordedFilesAreDeleted(ss: seq<State>, es: seq<Event>, i: nat, k: nat)
    requires IsRun(ss, es) && Fresh(ss[0]) && i < |ss| && k < |ss[i].sent| && ss[i].sent[k].DeleteFile?
    ensures exists j: nat :: j < i && ss[j].snapshot.Some? && ss[j].snapshot.value.status.phase == Ready
              && ss[i].sent[k] == DeleteFile(ss[j].snapshot.value.status.node, ss[j].snapshot.value.status.path)
  {
    assert i > 0;
    var s, e, t := ss[i - 1], es[i - 1], ss[i];
    assert Next(s, e, t);
    if k < |s.sent| {
      assert t.sent[k] == s.sent[k];
      OnlyRecordedFilesAreDeleted(ss, es, i - 1, k);
    } else {
      CoherentOverRuns(ss, es, i - 1);
    }
  }

}
