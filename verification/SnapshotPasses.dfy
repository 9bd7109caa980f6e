/** What one pass of the snapshot controller stores, sends and answers, and where its records come from. */
module SnapshotPasses {
  import opened Wrappers
  import opened Snapshots

  /** Protected and not being deleted: the phases are worked on. */
  predicate Active(s: State) {
    s.snapshot.Some? && !s.snapshot.value.deleting
    && "storage.krea.to/snapshot-protection" in s.snapshot.value.finalizers
  }

  /** The sidecar can be asked: the engine is found and its pod has an address. */
  predicate CanAsk(c: Calls) {
    c.engine.Found? && c.address
  }

  /** The sidecar made the file: it answered 200 with a body. */
  predicate FileMade(c: Calls) {
    CanAsk(c) && c.answer.Some? && c.answer.value.code == 200 && c.answer.value.body.Some?
  }

  /** The phase after a pass on an active snapshot whose status can be stored. */
  function PhaseDue(phase: Phase, c: Calls): Phase {
    match phase
    case Unset => Pending
    case Pending => if c.engine.Found? then Creating else Failed
    case Creating => if !CanAsk(c) || c.answer.None? then Creating else if FileMade(c) then Ready else Failed
    case Ready => Ready
    case Failed => Failed
  }

  /**
   The status after a pass: the phase moves as due, if it can be stored; the engine's node is recorded on
   the way to Creating; path, size and time on the way to Ready; and nothing else changes.
   */
  lemma StatusAfterPass(s: State, c: Calls)
    requires s.snapshot.Some? && SnapshotPass(s, c).0.snapshot.Some?
    ensures var a, b := s.snapshot.value.status, SnapshotPass(s, c).0.snapshot.value.status;
            && b.phase == (if Active(s) && c.status then PhaseDue(a.phase, c) else a.phase)
            && b.node == (if a.phase == Pending && b.phase == Creating then c.engine.node else a.node)
            && if a.phase == Creating && b.phase == Ready
               then b.path == c.answer.value.body.value.path && b.size == c.answer.value.body.value.size
                    && b.created == Some(c.now) && b.ready
               else b.path == a.path && b.size == a.size && b.created == a.created && b.ready == a.ready
  {
  }

  /**
   What a pass sends: the request for the file, exactly if an active snapshot is being created and the
   sidecar can be asked; the delete, exactly if the snapshot is being deleted, path and node are recorded
   and there is an agent; nothing otherwise.
   */
  lemma SentByPass(s: State, c: Calls)
    requires s.snapshot.Some?
    ensures var snap := s.snapshot.value;
            SnapshotPass(s, c).0.sent == s.sent +
              if Active(s) && snap.status.phase == Creating && CanAsk(c) then [MakeFile(snap.id)]
              else if snap.deleting && snap.status.path != "" && snap.status.node != "" && c.agent
              then [DeleteFile(snap.status.node, snap.status.path)]
              else []
  {
    assert s.sent + [] == s.sent;
  }

  lemma {:induction false} RemovedAll(list: seq<string>, s: string)
    ensures Removed(list, s) == [] <==> forall i :: 0 <= i < |list| ==> list[i] == s
  {
    if list != [] {
      var front, n := list[..|list| - 1], |list| - 1;
      RemovedAll(front, s);
      assert forall i :: 0 <= i < n ==> front[i] == list[i];
    }
  }

  /** The snapshot is gone after a pass exactly if it was being deleted and its last finalizer was taken off. */
  lemma GoneAfterPass(s: State, c: Calls)
    requires s.snapshot.Some?
    ensures var snap := s.snapshot.value;
            SnapshotPass(s, c).0.snapshot.None? <==>
              && snap.deleting && c.update && Protected(snap)
              && forall i :: 0 <= i < |snap.finalizers| ==> snap.finalizers[i] == FINALIZER
  {
    RemovedAll(s.snapshot.value.finalizers, FINALIZER);
  }

  /**
   The finalizer after a pass: put on a snapshot that has none, taken off one being deleted, if that can be
   stored; the other finalizers and what was ordered stay.
   */
  lemma FinalizersAfterPass(s: State, c: Calls)
    requires s.snapshot.Some? && SnapshotPass(s, c).0.snapshot.Some?
    ensures var a, b := s.snapshot.value, SnapshotPass(s, c).0.snapshot.value;
            && (Protected(b) <==> if a.deleting then Protected(a) && !c.update else Protected(a) || c.update)
            && (forall f :: f != FINALIZER ==> multiset(b.finalizers)[f] == multiset(a.finalizers)[f])
            && b.id == a.id && b.volume == a.volume && b.deleting == a.deleting
  {
  }

  /**
   The answer of a pass: an error if a write it needs fails or the engine cannot be looked up; in two seconds
   again while the file cannot be asked for or is not answered; done otherwise.
   */
  lemma AnswerOfPass(s: State, c: Calls)
    requires s.snapshot.Some?
    ensures var snap, out := s.snapshot.value, SnapshotPass(s, c).1;
            if snap.deleting then out == if Protected(snap) && !c.update then Error else Done
            else if !Protected(snap) then out == if c.update then Done else Error
            else match snap.status.phase
              case Unset => out == if c.status then Done else Error
              case Pending =>
                out == (if c.engine.NotFound? || (c.engine.Found? && c.status) then Done else Error)
              case Creating =>
                out == (if !CanAsk(c) || c.answer.None? then Requeue(2) else if c.status then Done else Error)
              case _ => out == Done
  {
  }

  // ---- Where records come from ----

  /** A pass on the snapshot in phase Pending found the engine on this node. */
  predicate FoundOn(s: State, e: Event, node: string) {
    e.Pass? && s.snapshot.Some? && s.snapshot.value.status.phase == Pending && e.calls.engine == Found(node)
  }

  /** A pass on the snapshot in phase Creating got this answer. */
  predicate MadeAs(s: State, e: Event, path: string, size: int) {
    && e.Pass? && s.snapshot.Some? && s.snapshot.value.status.phase == Creating
    && e.calls.answer == Some(Answer(200, Some(File(path, size))))
  }

  /** The node of a snapshot in phase Creating or Ready is that of the engine, as the pass found it that started it. */
  ghost predicate NodeFound(ss: seq<State>, es: seq<Event>, n: nat)
    requires n < |ss| == |es| + 1
  {
    ss[n].snapshot.Some? && ss[n].snapshot.value.status.phase in {Creating, Ready} ==>
      exists k :: 0 <= k < n && FoundOn(ss[k], es[k], ss[n].snapshot.value.status.node)
  }

  lemma {:induction false} NodeIsTheEngines(ss: seq<State>, es: seq<Event>, n: nat)
    requires IsRun(ss, es) && Fresh(ss[0]) && n < |ss|
    ensures NodeFound(ss, es, n)
  {
    if n > 0 && ss[n].snapshot.Some? && ss[n].snapshot.value.status.phase in {Creating, Ready} {
      var s, e, t := ss[n - 1], es[n - 1], ss[n];
      assert Next(s, e, t);
      StepForward(s, e, t);
      NodeIsTheEngines(ss, es, n - 1);
      if e.Pass? {
        StatusAfterPass(s, e.calls);
      }
      if s.snapshot.value.status.phase == Pending {
        assert FoundOn(s, e, t.snapshot.value.status.node);
      } else {
        var k :| 0 <= k < n - 1 && FoundOn(ss[k], es[k], s.snapshot.value.status.node);
        assert FoundOn(ss[k], es[k], t.snapshot.value.status.node);
      }
    }
  }

  /** Path and size of a snapshot in phase Ready are those the sidecar answered with. */
  ghost predicate FileAnswered(ss: seq<State>, es: seq<Event>, n: nat)
    requires n < |ss| == |es| + 1
  {
    ss[n].snapshot.Some? && ss[n].snapshot.value.status.phase == Ready ==>
      exists k :: 0 <= k < n && MadeAs(ss[k], es[k], ss[n].snapshot.value.status.path, ss[n].snapshot.value.status.size)
  }

  lemma {:induction false} ReadyHasItsAnswer(ss: seq<State>, es: seq<Event>, n: nat)
    requires IsRun(ss, es) && Fresh(ss[0]) && n < |ss|
    ensures FileAnswered(ss, es, n)
  {
    if n > 0 && ss[n].snapshot.Some? && ss[n].snapshot.value.status.phase == Ready {
      var s, e, t := ss[n - 1], es[n - 1], ss[n];
      assert Next(s, e, t);
      StepForward(s, e, t);
      ReadyHasItsAnswer(ss, es, n - 1);
      if e.Pass? {
        StatusAfterPass(s, e.calls);
      }
      if s.snapshot.value.status.phase == Creating {
        assert MadeAs(s, e, t.snapshot.value.status.path, t.snapshot.value.status.size);
      } else {
        var k :| 0 <= k < n - 1 && MadeAs(ss[k], es[k], s.snapshot.value.status.path, s.snapshot.value.status.size);
        assert MadeAs(ss[k], es[k], t.snapshot.value.status.path, t.snapshot.value.status.size);
      }
    }
  }

}
