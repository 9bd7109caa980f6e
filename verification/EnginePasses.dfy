/** What one pass of the engine controller stores and answers, and which endpoint an engine has in a run. */
module EnginePasses {
  import opened Wrappers
  import opened Types
  import RC = ReplicaController
  import opened EngineController
  import opened EngineRuns

  // ---- How far a pass gets ----

  /** Every replica is ready and the list is, or can be, stored as filled in. */
  predicate AllSet(s: State, c: EngineCalls, split: RC.Splitter)
    requires s.engine.Some?
  {
    Filled(s, c, split).1 == AllReady && (Filled(s, c, split).0 == s.engine.value.replicas || c.update)
  }

  /** The pod on record can be read. */
  predicate PodRead(s: State, c: EngineCalls) {
    s.engine.Some? && s.engine.value.status.podRef && s.pod.Some? && c.read
  }

  /** It is up: it has an address and containers, all of them ready, and its sidecar reports as an engine's. */
  predicate PodAnswers(s: State, c: EngineCalls, split: RC.Splitter) {
    && PodRead(s, c)
    && s.pod.value.ip != "" && |s.pod.value.containers| > 0
    && (forall i :: 0 <= i < |s.pod.value.containers| ==> s.pod.value.containers[i])
    && c.report.Some? && c.report.value.role == "engine"
    && !RC.Blank(c.report.value.subsystemNQN) && RC.ValidEndpoint(c.report.value.endpoint, split)
  }

  /** The list is not the one whose hash was stored. */
  predicate ListMoved(s: State, list: seq<Attachment>, hash: Hasher)
    requires s.engine.Some?
  {
    s.engine.value.status.lastHash != "" && s.engine.value.status.lastHash != hash(list)
  }

  lemma AnswersIsAnswered(s: State, c: EngineCalls, split: RC.Splitter)
    ensures PodAnswers(s, c, split) <==> s.engine.Some? && s.engine.value.status.podRef && Answered(s, c, split)
  {
    if s.pod.Some? {
      var ready := s.pod.value.containers;
      if false !in ready {
        forall i | 0 <= i < |ready| ensures ready[i] {
          assert ready[i] in ready;
        }
      }
    }
  }

  // ---- What is stored ----

  /** The list stored after a pass: as filled in, unless an attachment stopped that or it cannot be stored. */
  lemma ListAfterPass(s: State, c: EngineCalls, split: RC.Splitter, hash: Hasher)
    requires s.engine.Some?
    ensures var t := EnginePass(s, c, split, hash).0;
            && t.engine.Some? && t.engine.value.node == s.engine.value.node
            && t.engine.value.replicas ==
               if Filled(s, c, split).1 in {AllReady, NotReady} && c.update then Filled(s, c, split).0
               else s.engine.value.replicas
  {
    ReadyPassAndPod(WithList(s, Filled(s, c, split).0), c, split, hash);
  }

  /**
   An entry of a list that is not stopped: its locality follows its replica's node, its endpoint follows
   the replica's if that is remote and ready, and is left as it was if not.
   */
  lemma EntryAfterFill(s: State, c: EngineCalls, split: RC.Splitter, i: nat)
    requires s.engine.Some? && Filled(s, c, split).1 in {AllReady, NotReady} && i < |s.engine.value.replicas|
    ensures var a, b := s.engine.value.replicas[i], Filled(s, c, split).0[i];
            && a.name in s.replicas && b.name == a.name && b.node == a.node
            && var r := s.replicas[a.name];
               && (b.isLocal <==> r.spec.node == s.engine.value.node)
               && if !b.isLocal && r.status.phase == ReplicaPhase.Running && r.status.nqn != ""
                     && c.find(i) && a.name + "-pod" in s.pods
                  then b.nqn == r.status.nqn && split(r.status.endpoint) == Some(RC.HostPort(b.address, b.port))
                  else b.nqn == a.nqn && b.address == a.address && b.port == a.port
  {
    var e := s.engine.value;
    FillVerdict(s, e.node, e.replicas, |e.replicas|, c, split);
    FillByPosition(s, e.node, e.replicas, |e.replicas|, c, split);
    assert !Stops(FillOne(s, e.node, e.replicas[i], i, c, split).1);
  }

  /** The pass starts the engine's pod. */
  predicate StartsPod(s: State, c: EngineCalls, split: RC.Splitter)
    requires s.engine.Some?
  {
    AllSet(s, c, split) && !s.engine.value.status.podRef && c.create && s.pod.None?
  }

  /**
   The pod and the sidecar's list after a pass: a pod is started with the filled-in list exactly if all is
   set, none is on record and none is there; and the sidecar gets the list then, or when it is asked to
   follow a list that moved and does not refuse.
   */
  lemma PodAfterPass(s: State, c: EngineCalls, split: RC.Splitter, hash: Hasher)
    requires s.engine.Some?
    ensures var (t, list) := (EnginePass(s, c, split, hash).0, Filled(s, c, split).0);
            && t.pod == (if StartsPod(s, c, split) then Some(EnginePod(list, "", [])) else s.pod)
            && t.sidecar == if StartsPod(s, c, split)
                               || (AllSet(s, c, split) && PodAnswers(s, c, split) && ListMoved(s, list, hash)
                                   && c.reconfigure != Refused)
                            then list else s.sidecar
  {
    AnswersIsAnswered(s, c, split);
    AnswersIsAnswered(WithList(s, Filled(s, c, split).0), c, split);
  }

  /** The status a pass stores, if it gets to store one. */
  function StatusDue(s: State, c: EngineCalls, split: RC.Splitter, hash: Hasher): (r: Option<EngineStatus>)
    requires s.engine.Some?
  {
    var status, list := s.engine.value.status, Filled(s, c, split).0;
    if !AllSet(s, c, split) then None
    else if !status.podRef then
      if c.create then Some(status.(podRef := true, phase := EnginePhase.Pending)) else None
    else if !PodRead(s, c) then Some(status.(podRef := false, phase := EnginePhase.Unset))
    else if !PodAnswers(s, c, split) then None
    else
      var reported := status.(endpoint := c.report.value.endpoint, subsystemNQN := c.report.value.subsystemNQN);
      if ListMoved(s, list, hash) && c.reconfigure != Accepted then Some(reported.(phase := EnginePhase.Degraded))
      else Some(reported.(phase := EnginePhase.Running, lastHash := hash(list)))
  }

  /** The status on record after a pass. */
  lemma StatusAfterPass(s: State, c: EngineCalls, split: RC.Splitter, hash: Hasher)
    requires s.engine.Some?
    ensures var t := EnginePass(s, c, split, hash).0;
            && t.engine.Some?
            && t.engine.value.status == if StatusDue(s, c, split, hash).Some? && c.status
                                        then StatusDue(s, c, split, hash).value else s.engine.value.status
  {
    AnswersIsAnswered(s, c, split);
    AnswersIsAnswered(WithList(s, Filled(s, c, split).0), c, split);
  }

  // ---- What is answered ----

  /**
   The answer of a pass: done once the engine is gone or a status is stored as due; in five seconds again
   after a reconfigure that was not accepted; an error if a call it needs fails; and otherwise, while
   something is not ready or does not answer, in two seconds again.
   */
  lemma AnswerOfPass(s: State, c: EngineCalls, split: RC.Splitter, hash: Hasher)
    ensures var out := EnginePass(s, c, split, hash).1;
            if s.engine.None? then out == RC.Done
            else
              var (list, verdict) := Filled(s, c, split);
              if verdict == Broken || (verdict != Absent && list != s.engine.value.replicas && !c.update) then out == RC.Error
              else if !AllSet(s, c, split) || (PodRead(s, c) && !PodAnswers(s, c, split)) then out == RC.Requeue(2)
              else if StatusDue(s, c, split, hash).None? || !c.status then out == RC.Error
              else if StatusDue(s, c, split, hash).value.phase == EnginePhase.Degraded then out == RC.Requeue(5)
              else out == RC.Done
  {
    if s.engine.Some? {
      AnswersIsAnswered(s, c, split);
      AnswersIsAnswered(WithList(s, Filled(s, c, split).0), c, split);
    }
  }

  // ---- The endpoint in a run ----

  /** The pass stores what the sidecar reported. */
  predicate StoresReport(s: State, c: EngineCalls, split: RC.Splitter) {
    s.engine.Some? && AllSet(s, c, split) && PodAnswers(s, c, split) && c.status
  }

  /**
   Which endpoint and subsystem are stored: those just reported, if the pass stores Running or Degraded;
   in every other pass those that were stored before.
   */
  lemma StoredEndpoint(s: State, c: EngineCalls, split: RC.Splitter, hash: Hasher)
    requires s.engine.Some?
    ensures var t := EnginePass(s, c, split, hash).0;
            && t.engine.Some?
            && if StoresReport(s, c, split) then
                 && t.engine.value.status.endpoint == c.report.value.endpoint
                 && t.engine.value.status.subsystemNQN == c.report.value.subsystemNQN
                 && t.engine.value.status.phase in {EnginePhase.Running, EnginePhase.Degraded}
               else
                 && t.engine.value.status.endpoint == s.engine.value.status.endpoint
                 && t.engine.value.status.subsystemNQN == s.engine.value.status.subsystemNQN
    ensures WritesRunning(s, c, split, hash) ==> StoresReport(s, c, split)
  {
    StatusAfterPass(s, c, split, hash);
    AnswersIsAnswered(s, c, split);
  }

  datatype Endpoint = Endpoint(address: string, nqn: string)

  function EndpointOf(e: EngineObject): Endpoint {
    Endpoint(e.status.endpoint, e.status.subsystemNQN)
  }

  /** What the last pass that stored a report since the engine was made stored; else what it was made with. */
  function LastReported(ss: seq<State>, es: seq<Event>, n: nat, split: RC.Splitter): Option<Endpoint>
    requires n <= |es| && |ss| == |es| + 1
  {
    if n == 0 then (if ss[0].engine.Some? then Some(EndpointOf(ss[0].engine.value)) else None)
    else
      match es[n - 1]
      case Pass(c) =>
        if StoresReport(ss[n - 1], c, split) then Some(Endpoint(c.report.value.endpoint, c.report.value.subsystemNQN))
        else LastReported(ss, es, n - 1, split)
      case NewEngine(engine) => if engine.Some? then Some(EndpointOf(engine.value)) else None
      case _ => LastReported(ss, es, n - 1, split)
  }

  /** In every run an engine has the endpoint and the subsystem last reported to a pass that stored them. */
  lemma {:induction false} EndpointIsLastReported(ss: seq<State>, es: seq<Event>, split: RC.Splitter, hash: Hasher, n: nat)
    requires IsRun(ss, es, split, hash) && n <= |es|
    ensures LastReported(ss, es, n, split) == if ss[n].engine.Some? then Some(EndpointOf(ss[n].engine.value)) else None
  {
    if n > 0 {
      EndpointIsLastReported(ss, es, split, hash, n - 1);
      assert Next(ss[n - 1], es[n - 1], ss[n], split, hash);
      if es[n - 1].Pass? && ss[n - 1].engine.Some? {
        StoredEndpoint(ss[n - 1], es[n - 1].calls, split, hash);
      }
    }
  }

  // ---- What a sidecar reported before ----

  /** A pass stored Running or Degraded with this report. */
  ghost predicate ReportedBefore(ss: seq<State>, es: seq<Event>, n: nat, split: RC.Splitter)
    requires n <= |es| && |ss| == |es| + 1
  {
    exists k :: 0 <= k < n && es[k].Pass? && StoresReport(ss[k], es[k].calls, split)
                && LastReported(ss, es, n, split)
                   == Some(Endpoint(es[k].calls.report.value.endpoint, es[k].calls.report.value.subsystemNQN))
  }

  /** And a Running engine has one that was reported, if no engine was made Running. */
  lemma {:induction false} RunningWasReported(ss: seq<State>, es: seq<Event>, split: RC.Splitter, hash: Hasher, n: nat)
    requires IsRun(ss, es, split, hash) && n <= |es|
    requires ss[0].engine.Some? ==> ss[0].engine.value.status.phase != EnginePhase.Running
    requires forall k :: 0 <= k < |es| && es[k].NewEngine? && es[k].engine.Some? ==>
               es[k].engine.value.status.phase != EnginePhase.Running
    requires ss[n].engine.Some? && ss[n].engine.value.status.phase == EnginePhase.Running
    ensures ReportedBefore(ss, es, n, split)
  {
    assert n > 0;
    var s, e := ss[n - 1], es[n - 1];
    assert Next(s, e, ss[n], split, hash);
    if e.Pass? && StoresReport(s, e.calls, split) {
      assert LastReported(ss, es, n, split)
          == Some(Endpoint(e.calls.report.value.endpoint, e.calls.report.value.subsystemNQN));
    } else {
      if e.Pass? {
        StatusAfterPass(s, e.calls, split, hash);
      }
      RunningWasReported(ss, es, split, hash, n - 1);
      var k :| 0 <= k < n - 1 && es[k].Pass? && StoresReport(ss[k], es[k].calls, split)
               && LastReported(ss, es, n - 1, split)
                  == Some(Endpoint(es[k].calls.report.value.endpoint, es[k].calls.report.value.subsystemNQN));
      assert LastReported(ss, es, n, split) == LastReported(ss, es, n - 1, split);
    }
  }

}
