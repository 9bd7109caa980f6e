/** Choosing nodes for replicas. Every scan works on one listing of the cluster's nodes. */
module Nodes {
  import opened Wrappers
  import opened Types

  // ---- What a listing says ----

  function WorkerSet(nodes: seq<Node>): set<string> {
    set n | n in nodes && !n.controlPlane :: n.name
  }

  /** Node names are unique in a cluster. */
  ghost predicate DistinctNames(nodes: seq<Node>) {
    forall i, j :: 0 <= i < j < |nodes| ==> nodes[i].name != nodes[j].name
  }

  ghost predicate Distinct<T>(s: seq<T>) {
    forall i, j :: 0 <= i < j < |s| ==> s[i] != s[j]
  }

  /** Names of the workers, in listing order. */
  function WorkerNames(nodes: seq<Node>): (names: seq<string>)
    ensures forall x :: x in names <==> x in WorkerSet(nodes)
  {
    if nodes == [] then []
    else
      var n := nodes[|nodes| - 1];
      WorkerNames(nodes[..|nodes| - 1]) + if n.controlPlane then [] else [n.name]
  }

  function AllNames(nodes: seq<Node>): (names: seq<string>)
    ensures |names| == |nodes|
    ensures forall i :: 0 <= i < |nodes| ==> names[i] == nodes[i].name
  {
    seq(|nodes|, i requires 0 <= i < |nodes| => nodes[i].name)
  }

  lemma {:induction false} WorkerNamesDistinct(nodes: seq<Node>)
    requires DistinctNames(nodes)
    ensures Distinct(WorkerNames(nodes))
  {
    if nodes != [] {
      var front, n := nodes[..|nodes| - 1], nodes[|nodes| - 1];
      WorkerNamesDistinct(front);
      forall k | 0 <= k < |front| ensures front[k].name != n.name {
        assert nodes[k].name != nodes[|nodes| - 1].name;
      }
      assert n.name !in WorkerSet(front);
      assert forall k :: 0 <= k < |WorkerNames(front)| ==> WorkerNames(front)[k] in WorkerNames(front);
    }
  }

  /** The set of a sequence's elements is no larger than the sequence, and as large when they differ. */
  lemma {:induction false} ElementCount<T>(s: seq<T>, elements: set<T>)
    requires forall x :: x in elements <==> x in s
    ensures |elements| <= |s|
    ensures Distinct(s) ==> |elements| == |s|
  {
    if s == [] {
      assert elements == {};
    } else {
      var front, last := s[..|s| - 1], s[|s| - 1];
      var rest := set x | x in front;
      ElementCount(front, rest);
      assert elements == rest + {last};
      if Distinct(s) {
        assert last !in front;
      }
    }
  }

  lemma WorkersCounted(nodes: seq<Node>)
    requires DistinctNames(nodes)
    ensures |WorkerSet(nodes)| == |WorkerNames(nodes)|
  {
    WorkerNamesDistinct(nodes);
    ElementCount(WorkerNames(nodes), WorkerSet(nodes));
  }

  // ---- How many replicas a volume wants ----

  /** The automatic target: one replica per worker; per node if there is no worker; at least one. */
  function AutoTarget(nodes: seq<Node>): nat {
    var workers := |WorkerNames(nodes)|;
    if workers > 0 then workers else if |nodes| > 0 then |nodes| else 1
  }

  function Target(replicaCount: string, nodes: seq<Node>): (r: Result<nat>)
    ensures r.Ok? ==> r.value >= 1
  {
    match ParseReplicaCount(replicaCount)
    case Err => Err
    case Ok(Fixed(n)) => Ok(n)
    case Ok(Auto) => Ok(AutoTarget(nodes))
  }

  /** The positions of workers in a listing. */
  function WorkerPositions(nodes: seq<Node>): set<nat> {
    set i: nat | i < |nodes| && !nodes[i].controlPlane
  }

  lemma {:induction false} NamesCounted(nodes: seq<Node>)
    ensures |WorkerNames(nodes)| == |WorkerPositions(nodes)|
  {
    if nodes == [] {
      assert WorkerPositions(nodes) == {};
    } else {
      var n := |nodes| - 1;
      NamesCounted(nodes[..n]);
      assert WorkerPositions(nodes) == WorkerPositions(nodes[..n]) + if nodes[n].controlPlane then {} else {n};
    }
  }

  /**
   An automatic count is the number of workers; of nodes, if there is no worker; and one, if there is no
   node. A fixed count is what it says.
   */
  lemma TargetCounts(replicaCount: string, nodes: seq<Node>)
    ensures var workers := |WorkerPositions(nodes)|;
            replicaCount == "auto" || replicaCount == "" ==>
              Target(replicaCount, nodes) == Ok(if workers > 0 then workers else if |nodes| > 0 then |nodes| else 1)
    ensures replicaCount != "auto" && replicaCount != "" ==>
              Target(replicaCount, nodes) == match Atoi(replicaCount)
                                             case Ok(n) => (if n > 0 then Ok(n) else Err)
                                             case Err => Err
  {
    NamesCounted(nodes);
  }

  method ReplicasForVolume(replicaCount: string, nodes: seq<Node>) returns (r: Result<nat>)
    ensures r == Target(replicaCount, nodes)
  {
    var parsed := ParseReplicaCount(replicaCount);
    if parsed.Err? {
      return Err;
    }
    if parsed.value.Fixed? {
      return Ok(parsed.value.count);
    }
    var count := 0;
    for i := 0 to |nodes|
      invariant count == |WorkerNames(nodes[..i])|
    {
      assert nodes[..i + 1][..i] == nodes[..i];
      if !nodes[i].controlPlane {
        count := count + 1;
      }
    }
    assert nodes[..|nodes|] == nodes;
    if count == 0 && |nodes| > 0 {
      count := |nodes|;
    }
    if count < 1 {
      count := 1;
    }
    r := Ok(count);
  }

  // ---- First-match scans ----

  /** The first worker whose name is not in use. */
  function FirstUnused(nodes: seq<Node>, used: set<string>): (r: Option<string>)
    ensures r.Some? ==> r.value in WorkerSet(nodes) - used
    ensures r.None? ==> WorkerSet(nodes) <= used
  {
    if nodes == [] then None
    else if !nodes[0].controlPlane && nodes[0].name !in used then Some(nodes[0].name)
    else
      assert nodes == [nodes[0]] + nodes[1..];
      FirstUnused(nodes[1..], used)
  }

  /** The first match is at the first position that holds an unused worker, if one does. */
  lemma {:induction false} FirstUnusedAt(nodes: seq<Node>, used: set<string>, i: nat)
    requires i <= |nodes| && forall j :: 0 <= j < i ==> nodes[j].controlPlane || nodes[j].name in used
    requires i < |nodes| ==> !nodes[i].controlPlane && nodes[i].name !in used
    ensures FirstUnused(nodes, used) == if i < |nodes| then Some(nodes[i].name) else None
  {
    if i > 0 {
      FirstUnusedAt(nodes[1..], used, i - 1);
    }
  }

  /** An unused worker; else the first worker, used or not; else the empty name. */
  function Unused(nodes: seq<Node>, used: set<string>): string {
    match FirstUnused(nodes, used)
    case Some(name) => name
    case None =>
      match FirstUnused(nodes, {})
      case Some(name) => name
      case None => ""
  }

  /**
   With i the first position of an unused worker and j that of any worker, if there are such: the node
   picked is the one at i, else the one at j, else none.
   */
  lemma PickedNode(nodes: seq<Node>, used: set<string>, i: nat, j: nat)
    requires i <= |nodes| && forall k :: 0 <= k < i ==> nodes[k].controlPlane || nodes[k].name in used
    requires i < |nodes| ==> !nodes[i].controlPlane && nodes[i].name !in used
    requires j <= |nodes| && forall k :: 0 <= k < j ==> nodes[k].controlPlane
    requires j < |nodes| ==> !nodes[j].controlPlane
    ensures Unused(nodes, used) == if i < |nodes| then nodes[i].name else if j < |nodes| then nodes[j].name else ""
    ensures AnyWorker(nodes) == if j < |nodes| then Some(nodes[j].name)
                                else if nodes != [] then Some(nodes[0].name) else None
  {
    FirstUnusedAt(nodes, used, i);
    FirstUnusedAt(nodes, {}, j);
  }

  method PickUnusedNode(nodes: seq<Node>, used: set<string>) returns (name: string)
    ensures name == Unused(nodes, used)
    ensures WorkerSet(nodes) - used != {} ==> name in WorkerSet(nodes) - used
    ensures WorkerSet(nodes) != {} ==> name in WorkerSet(nodes)
    ensures WorkerSet(nodes) == {} ==> name == ""
  {
    for i := 0 to |nodes|
      invariant FirstUnused(nodes, used) == FirstUnused(nodes[i..], used)
    {
      if nodes[i].controlPlane {
        continue;
      }
      if nodes[i].name !in used {
        return nodes[i].name;
      }
    }
    for i := 0 to |nodes|
      invariant FirstUnused(nodes, {}) == FirstUnused(nodes[i..], {})
    {
      if !nodes[i].controlPlane {
        return nodes[i].name;
      }
    }
    return "";
  }

  /** Any worker; else any node; else nothing. */
  function AnyWorker(nodes: seq<Node>): Option<string> {
    match FirstUnused(nodes, {})
    case Some(name) => Some(name)
    case None => if nodes == [] then None else Some(nodes[0].name)
  }

  method PickAnyWorkerNode(nodes: seq<Node>) returns (r: Option<string>)
    ensures r == AnyWorker(nodes)
    ensures r.None? <==> nodes == []
    ensures WorkerSet(nodes) != {} ==> r.Some? && r.value in WorkerSet(nodes)
  {
    for i := 0 to |nodes|
      invariant FirstUnused(nodes, {}) == FirstUnused(nodes[i..], {})
    {
      if nodes[i].controlPlane {
        continue;
      }
      return Some(nodes[i].name);
    }
    if |nodes| > 0 {
      return Some(nodes[0].name);
    }
    return None;
  }

  // ---- Sorted choice for a new volume ----

  predicate LexLessEq(a: string, b: string) {
    a == [] || (b != [] && (a[0] < b[0] || (a[0] == b[0] && LexLessEq(a[1..], b[1..]))))
  }

  function Insert(x: string, s: seq<string>): (r: seq<string>)
    ensures multiset(r) == multiset(s) + multiset{x}
  {
    if s == [] then [x]
    else if LexLessEq(x, s[0]) then [x] + s
    else
      assert s == [s[0]] + s[1..];
      [s[0]] + Insert(x, s[1..])
  }

  /** The names in byte order. */
  function SortStrings(s: seq<string>): (r: seq<string>)
    ensures multiset(r) == multiset(s)
    ensures |r| == |s|
  {
    if s == [] then []
    else
      var r := Insert(s[0], SortStrings(s[1..]));
      assert s == [s[0]] + s[1..];
      assert |r| == |multiset(r)|;
      r
  }

  lemma {:induction false} LexTotal(a: string, b: string)
    ensures LexLessEq(a, b) || LexLessEq(b, a)
  {
    if a != [] && b != [] && a[0] == b[0] {
      LexTotal(a[1..], b[1..]);
    }
  }

  lemma {:induction false} LexTransitive(a: string, b: string, c: string)
    requires LexLessEq(a, b) && LexLessEq(b, c)
    ensures LexLessEq(a, c)
  {
    if a != [] && a[0] == b[0] && b[0] == c[0] {
      LexTransitive(a[1..], b[1..], c[1..]);
    }
  }

  ghost predicate Ordered(s: seq<string>) {
    forall i, j :: 0 <= i < j < |s| ==> LexLessEq(s[i], s[j])
  }

  lemma {:induction false} InsertKeepsOrder(x: string, s: seq<string>)
    requires Ordered(s)
    ensures Ordered(Insert(x, s))
  {
    if s != [] {
      if LexLessEq(x, s[0]) {
        forall j | 0 < j < |s| ensures LexLessEq(x, s[j]) {
          LexTransitive(x, s[0], s[j]);
        }
      } else {
        LexTotal(x, s[0]);
        var rest := Insert(x, s[1..]);
        InsertKeepsOrder(x, s[1..]);
        forall y | y in rest ensures LexLessEq(s[0], y) {
          assert y in multiset(rest);
          if y != x {
            assert y in multiset(s[1..]);
            assert y in s[1..];
          }
        }
      }
    }
  }

  /** Sorting puts the names in byte order. */
  lemma {:induction false} SortedInOrder(s: seq<string>)
    ensures Ordered(SortStrings(s))
  {
    if s != [] {
      SortedInOrder(s[1..]);
      InsertKeepsOrder(s[0], SortStrings(s[1..]));
    }
  }

  /** Workers in name order, or all nodes if there is no worker, at most n of them. */
  function FirstWorkers(nodes: seq<Node>, n: nat): (r: seq<string>)
    ensures |r| <= n
  {
    var workers := WorkerNames(nodes);
    var sorted := SortStrings(if workers == [] then AllNames(nodes) else workers);
    if n > |sorted| then sorted else sorted[..n]
  }

  method CollectWorkers(nodes: seq<Node>) returns (workers: seq<string>)
    ensures workers == WorkerNames(nodes)
  {
    workers := [];
    for i := 0 to |nodes|
      invariant workers == WorkerNames(nodes[..i])
    {
      assert nodes[..i + 1][..i] == nodes[..i];
      if !nodes[i].controlPlane {
        workers := workers + [nodes[i].name];
      }
    }
    assert nodes[..|nodes|] == nodes;
  }

  method CollectAll(nodes: seq<Node>) returns (names: seq<string>)
    ensures names == AllNames(nodes)
  {
    names := [];
    for i := 0 to |nodes|
      invariant |names| == i && forall k :: 0 <= k < i ==> names[k] == nodes[k].name
    {
      names := names + [nodes[i].name];
    }
  }

  method PickWorkerNodes(nodes: seq<Node>, n: nat) returns (r: seq<string>)
    ensures r == FirstWorkers(nodes, n)
    ensures Ordered(r)
  {
    var workers := CollectWorkers(nodes);
    if |workers| == 0 {
      workers := CollectAll(nodes);
    }
    var sorted := SortStrings(workers);
    SortedInOrder(workers);
    var m := n;
    if m > |sorted| {
      m := |sorted|;
    }
    return sorted[..m];
  }

  lemma DistinctByMultiset<T>(s: seq<T>, t: seq<T>)
    requires multiset(s) == multiset(t) && Distinct(s)
    ensures Distinct(t)
  {
    var elements := set x | x in s;
    assert forall x :: x in s <==> x in multiset(s);
    ElementCount(s, elements);
    assert |t| == |multiset(t)| == |s|;
    if !Distinct(t) {
      var i, j :| 0 <= i < j < |t| && t[i] == t[j];
      var u := t[..j] + t[j + 1..];
      assert t == t[..j] + [t[j]] + t[j + 1..];
      forall x ensures x in elements <==> x in u {
        assert x in s <==> x in multiset(t);
        if x == t[j] { assert u[i] == x; }
      }
      ElementCount(u, elements);
    }
  }

  /** The nodes chosen for a new volume are pairwise distinct, worker or not. */
  lemma FirstWorkersDistinct(nodes: seq<Node>, n: nat)
    requires DistinctNames(nodes)
    ensures Distinct(FirstWorkers(nodes, n))
  {
    WorkerNamesDistinct(nodes);
    var workers := WorkerNames(nodes);
    var names := if workers == [] then AllNames(nodes) else workers;
    DistinctByMultiset(names, SortStrings(names));
  }

}
