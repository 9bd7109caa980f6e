/** Names derived from a volume name: printed by the controllers and read back by others. */
module Names {
  import opened Wrappers
  import opened Decimal

  const REPLICA_INFIX := "-replica-"
  const POD_SUFFIX := "-pod"
  const MAX_NAME_LENGTH := 253

  function EngineName(volume: string): string {
    volume + "-engine"
  }

  function ReplicaName(volume: string, index: nat): string {
    volume + REPLICA_INFIX + Print(index)
  }

  function ReplicaNQN(authority: string, volume: string, index: nat): string {
    authority + ":replica-" + volume + "-" + Print(index)
  }

  function PodName(owner: string): string {
    owner + POD_SUFFIX
  }

  function DataPath(volume: string): string {
    "/var/lib/kdfs/" + volume + "/vol.img"
  }

  function SnapshotFilePath(volume: string, snapshotID: string): string {
    "/var/lib/kdfs/" + volume + "/snapshot-" + snapshotID + ".img"
  }

  /** The replica index a pod template reads back from a replica name; 0 when the name does not match. */
  function IndexFromName(volume: string, name: string): int {
    var prefix := volume + REPLICA_INFIX;
    if prefix <= name then ScanInt(name[|prefix|..]) else 0
  }

  /** A string of digits cannot reach back over a separator that lies inside it. */
  lemma SeparatorsAlign(a: string, d: string, b: string, e: string)
    requires AllDigits(d) && |a| < |b| && b[|b| - 1] == '-'
    ensures a + d != b + e
  {
    if |b| <= |a| + |d| {
      assert (a + d)[|b| - 1] == d[|b| - 1 - |a|];
      assert (b + e)[|b| - 1] == '-';
    }
  }

  /** Equal strings that both end in a separator and digits split into equal parts. */
  lemma SplitAtLastDash(a: string, d: string, b: string, e: string)
    requires AllDigits(d) && AllDigits(e)
    requires a != [] && a[|a| - 1] == '-' && b != [] && b[|b| - 1] == '-'
    requires a + d == b + e
    ensures a == b && d == e
  {
    if |a| < |b| {
      SeparatorsAlign(a, d, b, e);
    } else if |b| < |a| {
      SeparatorsAlign(b, e, a, d);
    } else {
      assert a == (a + d)[..|a|] && b == (b + e)[..|b|];
      assert d == (a + d)[|a|..] && e == (b + e)[|b|..];
    }
  }

  lemma ReplicaNameInjective(v: string, i: nat, w: string, j: nat)
    requires ReplicaName(v, i) == ReplicaName(w, j)
    ensures v == w && i == j
  {
    var a, b := v + REPLICA_INFIX, w + REPLICA_INFIX;
    SplitAtLastDash(a, Print(i), b, Print(j));
    assert v == a[..|a| - 9] && w == b[..|b| - 9];
    PrintInjective(i, j);
  }

  lemma DifferentIndices(v: string, i: nat, j: nat)
    requires i != j
    ensures ReplicaName(v, i) != ReplicaName(v, j)
  {
    if ReplicaName(v, i) == ReplicaName(v, j) {
      ReplicaNameInjective(v, i, v, j);
    }
  }

  lemma ReplicaNQNInjective(authority: string, v: string, i: nat, w: string, j: nat)
    requires ReplicaNQN(authority, v, i) == ReplicaNQN(authority, w, j)
    ensures v == w && i == j
  {
    var head := authority + ":replica-";
    var a, b := head + v + "-", head + w + "-";
    SplitAtLastDash(a, Print(i), b, Print(j));
    assert v == a[|head|..|a| - 1] && w == b[|head|..|b| - 1];
    PrintInjective(i, j);
  }

  lemma PodNameInjective(a: string, b: string)
    requires PodName(a) == PodName(b)
    ensures a == b
  {
    assert a == PodName(a)[..|PodName(a)| - 4] && b == PodName(b)[..|PodName(b)| - 4];
  }

  /** A replica pod is started with the very index its name was printed from. */
  lemma IndexReadsBack(volume: string, index: nat)
    ensures IndexFromName(volume, ReplicaName(volume, index)) == index
  {
    var prefix := volume + REPLICA_INFIX;
    assert ReplicaName(volume, index) == prefix + Print(index);
    assert ReplicaName(volume, index)[|prefix|..] == Print(index);
    ScanPrinted(index);
  }

  // ---- Events of replica pods, routed to the engine of their volume ----

  datatype ClusterEvent = ClusterEvent(reason: string, kind: string, subject: string)

  predicate OccursAt(s: string, pattern: string, j: nat) {
    j + |pattern| <= |s| && s[j..j + |pattern|] == pattern
  }

  ghost predicate Contains(s: string, pattern: string) {
    exists j: nat :: OccursAt(s, pattern, j)
  }

  /** The text before the first occurrence of the pattern at or after position `from`. */
  function Before(s: string, pattern: string, from: nat): (r: Option<string>)
    requires from <= |s|
    ensures r.Some? ==> |r.value| >= from && r.value <= s && OccursAt(s, pattern, |r.value|)
    ensures r.Some? ==> forall j: nat :: from <= j < |r.value| ==> !OccursAt(s, pattern, j)
    ensures r.None? ==> forall j: nat :: from <= j <= |s| ==> !OccursAt(s, pattern, j)
    decreases |s| - from
  {
    if OccursAt(s, pattern, from) then Some(s[..from])
    else if from == |s| then None
    else Before(s, pattern, from + 1)
  }

  predicate HasSuffix(s: string, suffix: string) {
    |suffix| <= |s| && s[|s| - |suffix|..] == suffix
  }

  /** The engine that a cluster event wakes, if any. */
  function EngineForEvent(e: ClusterEvent): Option<string> {
    if e.reason != "Scheduled" || e.kind != "Pod" || !HasSuffix(e.subject, POD_SUFFIX) then None
    else match Before(e.subject, REPLICA_INFIX, 0)
      case None => None
      case Some(volume) => Some(EngineName(volume))
  }

  /** Inside the name of a replica pod, the infix starts before the end of v only if v + "-" holds it. */
  lemma EarlyInfix(v: string, tail: string, j: nat)
    requires j < |v|
    ensures OccursAt(v + REPLICA_INFIX + tail, REPLICA_INFIX, j) <==> OccursAt(v + "-", REPLICA_INFIX, j)
  {
    var s := v + REPLICA_INFIX + tail;
    assert s[..|v| + 1] == v + "-";
    if j + 9 <= |v| + 1 {
      assert s[j..j + 9] == (v + "-")[j..j + 9];
    } else {
      var k := |v| - j;
      assert s[j..j + 9][k] == s[|v|] == '-';
      assert REPLICA_INFIX[k] != '-';
    }
  }

  /** The scheduling event of v's replica pod wakes v's engine exactly when v + "-" does not contain the infix. */
  lemma EventReachesItsEngine(v: string, index: nat)
    ensures EngineForEvent(ClusterEvent("Scheduled", "Pod", PodName(ReplicaName(v, index)))) == Some(EngineName(v))
            <==> !Contains(v + "-", REPLICA_INFIX)
  {
    var tail := Print(index) + POD_SUFFIX;
    var s := PodName(ReplicaName(v, index));
    assert s == v + REPLICA_INFIX + tail;
    assert s[|v|..|v| + 9] == REPLICA_INFIX;
    assert OccursAt(s, REPLICA_INFIX, |v|);
    assert s[|s| - 4..] == POD_SUFFIX;
    var found := Before(s, REPLICA_INFIX, 0);
    assert found.Some? && |found.value| <= |v|;
    var at := |found.value|;
    if at == |v| {
      assert found.value == v;
      forall j: nat ensures !OccursAt(v + "-", REPLICA_INFIX, j) {
        if j < |v| { EarlyInfix(v, tail, j); }
      }
    } else {
      EarlyInfix(v, tail, at);
      assert Contains(v + "-", REPLICA_INFIX);
      assert |EngineName(found.value)| < |EngineName(v)|;
    }
  }

  /** Which events wake an engine at all: the scheduling of a pod named like a replica's. */
  lemma WhenEventsWake(e: ClusterEvent)
    ensures EngineForEvent(e).Some? <==>
              e.reason == "Scheduled" && e.kind == "Pod" && HasSuffix(e.subject, "-pod") && Contains(e.subject, "-replica-")
  {
    var found := Before(e.subject, REPLICA_INFIX, 0);
    if j: nat :| OccursAt(e.subject, REPLICA_INFIX, j) {
      assert j <= |e.subject|;
    }
    if found.Some? {
      assert OccursAt(e.subject, REPLICA_INFIX, |found.value|);
    }
  }

  // ---- Names that fit ----

  predicate Fits(name: string) {
    |name| <= MAX_NAME_LENGTH && |PodName(name)| <= MAX_NAME_LENGTH
  }

  /** The dashboard's check, which looks at the engine and at four sample indices only. */
  predicate DerivedVolumeNamesFit(volume: string) {
    Fits(EngineName(volume)) && forall i :: i in [0, 9, 99, 999] ==> Fits(ReplicaName(volume, i))
  }

  /** The four samples decide for every index below 1000. */
  lemma SamplesDecide(volume: string)
    ensures DerivedVolumeNamesFit(volume)
            <==> Fits(EngineName(volume)) && forall i: nat :: i < 1000 ==> Fits(ReplicaName(volume, i))
  {
    PrintLength(999);
    PrintLength(0);
    PrintLength(9);
    PrintLength(99);
    assert 999 in [0, 9, 99, 999];
    forall i: nat | i < 1000 ensures |Print(i)| <= 3 {
      PrintLength(i);
    }
    assert DerivedVolumeNamesFit(volume) ==> Fits(ReplicaName(volume, 999));
  }

  /** At index 1000 the guarantee ends: an accepted volume can have a pod name that is too long. */
  lemma ThousandthNameMayOverflow(volume: string)
    requires |volume| == 237
    ensures DerivedVolumeNamesFit(volume) && !Fits(ReplicaName(volume, 1000))
  {
    PrintLength(0);
    PrintLength(9);
    PrintLength(99);
    PrintLength(999);
    PrintLength(1000);
  }

  // ---- Snapshot files ----

  lemma SnapshotPathsDistinct(volume: string, a: string, b: string)
    ensures SnapshotFilePath(volume, a) == SnapshotFilePath(volume, b) ==> a == b
    ensures SnapshotFilePath(volume, a) != DataPath(volume)
  {
    var head := "/var/lib/kdfs/" + volume + "/";
    var pa, pb := SnapshotFilePath(volume, a), SnapshotFilePath(volume, b);
    assert pa == head + "snapshot-" + a + ".img" && pb == head + "snapshot-" + b + ".img";
    if pa == pb {
      assert a == pa[|head| + 9..|pa| - 4] && b == pb[|head| + 9..|pb| - 4];
    }
    assert DataPath(volume) == head + "vol.img";
    assert pa[|head|] == 's' && DataPath(volume)[|head|] == 'v';
  }

}
