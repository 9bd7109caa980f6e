/** The API objects of one volume, as the controllers read and write them. */
module Types {
  import opened Wrappers
  import opened Decimal

  datatype ReplicaType = Local | Remote

  datatype ReplicaPhase = Unset | Pending | Creating | Running | Failed

  datatype ReplicaSpec = ReplicaSpec(volume: string, node: string, rtype: ReplicaType,
                                     size: string, dataPath: string, snapshotSource: string)

  datatype ReplicaStatus = ReplicaStatus(phase: ReplicaPhase, nqn: string, endpoint: string)

  datatype Replica = Replica(spec: ReplicaSpec, status: ReplicaStatus, deleting: bool)

  datatype PodPhase = PodPending | PodRunning | PodFailed

  datatype Pod = Pod(phase: PodPhase, ip: string)

  /** A node; `controlPlane` is the control-plane label. */
  datatype Node = Node(name: string, controlPlane: bool)

  datatype Attachment = Attachment(name: string, node: string, isLocal: bool,
                                   nqn: string, address: string, port: string)

  datatype EnginePhase = Unset | Pending | Running | Degraded | Failed

  datatype Engine = Engine(node: string, replicas: seq<Attachment>, phase: EnginePhase)

  datatype VolumePhase = Unset | Creating | Ready | Degraded | Failed

  /** What a healing pass saw of a replica: no object at all, or a phase. */
  datatype HealthPhase = Missing | Seen(phase: ReplicaPhase)

  datatype Health = Health(name: string, node: string, phase: HealthPhase,
                           attempts: nat, lastHeal: Option<int>)

  datatype VolumeStatus = VolumeStatus(phase: VolumePhase, engineRef: bool, health: seq<Health>)

  datatype Volume = Volume(name: string, size: string, nodeID: string, replicaCount: string,
                           snapshotSource: Option<string>, status: VolumeStatus)

  // ---- The replica count field ----

  datatype ReplicaCount = Auto | Fixed(count: nat)

  const MAX_INT := 0x7FFF_FFFF_FFFF_FFFF

  /** Signed 64-bit decimal conversion: an optional sign, then digits only, in range. */
  function Atoi(s: string): Result<int> {
    var signed := s != [] && (s[0] == '-' || s[0] == '+');
    var digits := if signed then s[1..] else s;
    if digits == [] || !AllDigits(digits) then Err
    else
      var v: int := Value(digits);
      var n := if signed && s[0] == '-' then 0 - v else v;
      if -MAX_INT - 1 <= n <= MAX_INT then Ok(n) else Err
  }

  function ParseReplicaCount(value: string): (r: Result<ReplicaCount>)
    ensures r.Ok? && r.value.Fixed? ==> 0 < r.value.count <= MAX_INT
    ensures value in ["auto", ""] <==> r == Ok(Auto)
  {
    if value == "auto" || value == "" then Ok(Auto)
    else match Atoi(value)
      case Err => Err
      case Ok(n) => if n <= 0 then Err else Ok(Fixed(n))
  }

  /** A count may have a plus sign, but no minus sign, not even before a zero. */
  lemma SignedCounts(n: nat)
    ensures ParseReplicaCount("+" + Print(n)) == ParseReplicaCount(Print(n))
    ensures ParseReplicaCount("-" + Print(n)).Err?
  {
    var plus, minus := "+" + Print(n), "-" + Print(n);
    assert plus[1..] == Print(n) && minus[1..] == Print(n);
    assert IsDigit(Print(n)[0]) && "auto"[0] == 'a';
    assert plus[0] == '+' && minus[0] == '-';
  }

  /** A printed count is read back, and only as long as it is positive and fits an int. */
  lemma PrintedCountReadsBack(n: nat)
    ensures ParseReplicaCount(Print(n)) == if 0 < n <= MAX_INT then Ok(Fixed(n)) else Err
  {
    assert IsDigit(Print(n)[0]);
    assert "auto"[0] == 'a';
    ValueOfPrint(n);
  }

}
