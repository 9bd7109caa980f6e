/** What the sidecar's calls leave: which replicas the mirror serves, and after which changes of the list. */
module Mirror {
  import opened Wrappers
  import opened Decimal
  import opened Types
  import opened Sidecar

  /** The members a list calls for besides the local one. */
  function Wanted(list: seq<Attachment>): set<string> {
    set i | 0 <= i < |list| && !list[i].isLocal :: ControllerName(i)
  }

  lemma WantedAt(list: seq<Attachment>, i: nat)
    ensures ControllerName(i) in Wanted(list) <==> i < |list| && !list[i].isLocal
    ensures ControllerName(i) != LOCAL_BDEV
  {
    assert ControllerName(i)[0] == 'n' && LOCAL_BDEV[0] == 'a';
    if ControllerName(i) in Wanted(list) {
      var j :| 0 <= j < |list| && !list[j].isLocal && ControllerName(j) == ControllerName(i);
      ControllerNameInjective(j, i);
    }
  }

  /** Every member has its controller, connected to the peer the list gives for its position. */
  ghost predicate Sound(s: Stack, list: seq<Attachment>) {
    && s.suffix == ""
    && s.mirror.Some? && LOCAL_BDEV in s.mirror.value
    && s.mirror.value <= {LOCAL_BDEV} + Wanted(list)
    && (forall i :: 0 <= i < |list| && ControllerName(i) in s.mirror.value ==>
          ControllerName(i) in s.controllers && s.controllers[ControllerName(i)] == PeerOf(list[i]))
  }

  /** The mirror serves exactly the local device and every remote replica of the list. */
  ghost predicate Serves(s: Stack, list: seq<Attachment>) {
    && s.mirror == Some({LOCAL_BDEV} + Wanted(list))
    && (forall i :: 0 <= i < |list| && !list[i].isLocal ==>
          ControllerName(i) in s.controllers && s.controllers[ControllerName(i)] == PeerOf(list[i]))
  }

  lemma SoundAndFullServes(s: Stack, list: seq<Attachment>)
    requires Sound(s, list) && forall i :: 0 <= i < |list| && !list[i].isLocal ==> ControllerName(i) in s.mirror.value
    ensures Serves(s, list)
  {
    assert s.mirror.value == {LOCAL_BDEV} + Wanted(list);
  }

  // ---- Extending the list at the tail ----

  lemma {:induction false} NothingToRemove(s: Stack, list: seq<Attachment>, current: set<string>, f: Faults, n: nat)
    requires n <= |s.replicas| && s.replicas <= list
    ensures Removals(s, list, current, f, n) == s
  {
    if n > 0 {
      NothingToRemove(s, list, current, f, n - 1);
      assert list[n - 1].name == s.replicas[n - 1].name;
    }
  }

  lemma AddOneIsSound(s: Stack, list: seq<Attachment>, i: nat, f: Faults)
    requires Sound(s, list) && i < |list| && !list[i].isLocal
    ensures var (t, ok) := AddOne(s, list[i], i, f);
            && Sound(t, list)
            && (ok <==> Attaches(f, i) && f.add(i))
            && s.mirror.value - {ControllerName(i)} <= t.mirror.value
            && (ok ==> ControllerName(i) in t.mirror.value)
  {
    var name := ControllerName(i);
    WantedAt(list, i);
    assert name + "" == name;
    var t := Attached(s, name, PeerOf(list[i]), Attaches(f, i));
    assert name !in t.mirror.value;
    forall j | 0 <= j < |list| && j != i ensures ControllerName(j) != name {
      ControllerNameInjective(j, i);
    }
    if Attaches(f, i) {
      assert name in t.controllers && name + t.suffix == name;
    }
  }

  lemma {:induction false} AdditionsAreSound(s: Stack, list: seq<Attachment>, current: set<string>, f: Faults, n: nat)
    requires Sound(s, list) && current <= s.mirror.value && n <= |list|
    ensures var (t, ok) := Additions(s, list, current, f, n);
            && Sound(t, list) && current <= t.mirror.value
            && (ok <==> forall i :: 0 <= i < n && MustAdd(list, current, i) ==> Attaches(f, i) && f.add(i))
            && (ok ==> forall i :: 0 <= i < n && !list[i].isLocal ==> ControllerName(i) in t.mirror.value)
  {
    if n > 0 {
      AdditionsAreSound(s, list, current, f, n - 1);
      var (t, ok) := Additions(s, list, current, f, n - 1);
      if ok && MustAdd(list, current, n - 1) {
        AddOneIsSound(t, list, n - 1, f);
        forall i | 0 <= i < n - 1 ensures ControllerName(i) != ControllerName(n - 1) {
          ControllerNameInjective(i, n - 1);
        }
      }
    }
  }

  /**
   Tail extension: whatever fails, no member is connected wrongly and the recorded list changes only
   on success; on success the mirror serves exactly the new list. It succeeds exactly when every
   replica that is not reported as a member attaches within five attempts and can be added.
   */
  lemma ExtendTail(s: Stack, list: seq<Attachment>, f: Faults)
    requires Sound(s, list) && s.replicas <= list
    ensures var (t, ok) := Reconfigured(s, list, f);
            && Sound(t, list)
            && t.replicas == (if ok then list else s.replicas)
            && (ok ==> Serves(t, list))
            && (ok <==> forall i :: 0 <= i < |list| && MustAdd(list, Current(s, f), i) ==> Attaches(f, i) && f.add(i))
  {
    NothingToRemove(s, list, Current(s, f), f, |s.replicas|);
    AdditionsAreSound(s, list, Current(s, f), f, |list|);
    var (t, ok) := Reconfigured(s, list, f);
    if ok {
      SoundAndFullServes(t, list);
    }
  }

  /** One call after another with the same list. */
  function Repeated(s: Stack, list: seq<Attachment>, fs: seq<Faults>): (r: (Stack, bool))
    requires fs != []
    decreases |fs|
  {
    if |fs| == 1 then Reconfigured(s, list, fs[0])
    else Repeated(Reconfigured(s, list, fs[0]).0, list, fs[1..])
  }

  /** Any number of failed calls followed by a successful one with the same list reaches the same mirror. */
  lemma {:induction false} RetriesReachTheSameMirror(s: Stack, list: seq<Attachment>, fs: seq<Faults>)
    requires Sound(s, list) && s.replicas <= list && fs != []
    ensures var (t, ok) := Repeated(s, list, fs);
            Sound(t, list) && (ok ==> Serves(t, list) && t.replicas == list)
    decreases |fs|
  {
    ExtendTail(s, list, fs[0]);
    if |fs| > 1 {
      RetriesReachTheSameMirror(Reconfigured(s, list, fs[0]).0, list, fs[1..]);
    }
  }

  /** A stack that serves its list is sound for every extension of it. */
  lemma ServingIsSoundLater(s: Stack, list: seq<Attachment>, longer: seq<Attachment>)
    requires s.suffix == "" && Serves(s, list) && list <= longer
    ensures Sound(s, longer)
  {
    forall x | x in Wanted(list) ensures x in Wanted(longer) {
      var i :| 0 <= i < |list| && !list[i].isLocal && ControllerName(i) == x;
      assert longer[i] == list[i];
    }
    WantedAt(list, 0);
    forall i | 0 <= i < |longer| && ControllerName(i) in s.mirror.value
      ensures ControllerName(i) in s.controllers && s.controllers[ControllerName(i)] == PeerOf(longer[i])
    {
      WantedAt(list, i);
    }
  }

  /**
   From a mirror that serves its list to one that serves a longer list: any number of failed calls and
   then a successful one.
   */
  lemma ServingExtends(s: Stack, longer: seq<Attachment>, fs: seq<Faults>)
    requires s.suffix == "" && Serves(s, s.replicas) && s.replicas <= longer && fs != []
    ensures var (t, ok) := Repeated(s, longer, fs);
            Sound(t, longer) && (ok ==> Serves(t, longer) && t.replicas == longer)
  {
    ServingIsSoundLater(s, s.replicas, longer);
    RetriesReachTheSameMirror(s, longer, fs);
  }

  // ---- Any change of the list, when every call succeeds ----

  /** Every call succeeds. */
  ghost predicate Faultless(f: Faults) {
    f.info && (forall i :: f.remove(i) && f.detach(i) && f.add(i)) && forall i :: f.attach(i, 0)
  }

  /** The members among the first n old positions that a change takes away. */
  function Dropped(before: seq<Attachment>, list: seq<Attachment>, n: nat): set<string>
    requires n <= |before|
  {
    set i | 0 <= i < n && !before[i].isLocal && !NamedIn(before[i].name, list) :: ControllerName(i)
  }

  lemma {:induction false} RemovalsDrop(s: Stack, list: seq<Attachment>, f: Faults, n: nat)
    requires Serves(s, s.replicas) && s.suffix == "" && Faultless(f) && n <= |s.replicas|
    ensures var t := Removals(s, list, s.mirror.value, f, n);
            && t.mirror == Some(s.mirror.value - Dropped(s.replicas, list, n))
            && t.controllers == s.controllers - Dropped(s.replicas, list, n)
  {
    if n == 0 {
      assert s.mirror.value - Dropped(s.replicas, list, 0) == s.mirror.value;
      assert s.controllers - Dropped(s.replicas, list, 0) == s.controllers;
    } else {
      RemovalsDrop(s, list, f, n - 1);
      var name := ControllerName(n - 1);
      WantedAt(s.replicas, n - 1);
      assert name + "" == name;
      var t := Removals(s, list, s.mirror.value, f, n - 1);
      if MustRemove(s.replicas, list, s.mirror.value, n - 1) {
        assert Dropped(s.replicas, list, n) == Dropped(s.replicas, list, n - 1) + {name};
        assert RemoveOne(t, n - 1, f).mirror.value == s.mirror.value - Dropped(s.replicas, list, n);
        assert t.controllers - {name} == s.controllers - Dropped(s.replicas, list, n);
      } else {
        assert Dropped(s.replicas, list, n) == Dropped(s.replicas, list, n - 1);
      }
    }
  }

  lemma AddOneAdds(s: Stack, list: seq<Attachment>, i: nat, f: Faults)
    requires s.suffix == "" && s.mirror.Some? && ControllerName(i) !in s.mirror.value && Faultless(f) && i < |list|
    ensures AddOne(s, list[i], i, f) == (s.(controllers := s.controllers[ControllerName(i) := PeerOf(list[i])],
                                            mirror := Some(s.mirror.value + {ControllerName(i)})), true)
  {
    var name := ControllerName(i);
    assert FirstSuccess(f, i, 0) == 0;
    assert name + "" == name;
    var t := Attached(s, name, PeerOf(list[i]), true);
    assert t.mirror.value == s.mirror.value;
    assert name in t.controllers && name + t.suffix == name;
    assert t.controllers == s.controllers[name := PeerOf(list[i])];
  }

  lemma {:induction false} AdditionsAdd(s: Stack, list: seq<Attachment>, current: set<string>, f: Faults, n: nat)
    requires s.suffix == "" && s.mirror.Some? && s.mirror.value <= current && Faultless(f) && n <= |list|
    ensures var (t, ok) := Additions(s, list, current, f, n);
            && ok && t.mirror == Some(s.mirror.value + (Wanted(list[..n]) - current))
            && (forall i :: 0 <= i < n && MustAdd(list, current, i) ==>
                  ControllerName(i) in t.controllers && t.controllers[ControllerName(i)] == PeerOf(list[i]))
            && (forall x :: x in s.controllers && (x in current || x !in Wanted(list[..n])) ==>
                  x in t.controllers && t.controllers[x] == s.controllers[x])
  {
    if n == 0 {
      assert s.mirror.value + (Wanted(list[..0]) - current) == s.mirror.value;
    } else {
      AdditionsAdd(s, list, current, f, n - 1);
      var (t, ok) := Additions(s, list, current, f, n - 1);
      var name := ControllerName(n - 1);
      WantedGrows(list, n);
      if MustAdd(list, current, n - 1) {
        WantedAt(list[..n - 1], n - 1);
        AddOneAdds(t, list, n - 1, f);
        assert s.mirror.value + (Wanted(list[..n]) - current) == t.mirror.value + {name};
        forall i | 0 <= i < n - 1 ensures ControllerName(i) != name { ControllerNameInjective(i, n - 1); }
      } else {
        assert Wanted(list[..n]) - current == Wanted(list[..n - 1]) - current;
      }
    }
  }

  lemma WantedGrows(list: seq<Attachment>, n: nat)
    requires 0 < n <= |list|
    ensures Wanted(list[..n]) == Wanted(list[..n - 1]) + if list[n - 1].isLocal then {} else {ControllerName(n - 1)}
  {
    forall x | x in Wanted(list[..n]) ensures x in Wanted(list[..n - 1]) + if list[n - 1].isLocal then {}
          else {ControllerName(n - 1)} {
      var i :| 0 <= i < n && !list[..n][i].isLocal && ControllerName(i) == x;
      assert i < n - 1 ==> list[..n - 1][i] == list[i];
    }
    forall x | x in Wanted(list[..n - 1]) ensures x in Wanted(list[..n]) {
      var i :| 0 <= i < n - 1 && !list[..n - 1][i].isLocal && ControllerName(i) == x;
      assert list[..n][i] == list[i];
    }
    if !list[n - 1].isLocal { assert list[..n][n - 1] == list[n - 1]; }
  }

  /**
   Every old remote replica stays at its position with its peer, or leaves the list together with
   its position.
   */
  predicate StaysInPlace(before: seq<Attachment>, list: seq<Attachment>) {
    forall i :: 0 <= i < |before| && !before[i].isLocal ==>
      if i < |list| && !list[i].isLocal then NamedIn(before[i].name, list) && PeerOf(list[i]) == PeerOf(before[i])
      else !NamedIn(before[i].name, list)
  }

  /** Whether position i held a remote replica. */
  predicate RemoteAt(list: seq<Attachment>, i: nat) {
    i < |list| && !list[i].isLocal
  }

  /** What a faultless change leaves, position by position. */
  ghost predicate Changed(t: Stack, before: seq<Attachment>, list: seq<Attachment>) {
    && t.mirror.Some? && LOCAL_BDEV in t.mirror.value
    && (forall x :: x in t.mirror.value ==> x == LOCAL_BDEV || exists i: nat :: x == ControllerName(i))
    && (forall i: nat :: ControllerName(i) in t.mirror.value <==>
          if RemoteAt(before, i) then NamedIn(before[i].name, list) else RemoteAt(list, i))
    && (forall i: nat :: ControllerName(i) in t.mirror.value ==>
          ControllerName(i) in t.controllers
          && t.controllers[ControllerName(i)] == PeerOf(if RemoteAt(before, i) then before[i] else list[i]))
  }

  lemma ChangeByPosition(s: Stack, list: seq<Attachment>, f: Faults)
    requires s.suffix == "" && Serves(s, s.replicas) && Faultless(f)
    ensures var (t, ok) := Reconfigured(s, list, f); ok && t.replicas == list && Changed(t, s.replicas, list)
  {
    var before, current := s.replicas, s.mirror.value;
    RemovalsDrop(s, list, f, |before|);
    var removed := Removals(s, list, current, f, |before|);
    AdditionsAdd(removed, list, current, f, |list|);
    var (t, ok) := Reconfigured(s, list, f);
    assert list[..|list|] == list;
    forall i: nat
      ensures ControllerName(i) in t.mirror.value <==>
              if RemoteAt(before, i) then NamedIn(before[i].name, list) else RemoteAt(list, i)
      ensures ControllerName(i) in t.mirror.value ==>
              ControllerName(i) in t.controllers
              && t.controllers[ControllerName(i)] == PeerOf(if RemoteAt(before, i) then before[i] else list[i])
    {
      WantedAt(before, i);
      WantedAt(list, i);
      DroppedAt(before, list, i);
    }
  }

  lemma DroppedAt(before: seq<Attachment>, list: seq<Attachment>, i: nat)
    ensures ControllerName(i) in Dropped(before, list, |before|) <==> RemoteAt(before, i) && !NamedIn(before[i].name, list)
  {
    if ControllerName(i) in Dropped(before, list, |before|) {
      var j :| 0 <= j < |before| && !before[j].isLocal && !NamedIn(before[j].name, list)
            && ControllerName(j) == ControllerName(i);
      ControllerNameInjective(j, i);
    }
  }

  /**
   Exactly when a change of the list without a single failed call leaves a mirror that serves the new
   list. Members are named by position: a removal in the middle, or a replica that moves its address,
   succeeds and leaves the mirror wrong.
   */
  lemma ReconfigureServes(s: Stack, list: seq<Attachment>, f: Faults)
    requires s.suffix == "" && Serves(s, s.replicas) && Faultless(f)
    ensures var (t, ok) := Reconfigured(s, list, f);
            ok && t.replicas == list && (Serves(t, list) <==> StaysInPlace(s.replicas, list))
  {
    var before := s.replicas;
    ChangeByPosition(s, list, f);
    var t := Reconfigured(s, list, f).0;
    if Serves(t, list) {
      forall i | 0 <= i < |before| && !before[i].isLocal
        ensures if i < |list| && !list[i].isLocal then NamedIn(before[i].name, list) && PeerOf(list[i]) == PeerOf(before[i])
                else !NamedIn(before[i].name, list)
      {
        WantedAt(list, i);
        assert RemoteAt(before, i);
      }
    }
    if StaysInPlace(before, list) {
      StayingServes(t, before, list);
    }
  }

  lemma StayingServes(t: Stack, before: seq<Attachment>, list: seq<Attachment>)
    requires Changed(t, before, list) && StaysInPlace(before, list)
    ensures Serves(t, list)
  {
    forall i: nat
      ensures ControllerName(i) in t.mirror.value <==> RemoteAt(list, i)
      ensures RemoteAt(list, i) ==> ControllerName(i) in t.controllers && t.controllers[ControllerName(i)] == PeerOf(list[i])
    {
      assert RemoteAt(before, i) ==> 0 <= i < |before| && !before[i].isLocal;
    }
    forall x ensures x in t.mirror.value <==> x in {LOCAL_BDEV} + Wanted(list) {
      if x in t.mirror.value && x != LOCAL_BDEV {
        var i: nat :| x == ControllerName(i);
        assert RemoteAt(list, i);
      }
      if x in Wanted(list) {
        var i :| 0 <= i < |list| && !list[i].isLocal && ControllerName(i) == x;
        assert RemoteAt(list, i);
      }
    }
    assert t.mirror.value == {LOCAL_BDEV} + Wanted(list);
  }

  /**
   What healing and scaling up do to a list: the replica at position i leaves, the ones behind it move
   up and a new one is appended. The call succeeds and records the list, but position i is no member
   any more and nothing in the mirror is connected to the new replica: its place is taken by the
   controller of the replica that moved away from it.
   */
  lemma MiddleRemoval(s: Stack, i: nat, added: Attachment, f: Faults)
    requires s.suffix == "" && Serves(s, s.replicas) && Faultless(f)
    requires i < |s.replicas| - 1 && RemoteAt(s.replicas, i) && RemoteAt(s.replicas, |s.replicas| - 1)
    requires forall j, k :: 0 <= j < k < |s.replicas| ==> s.replicas[j].name != s.replicas[k].name
    requires !added.isLocal && !NamedIn(added.name, s.replicas)
    requires forall k :: 0 <= k < |s.replicas| ==> PeerOf(s.replicas[k]) != PeerOf(added)
    ensures var list := s.replicas[..i] + s.replicas[i + 1..] + [added];
            var (t, ok) := Reconfigured(s, list, f);
            && ok && t.replicas == list && t.mirror.Some? && !Serves(t, list)
            && ControllerName(i) !in t.mirror.value
            && forall x :: x in t.mirror.value && x in t.controllers && x != LOCAL_BDEV ==> t.controllers[x] != PeerOf(added)
  {
    var before := s.replicas;
    var list := before[..i] + before[i + 1..] + [added];
    ChangeByPosition(s, list, f);
    MiddleIsWrong(Reconfigured(s, list, f).0, before, i, added);
  }

  lemma MiddleIsWrong(t: Stack, before: seq<Attachment>, i: nat, added: Attachment)
    requires i < |before| - 1 && RemoteAt(before, i) && RemoteAt(before, |before| - 1) && !added.isLocal
    requires forall j, k :: 0 <= j < k < |before| ==> before[j].name != before[k].name
    requires !NamedIn(added.name, before) && forall k :: 0 <= k < |before| ==> PeerOf(before[k]) != PeerOf(added)
    requires Changed(t, before, before[..i] + before[i + 1..] + [added])
    ensures !Serves(t, before[..i] + before[i + 1..] + [added]) && ControllerName(i) !in t.mirror.value
    ensures forall x :: x in t.mirror.value && x in t.controllers && x != LOCAL_BDEV ==> t.controllers[x] != PeerOf(added)
  {
    var list, last := before[..i] + before[i + 1..] + [added], |before| - 1;
    MovedUp(before, i, added);
    assert RemoteAt(list, last);
    assert ControllerName(last) in t.mirror.value && t.controllers[ControllerName(last)] == PeerOf(before[last]);
    forall x | x in t.mirror.value && x in t.controllers && x != LOCAL_BDEV ensures t.controllers[x] != PeerOf(added) {
      var k: nat :| x == ControllerName(k);
      assert t.controllers[x] == PeerOf(if RemoteAt(before, k) then before[k] else list[k]);
    }
  }

  /** The list without position i and with one more at the end. */
  lemma MovedUp(before: seq<Attachment>, i: nat, added: Attachment)
    requires i < |before| - 1 && !NamedIn(added.name, before)
    requires forall j, k :: 0 <= j < k < |before| ==> before[j].name != before[k].name
    ensures var list, last := before[..i] + before[i + 1..] + [added], |before| - 1;
            && |list| == |before| && list[last] == added
            && (forall k :: 0 <= k < last ==> list[k] == before[if k < i then k else k + 1])
            && !NamedIn(before[i].name, list) && NamedIn(before[last].name, list)
  {
    var list, last := before[..i] + before[i + 1..] + [added], |before| - 1;
    assert forall k :: 0 <= k < last ==> list[k] == before[if k < i then k else k + 1];
    assert before[last] == list[last - 1];
  }

  // ---- Truncating the list at the tail ----

  /** The members cut off between positions m and n that were taken away. */
  function CutOff(before: seq<Attachment>, m: nat, n: nat, f: Faults): set<string>
    requires n <= |before|
  {
    set i | m <= i < n && !before[i].isLocal && (f.remove(i) || f.detach(i)) :: ControllerName(i)
  }

  lemma {:induction false} RemovalsTruncate(s: Stack, m: nat, f: Faults, n: nat)
    requires m <= |s.replicas| && n <= |s.replicas| && s.suffix == "" && Serves(s, s.replicas)
    requires forall j, k :: 0 <= j < k < |s.replicas| ==> s.replicas[j].name != s.replicas[k].name
    ensures var t := Removals(s, s.replicas[..m], s.mirror.value, f, n);
            && t.mirror == Some(s.mirror.value - CutOff(s.replicas, m, n, f))
            && forall i: nat :: RemoteAt(s.replicas, i) && (i < m || i >= n) ==>
                 ControllerName(i) in t.controllers && t.controllers[ControllerName(i)] == PeerOf(s.replicas[i])
  {
    var before := s.replicas;
    if n == 0 {
      assert s.mirror.value - CutOff(before, m, 0, f) == s.mirror.value;
    } else {
      RemovalsTruncate(s, m, f, n - 1);
      var t := Removals(s, before[..m], s.mirror.value, f, n - 1);
      var name := ControllerName(n - 1);
      WantedAt(before, n - 1);
      assert name + "" == name;
      forall i: nat | i != n - 1 ensures ControllerName(i) != name { ControllerNameInjective(i, n - 1); }
      assert n - 1 < m ==> before[..m][n - 1] == before[n - 1];
      assert CutOff(before, m, n, f) == CutOff(before, m, n - 1, f)
             + if m <= n - 1 && !before[n - 1].isLocal && (f.remove(n - 1) || f.detach(n - 1)) then {name} else {};
      if MustRemove(before, before[..m], s.mirror.value, n - 1) {
        assert RemoteAt(before, n - 1);
        assert RemoveOne(t, n - 1, f).mirror.value == s.mirror.value - CutOff(before, m, n, f);
      } else {
        assert s.mirror.value - CutOff(before, m, n, f) == s.mirror.value - CutOff(before, m, n - 1, f);
      }
    }
  }

  lemma {:induction false} NothingToAdd(s: Stack, list: seq<Attachment>, current: set<string>, f: Faults, n: nat)
    requires n <= |list| && forall i :: 0 <= i < n ==> !MustAdd(list, current, i)
    ensures Additions(s, list, current, f, n) == (s, true)
  {
    if n > 0 {
      NothingToAdd(s, list, current, f, n - 1);
    }
  }

  /** The members are known: nothing but removals happens, and their failures are only logged. */
  lemma TruncateKnown(s: Stack, m: nat, f: Faults)
    requires m <= |s.replicas| && s.suffix == "" && Serves(s, s.replicas) && f.info
    requires forall j, k :: 0 <= j < k < |s.replicas| ==> s.replicas[j].name != s.replicas[k].name
    ensures var (t, ok) := Reconfigured(s, s.replicas[..m], f);
            && ok && t.replicas == s.replicas[..m]
            && (Serves(t, s.replicas[..m]) <==>
                  forall i: nat :: m <= i && RemoteAt(s.replicas, i) ==> f.remove(i) || f.detach(i))
  {
    var before, list := s.replicas, s.replicas[..m];
    RemovalsTruncate(s, m, f, |before|);
    forall i | 0 <= i < |list| ensures !MustAdd(list, s.mirror.value, i) {
      WantedAt(before, i);
    }
    var t := Removals(s, list, s.mirror.value, f, |before|);
    NothingToAdd(t, list, s.mirror.value, f, |list|);
    assert forall i: nat :: RemoteAt(before, i) && i < m ==>
             ControllerName(i) in t.controllers && t.controllers[ControllerName(i)] == PeerOf(before[i]);
    CutServes(t.(replicas := list), before, m, f);
  }

  /** Nothing is removed while the members are not known. */
  lemma {:induction false} NothingKnownToRemove(s: Stack, list: seq<Attachment>, f: Faults, n: nat)
    requires n <= |s.replicas|
    ensures Removals(s, list, {}, f, n) == s
  {
    if n > 0 {
      NothingKnownToRemove(s, list, f, n - 1);
    }
  }

  /** Additions for the first positions do not look at the rest of the list. */
  lemma {:induction false} AdditionsPrefix(s: Stack, list: seq<Attachment>, m: nat, current: set<string>, f: Faults, n: nat)
    requires n <= m <= |list|
    ensures Additions(s, list[..m], current, f, n) == Additions(s, list, current, f, n)
  {
    if n > 0 {
      AdditionsPrefix(s, list, m, current, f, n - 1);
      assert list[..m][n - 1] == list[n - 1];
    }
  }

  /** Additions for the first positions leave the members at later positions alone. */
  lemma {:induction false} AdditionsKeepLater(s: Stack, list: seq<Attachment>, current: set<string>, f: Faults, n: nat, i: nat)
    requires Sound(s, list) && current <= s.mirror.value && n <= |list| && n <= i && ControllerName(i) in s.mirror.value
    ensures var t := Additions(s, list, current, f, n).0; t.mirror.Some? && ControllerName(i) in t.mirror.value
  {
    if n > 0 {
      AdditionsKeepLater(s, list, current, f, n - 1, i);
      AdditionsAreSound(s, list, current, f, n - 1);
      var (t, ok) := Additions(s, list, current, f, n - 1);
      if ok && MustAdd(list, current, n - 1) {
        AddOneIsSound(t, list, n - 1, f);
        if ControllerName(i) == ControllerName(n - 1) { ControllerNameInjective(i, n - 1); }
      }
    }
  }

  /** The members are not known: nothing is removed, and every remaining replica is attached afresh. */
  lemma TruncateUnknown(s: Stack, m: nat, f: Faults)
    requires m <= |s.replicas| && s.suffix == "" && Serves(s, s.replicas) && !f.info
    ensures var (t, ok) := Reconfigured(s, s.replicas[..m], f);
            && (ok <==> forall i :: 0 <= i < m && !s.replicas[i].isLocal ==> Attaches(f, i) && f.add(i))
            && t.replicas == (if ok then s.replicas[..m] else s.replicas)
            && (ok ==> (Serves(t, s.replicas[..m]) <==> forall i: nat :: m <= i ==> !RemoteAt(s.replicas, i)))
  {
    var before, list := s.replicas, s.replicas[..m];
    ServingIsSoundLater(s, before, before);
    NothingKnownToRemove(s, list, f, |before|);
    AdditionsPrefix(s, before, m, {}, f, m);
    AdditionsAreSound(s, before, {}, f, m);
    var (t, ok) := Additions(s, before, {}, f, m);
    assert Reconfigured(s, list, f) == (if ok then t.(replicas := list) else t, ok);
    if ok {
      forall i: nat | m <= i && RemoteAt(before, i) ensures ControllerName(i) in t.mirror.value {
        WantedAt(before, i);
        AdditionsKeepLater(s, before, {}, f, m, i);
      }
      SoundCutServes(t.(replicas := list), before, m);
    }
  }

  /** A sound stack with every member of a list serves a prefix of it exactly if no remote replica was cut off. */
  lemma SoundCutServes(t: Stack, before: seq<Attachment>, m: nat)
    requires m <= |before| && Sound(t, before)
    requires forall i: nat :: RemoteAt(before, i) ==> ControllerName(i) in t.mirror.value
    ensures Serves(t, before[..m]) <==> forall i: nat :: m <= i ==> !RemoteAt(before, i)
  {
    var list := before[..m];
    if Serves(t, list) {
      forall i: nat | m <= i ensures !RemoteAt(before, i) {
        WantedAt(list, i);
      }
    }
    if forall i: nat :: m <= i ==> !RemoteAt(before, i) {
      forall x | x in t.mirror.value && x != LOCAL_BDEV ensures x in Wanted(list) {
        var i :| 0 <= i < |before| && !before[i].isLocal && ControllerName(i) == x;
        assert RemoteAt(before, i);
        WantedAt(list, i);
      }
      forall i | 0 <= i < |list| && !list[i].isLocal
        ensures ControllerName(i) in t.mirror.value && ControllerName(i) in t.controllers
                && t.controllers[ControllerName(i)] == PeerOf(list[i])
      {
        assert RemoteAt(before, i);
      }
      assert t.mirror.value == {LOCAL_BDEV} + Wanted(list);
    }
  }

  /**
   Truncating at the tail, whatever fails. If the mirror can be asked, the call succeeds, because
   failed removals are only logged, and leaves a mirror that serves the shorter list exactly when for
   every remote replica cut off the removal or the detach succeeded. If it cannot, nothing is removed
   and every remaining replica is attached again: the call succeeds exactly when all of them attach and
   can be added, and then serves the shorter list exactly when no remote replica was cut off.
   */
  lemma TruncateTail(s: Stack, m: nat, f: Faults)
    requires m <= |s.replicas| && s.suffix == "" && Serves(s, s.replicas)
    requires forall j, k :: 0 <= j < k < |s.replicas| ==> s.replicas[j].name != s.replicas[k].name
    ensures var (t, ok) := Reconfigured(s, s.replicas[..m], f);
            && (ok <==> f.info || forall i :: 0 <= i < m && !s.replicas[i].isLocal ==> Attaches(f, i) && f.add(i))
            && t.replicas == (if ok then s.replicas[..m] else s.replicas)
            && (ok ==> (Serves(t, s.replicas[..m]) <==>
                          forall i: nat :: m <= i && RemoteAt(s.replicas, i) ==> f.info && (f.remove(i) || f.detach(i))))
  {
    if f.info {
      TruncateKnown(s, m, f);
    } else {
      TruncateUnknown(s, m, f);
    }
  }

  lemma CutServes(t: Stack, before: seq<Attachment>, m: nat, f: Faults)
    requires m <= |before| && t.mirror == Some({LOCAL_BDEV} + Wanted(before) - CutOff(before, m, |before|, f))
    requires forall i: nat :: RemoteAt(before, i) && i < m ==>
               ControllerName(i) in t.controllers && t.controllers[ControllerName(i)] == PeerOf(before[i])
    ensures Serves(t, before[..m]) <==> forall i: nat :: m <= i && RemoteAt(before, i) ==> f.remove(i) || f.detach(i)
  {
    var list := before[..m];
    if Serves(t, list) {
      forall i: nat | m <= i && RemoteAt(before, i) ensures f.remove(i) || f.detach(i) {
        WantedAt(list, i);
        WantedAt(before, i);
        CutOffAt(before, m, f, i);
      }
    }
    if forall i: nat :: m <= i && RemoteAt(before, i) ==> f.remove(i) || f.detach(i) {
      CutIsExact(before, m, f);
      assert forall i :: 0 <= i < |list| && !list[i].isLocal ==> RemoteAt(before, i);
    }
  }

  lemma CutIsExact(before: seq<Attachment>, m: nat, f: Faults)
    requires m <= |before| && forall i: nat :: m <= i && RemoteAt(before, i) ==> f.remove(i) || f.detach(i)
    ensures {LOCAL_BDEV} + Wanted(before) - CutOff(before, m, |before|, f) == {LOCAL_BDEV} + Wanted(before[..m])
  {
    var list := before[..m];
    forall x | x in Wanted(before) - CutOff(before, m, |before|, f) ensures x in Wanted(list) {
      var i :| 0 <= i < |before| && !before[i].isLocal && ControllerName(i) == x;
      CutOffAt(before, m, f, i);
      WantedAt(list, i);
    }
    forall x | x in Wanted(list) ensures x in Wanted(before) && x !in CutOff(before, m, |before|, f) {
      var i :| 0 <= i < m && !list[i].isLocal && ControllerName(i) == x;
      CutOffAt(before, m, f, i);
      WantedAt(before, i);
    }
    forall i | m <= i < |before| ensures ControllerName(i) != LOCAL_BDEV {
      WantedAt(before, i);
    }
  }

  lemma CutOffAt(before: seq<Attachment>, m: nat, f: Faults, i: nat)
    ensures ControllerName(i) in CutOff(before, m, |before|, f) <==>
            m <= i && RemoteAt(before, i) && (f.remove(i) || f.detach(i))
  {
    if ControllerName(i) in CutOff(before, m, |before|, f) {
      var j :| m <= j < |before| && !before[j].isLocal && (f.remove(j) || f.detach(j))
            && ControllerName(j) == ControllerName(i);
      ControllerNameInjective(j, i);
    }
  }

  // ---- Stacks whose members cannot be changed ----

  /** No mirror, or no member and no controller whose device has the name a position stands for. */
  ghost predicate Stuck(s: Stack) {
    s.mirror.Some? ==>
      && (forall i: nat :: ControllerName(i) !in s.mirror.value)
      && (forall i: nat, j: nat :: ControllerName(i) + s.suffix != ControllerName(j))
      && (forall c, j: nat :: c in s.controllers ==> c + s.suffix != ControllerName(j))
  }

  /** The device of an attached controller is its first namespace, named after the controller with "n1". */
  lemma NamespaceNamesDiffer(i: nat, j: nat)
    ensures ControllerName(i) + "n1" != ControllerName(j)
  {
    var device, name, digits := ControllerName(i) + "n1", ControllerName(j), Print(j);
    assert device[|device| - 2] == 'n';
    assert name[|name| - 2] == if |digits| >= 2 then digits[|digits| - 2] else 'e';
    assert |digits| >= 2 ==> IsDigit(digits[|digits| - 2]);
  }

  lemma {:induction false} RemovalsStayStuck(s: Stack, list: seq<Attachment>, f: Faults, n: nat)
    requires Stuck(s) && n <= |s.replicas|
    ensures Removals(s, list, Current(s, f), f, n) == s
  {
    if n > 0 {
      RemovalsStayStuck(s, list, f, n - 1);
    }
  }

  lemma {:induction false} AdditionsStayStuck(s: Stack, list: seq<Attachment>, f: Faults, n: nat)
    requires Stuck(s) && n <= |list|
    ensures var (t, ok) := Additions(s, list, Current(s, f), f, n);
            Stuck(t) && (ok <==> forall i :: 0 <= i < n ==> list[i].isLocal)
  {
    if n > 0 {
      AdditionsStayStuck(s, list, f, n - 1);
      var (t, ok) := Additions(s, list, Current(s, f), f, n - 1);
      if ok && !list[n - 1].isLocal {
        var u := Attached(t, ControllerName(n - 1), PeerOf(list[n - 1]), Attaches(f, n - 1));
        assert Stuck(u);
        assert !CanAdd(u, ControllerName(n - 1));
      }
    }
  }

  /**
   On such a stack a change succeeds exactly when the new list is all local, and it stays like that:
   every retry fails again, whatever the calls do.
   */
  lemma StuckForGood(s: Stack, list: seq<Attachment>, f: Faults)
    requires Stuck(s)
    ensures var (t, ok) := Reconfigured(s, list, f);
            Stuck(t) && (ok <==> forall i :: 0 <= i < |list| ==> list[i].isLocal)
  {
    RemovalsStayStuck(s, list, f, |s.replicas|);
    AdditionsStayStuck(s, list, f, |list|);
  }

  // ---- The stack that setup leaves ----

  predicate Connected(list: seq<Attachment>, f: Faults, i: nat) {
    i < |list| && Attemptable(list[i]) && Attaches(f, i)
  }

  lemma {:induction false} ConnectionsUpTo(list: seq<Attachment>, f: Faults, n: nat)
    requires n <= |list|
    ensures forall i: nat :: i < n && Connected(list, f, i) ==>
              ControllerName(i) in Connections(list, f, n) && Connections(list, f, n)[ControllerName(i)] == PeerOf(list[i])
    ensures forall x :: x in Connections(list, f, n) ==>
              exists i: nat :: i < n && Connected(list, f, i) && x == ControllerName(i)
  {
    if n > 0 {
      ConnectionsUpTo(list, f, n - 1);
      forall i: nat | i < n - 1 ensures ControllerName(i) != ControllerName(n - 1) { ControllerNameInjective(i, n - 1); }
      forall x | x in Connections(list, f, n)
        ensures exists i: nat :: i < n && Connected(list, f, i) && x == ControllerName(i)
      {
        if x !in Connections(list, f, n - 1) { assert Connected(list, f, n - 1) && x == ControllerName(n - 1); }
      }
    }
  }

  lemma {:induction false} BasesUpTo(list: seq<Attachment>, suffix: string, f: Faults, n: nat)
    requires n <= |list|
    ensures forall x :: x in Bases(list, suffix, f, n)
                        <==> exists i: nat :: i < n && Connected(list, f, i) && x == ControllerName(i) + suffix
  {
    if n > 0 {
      BasesUpTo(list, suffix, f, n - 1);
      forall x
        ensures x in Bases(list, suffix, f, n)
                <==> exists i: nat :: i < n && Connected(list, f, i) && x == ControllerName(i) + suffix
      {
        if x in Bases(list, suffix, f, n) && x !in Bases(list, suffix, f, n - 1) {
          assert Connected(list, f, n - 1) && x == ControllerName(n - 1) + suffix;
        }
      }
    }
  }

  /** Setup tries exactly the remote replicas with an endpoint, and mirrors exactly if one attached. */
  lemma {:induction false} SetupAttempts(list: seq<Attachment>, suffix: string, f: Faults)
    ensures forall i: nat :: i in AttachCalls(list, f, |list|) <==> i < |list| && Attemptable(list[i])
    ensures MirrorOf(list, suffix, f).Some? <==> exists i: nat :: Connected(list, f, i)
  {
    CallsUpTo(list, f, |list|);
    BasesUpTo(list, suffix, f, |list|);
    if i: nat :| Connected(list, f, i) {
      assert ControllerName(i) + suffix in Bases(list, suffix, f, |list|);
    }
    if Bases(list, suffix, f, |list|) != [] {
      assert Bases(list, suffix, f, |list|)[0] in Bases(list, suffix, f, |list|);
    }
  }

  /** A replica that setup attaches: remote, with NQN and address, and one of five attempts succeeds. */
  ghost predicate Attachable(list: seq<Attachment>, f: Faults, k: nat) {
    && k < |list| && !list[k].isLocal && list[k].nqn != "" && list[k].address != ""
    && exists attempt: nat :: attempt < 5 && f.attach(k, attempt)
  }

  lemma AttachableIsConnected(list: seq<Attachment>, f: Faults, k: nat)
    ensures Attachable(list, f, k) <==> Connected(list, f, k)
  {
    if k < |list| {
      var n := FirstSuccess(f, k, 0);
      if attempt: nat :| attempt < 5 && f.attach(k, attempt) {
        assert n <= attempt;
      }
    }
  }

  /**
   What clients reach after a setup in which no other call fails: the mirror raid0 exactly if some remote
   replica with NQN and address attached within five attempts, and the local device aio0 otherwise.
   */
  lemma SetupExports(list: seq<Attachment>, suffix: string, f: Faults, g: SetupFaults)
    requires g.transport && g.aio && g.mirror && g.subsystem && g.namespace && g.listener
    ensures Stacked(list, suffix, f, g)
    ensures TargetOf(ExportOf(list, suffix, f), g)
            == Target(true, Some(if exists k: nat :: Attachable(list, f, k) then "raid0" else "aio0"), true)
  {
    SetupAttempts(list, suffix, f);
    if k: nat :| Attachable(list, f, k) {
      AttachableIsConnected(list, f, k);
    }
    if k: nat :| Connected(list, f, k) {
      AttachableIsConnected(list, f, k);
    }
  }

  /**
   What a setup connects and mirrors: for each replica that attached, and for no other, a controller at
   its target; and, if there is one, a mirror of the local device and those controllers' devices.
   */
  lemma SetupConnects(list: seq<Attachment>, suffix: string, f: Faults)
    ensures var s := SetupStack(suffix, list, f);
            && (forall x :: x in s.controllers <==> exists k: nat :: Attachable(list, f, k) && x == ControllerName(k))
            && (forall k: nat :: Attachable(list, f, k) ==>
                  ControllerName(k) in s.controllers
                  && s.controllers[ControllerName(k)] == Peer(list[k].nqn, list[k].address, list[k].port))
            && (s.mirror.Some? ==> forall x ::
                  x in s.mirror.value <==>
                    x == "aio0" || exists k: nat :: Attachable(list, f, k) && x == ControllerName(k) + suffix)
  {
    ConnectionsUpTo(list, f, |list|);
    BasesUpTo(list, suffix, f, |list|);
    forall k: nat ensures Attachable(list, f, k) <==> Connected(list, f, k) {
      AttachableIsConnected(list, f, k);
    }
  }

  /** How often position i was tried. */
  function Tries(calls: seq<nat>, i: nat): nat {
    multiset(calls)[i]
  }

  /**
   How setup tries: it goes through the list in order, and tries a replica with an endpoint until one
   attempt succeeds, at most five times.
   */
  lemma SetupTries(list: seq<Attachment>, f: Faults)
    ensures var calls := AttachCalls(list, f, |list|);
            && (forall j, k :: 0 <= j <= k < |calls| ==> calls[j] <= calls[k])
            && forall i: nat ::
                 if i < |list| && !list[i].isLocal && list[i].nqn != "" && list[i].address != "" then
                   && 1 <= Tries(calls, i) <= 5
                   && (forall n: nat :: n < Tries(calls, i) - 1 ==> !f.attach(i, n))
                   && (Tries(calls, i) < 5 ==> f.attach(i, Tries(calls, i) - 1))
                 else Tries(calls, i) == 0
  {
    forall i: nat {
      TriesUpTo(list, f, |list|, i);
    }
    TriesInOrder(list, f, |list|);
  }

  lemma {:induction false} TriesUpTo(list: seq<Attachment>, f: Faults, n: nat, i: nat)
    requires n <= |list|
    ensures Tries(AttachCalls(list, f, n), i) == if i < n && Attemptable(list[i]) then AttemptsMade(f, i) else 0
  {
    if n > 0 {
      TriesUpTo(list, f, n - 1, i);
      var made := AttemptsMade(f, n - 1);
      var more := if Attemptable(list[n - 1]) then Repeat(n - 1, made) else [];
      assert AttachCalls(list, f, n) == AttachCalls(list, f, n - 1) + more;
      TriesAppend(AttachCalls(list, f, n - 1), more, i);
      assert Tries(more, i) == if i == n - 1 && Attemptable(list[i]) then made else 0 by {
        TriesOfRepeat(n - 1, made, i);
      }
    }
  }

  lemma TriesAppend(a: seq<nat>, b: seq<nat>, i: nat)
    ensures Tries(a + b, i) == Tries(a, i) + Tries(b, i)
  {
    assert multiset(a + b) == multiset(a) + multiset(b);
  }

  lemma {:induction false} TriesOfRepeat(i: nat, n: nat, j: nat)
    ensures Tries(Repeat(i, n), j) == if j == i then n else 0
  {
    if n > 0 {
      TriesOfRepeat(i, n - 1, j);
      assert Repeat(i, n) == Repeat(i, n - 1) + [i];
      TriesAppend(Repeat(i, n - 1), [i], j);
    }
  }

  lemma {:induction false} TriesInOrder(list: seq<Attachment>, f: Faults, n: nat)
    requires n <= |list|
    ensures var calls := AttachCalls(list, f, n);
            (forall k :: 0 <= k < |calls| ==> calls[k] < n) && forall j, k :: 0 <= j <= k < |calls| ==> calls[j] <= calls[k]
  {
    if n > 0 {
      TriesInOrder(list, f, n - 1);
      var more := if Attemptable(list[n - 1]) then Repeat(n - 1, AttemptsMade(f, n - 1)) else [];
      assert AttachCalls(list, f, n) == AttachCalls(list, f, n - 1) + more;
    }
  }

  lemma {:induction false} CallsUpTo(list: seq<Attachment>, f: Faults, n: nat)
    requires n <= |list|
    ensures forall i: nat :: i in AttachCalls(list, f, n) <==> i < n && Attemptable(list[i])
  {
    if n > 0 {
      CallsUpTo(list, f, n - 1);
      var calls := Repeat(n - 1, AttemptsMade(f, n - 1));
      assert calls[0] == n - 1;
      forall i: nat ensures i in calls <==> i == n - 1 {
      }
    }
  }

  /**
   A stack just set up is one from which the list can be extended exactly if one replica attached and
   devices are named like their controllers; with the names SPDK gives them no change ever succeeds.
   */
  lemma SetupLeaves(list: seq<Attachment>, f: Faults)
    ensures Sound(SetupStack("", list, f), list) <==> exists i: nat :: Connected(list, f, i)
    ensures Serves(SetupStack("", list, f), list) <==>
            (exists i: nat :: Connected(list, f, i)) && forall i: nat :: RemoteAt(list, i) ==> Connected(list, f, i)
    ensures Stuck(SetupStack("n1", list, f))
    ensures forall suffix :: (forall i: nat :: !Connected(list, f, i)) ==> Stuck(SetupStack(suffix, list, f))
    ensures forall suffix :: SetupStack(suffix, list, f).replicas == list && SetupStack(suffix, list, f).suffix == suffix
  {
    SetupIsSound(list, f);
    SetupIsStuck(list, f);
    forall suffix | forall i: nat :: !Connected(list, f, i) ensures Stuck(SetupStack(suffix, list, f)) {
      SetupAttempts(list, suffix, f);
    }
  }

  lemma SetupIsSound(list: seq<Attachment>, f: Faults)
    ensures Sound(SetupStack("", list, f), list) <==> exists i: nat :: Connected(list, f, i)
    ensures Serves(SetupStack("", list, f), list) <==>
            (exists i: nat :: Connected(list, f, i)) && forall i: nat :: RemoteAt(list, i) ==> Connected(list, f, i)
  {
    var s := SetupStack("", list, f);
    SetupAttempts(list, "", f);
    if i: nat :| Connected(list, f, i) {
      SetupMembers(list, f);
      assert Sound(s, list);
      if forall i: nat :: RemoteAt(list, i) ==> Connected(list, f, i) {
        assert forall i :: 0 <= i < |list| && !list[i].isLocal ==> RemoteAt(list, i);
        SoundAndFullServes(s, list);
      }
      if Serves(s, list) {
        forall i: nat | RemoteAt(list, i) ensures Connected(list, f, i) {
          WantedAt(list, i);
        }
      }
    }
  }

  lemma SetupMembers(list: seq<Attachment>, f: Faults)
    requires MirrorOf(list, "", f).Some?
    ensures LOCAL_BDEV in MirrorOf(list, "", f).value && MirrorOf(list, "", f).value <= {LOCAL_BDEV} + Wanted(list)
    ensures forall i: nat :: ControllerName(i) in MirrorOf(list, "", f).value <==> Connected(list, f, i)
    ensures var c := Connections(list, f, |list|);
            forall i: nat :: Connected(list, f, i) ==> ControllerName(i) in c && c[ControllerName(i)] == PeerOf(list[i])
  {
    var members, bases := MirrorOf(list, "", f).value, Bases(list, "", f, |list|);
    ConnectionsUpTo(list, f, |list|);
    BasesUpTo(list, "", f, |list|);
    assert forall i: nat :: ControllerName(i) + "" == ControllerName(i);
    assert forall x :: x in members <==> x == LOCAL_BDEV || x in bases;
    forall i: nat ensures ControllerName(i) in members <==> Connected(list, f, i) {
      WantedAt(list, i);
      if ControllerName(i) in members {
        var j: nat :| j < |list| && Connected(list, f, j) && ControllerName(i) == ControllerName(j) + "";
        ControllerNameInjective(i, j);
      }
    }
    forall x | x in bases ensures x in Wanted(list) {
      var j: nat :| j < |list| && Connected(list, f, j) && x == ControllerName(j) + "";
      WantedAt(list, j);
    }
  }

  lemma SetupIsStuck(list: seq<Attachment>, f: Faults)
    ensures Stuck(SetupStack("n1", list, f))
  {
    var s := SetupStack("n1", list, f);
    ConnectionsUpTo(list, f, |list|);
    BasesUpTo(list, "n1", f, |list|);
    forall i: nat, j: nat ensures ControllerName(i) + "n1" != ControllerName(j) { NamespaceNamesDiffer(i, j); }
    forall i: nat | s.mirror.Some? ensures ControllerName(i) !in s.mirror.value {
      WantedAt(list, i);
    }
    forall c, j: nat | c in s.controllers ensures c + "n1" != ControllerName(j) {
      var i: nat :| i < |list| && c == ControllerName(i);
    }
  }

}
