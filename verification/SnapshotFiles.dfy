/** The sidecar's snapshot files, one per snapshot of a volume, beside the volume's data file. */
module SnapshotFiles {
  import opened Wrappers
  import opened Names

  type Bytes = seq<bv8>

  /** The volume's data file. */
  const SOURCE := "vol.img"

  function FileName(id: string): string {
    "snapshot-" + id + ".img"
  }

  /** What a successful call reports: where the file is on the node, and its size. */
  datatype Report = Report(path: string, size: nat)

  /**
   The system calls of one attempt, and the source as it is when it is copied. A plain copy that fails
   stops after `copied` bytes.
   */
  datatype FileCalls = FileCalls(see: bool, open: bool, create: bool, clone: bool, close: bool, remove: bool,
                                 reopen: bool, rewrite: bool, copy: bool, copied: nat, source: Bytes)

  type Directory = map<string, Bytes>

  /** Copy byte by byte into a new or truncated file. */
  function Copied(d: Directory, name: string, c: FileCalls): (Directory, bool) {
    if SOURCE !in d || !c.reopen || !c.rewrite then (d, false)
    else if c.copy then (d[name := d[SOURCE]], true)
    else (d[name := if c.copied <= |d[SOURCE]| then d[SOURCE][..c.copied] else d[SOURCE]], false)
  }

  /** Clone the source into a new file, or else copy it. */
  function ClonedOrCopied(d: Directory, name: string, c: FileCalls): (Directory, bool) {
    if SOURCE !in d || !c.open || !c.create || name in d then (d, false)
    else if c.clone then (d[name := d[SOURCE]], c.close)
    else Copied(if c.remove then d else d[name := []], name, c)
  }

  function Changed(d: Directory, source: Bytes): Directory {
    if SOURCE in d then d[SOURCE := source] else d
  }

  function Created(d: Directory, volume: string, id: string, c: FileCalls): (Directory, Result<Report>) {
    var name, path := FileName(id), SnapshotFilePath(volume, id);
    if SOURCE !in d then (d, Err)
    else if name in d && c.see then (d, Ok(Report(path, |d[name]|)))
    else
      var (t, ok) := ClonedOrCopied(Changed(d, c.source), name, c);
      (t, if ok then Ok(Report(path, |d[SOURCE]|)) else Err)
  }

  class Snapshotter {
    const volume: string
    var files: Directory

    constructor (volume: string, files: Directory)
      ensures this.volume == volume && this.files == files
    {
      this.volume, this.files := volume, files;
    }

    method CreateSnapshot(id: string, c: FileCalls) returns (r: Result<Report>)
      modifies this
      ensures (files, r) == Created(old(files), volume, id, c)
    {
      var name := FileName(id);
      NotTheSource(id);
      if SOURCE !in files {
        return Err;
      }
      var size := |files[SOURCE]|;
      if name in files && c.see {
        return Ok(Report(SnapshotFilePath(volume, id), |files[name]|));
      }
      files := files[SOURCE := c.source];
      var ok := FileOrCopy(name, c);
      if !ok {
        return Err;
      }
      return Ok(Report(SnapshotFilePath(volume, id), size));
    }

    method FileOrCopy(name: string, c: FileCalls) returns (ok: bool)
      requires name != SOURCE
      modifies this
      ensures (files, ok) == ClonedOrCopied(old(files), name, c)
    {
      if SOURCE !in files || !c.open {
        return false;
      }
      if !c.create || name in files {
        return false;
      }
      ghost var before := files;
      files := files[name := []];
      if !c.clone {
        if c.remove {
          files := files - {name};
          assert files == before;
        }
        ok := CopyFile(name, c);
        return;
      }
      files := files[name := files[SOURCE]];
      assert files == before[name := before[SOURCE]];
      return c.close;
    }

    method CopyFile(name: string, c: FileCalls) returns (ok: bool)
      requires name != SOURCE
      modifies this
      ensures (files, ok) == Copied(old(files), name, c)
    {
      if SOURCE !in files || !c.reopen {
        return false;
      }
      if !c.rewrite {
        return false;
      }
      ghost var before := files;
      files := files[name := []];
      var bytes := files[SOURCE];
      if !c.copy && c.copied <= |bytes| {
        bytes := bytes[..c.copied];
      }
      files := files[name := bytes];
      assert files == before[name := bytes];
      return c.copy;
    }
  }

  // ---- Names ----

  lemma NotTheSource(id: string)
    ensures FileName(id) != SOURCE
  {
    assert FileName(id)[0] == 's' && SOURCE[0] == 'v';
  }

  lemma FileNameInjective(a: string, b: string)
    ensures FileName(a) == FileName(b) <==> a == b
  {
    if FileName(a) == FileName(b) {
      var prefix := "snapshot-";
      assert a == FileName(a)[|prefix|..|FileName(a)| - 4] == FileName(b)[|prefix|..|FileName(b)| - 4] == b;
    }
  }

  // ---- Frozen snapshots ----

  datatype Event = Create(id: string, calls: FileCalls) | Write(source: Bytes)

  function Step(d: Directory, volume: string, e: Event): Directory {
    match e
    case Create(id, c) => Created(d, volume, id, c).0
    case Write(source) => Changed(d, source)
  }

  predicate IsRun(ds: seq<Directory>, es: seq<Event>, volume: string) {
    |ds| == |es| + 1 && forall i :: 0 <= i < |es| ==> ds[i + 1] == Step(ds[i], volume, es[i])
  }

  /** A call touches no file but its own and the source, and its own only while it is not there. */
  lemma CreateTouchesOne(d: Directory, volume: string, id: string, c: FileCalls, name: string)
    requires name != SOURCE && (name in d || name != FileName(id))
    ensures var t := Created(d, volume, id, c).0;
            (name in t <==> name in d) && (name in d ==> t[name] == d[name])
  {
    NotTheSource(id);
  }

  /**
   Once a snapshot's file is there, it keeps its bytes in every run, whatever is written to the volume
   and whichever snapshots are requested again, and each request for it that succeeds reports the same
   path and that file's size.
   */
  lemma {:induction false} SnapshotsAreFrozen(ds: seq<Directory>, es: seq<Event>, volume: string, id: string, i: nat)
    requires IsRun(ds, es, volume) && i < |ds| && FileName(id) in ds[0]
    ensures FileName(id) in ds[i] && ds[i][FileName(id)] == ds[0][FileName(id)]
    ensures i < |es| && es[i].Create? && es[i].id == id ==>
              Created(ds[i], volume, id, es[i].calls).1 in
                {Err, Ok(Report(SnapshotFilePath(volume, id), |ds[0][FileName(id)]|))}
  {
    var name := FileName(id);
    NotTheSource(id);
    if i > 0 {
      SnapshotsAreFrozen(ds, es, volume, id, i - 1);
      assert ds[i] == Step(ds[i - 1], volume, es[i - 1]);
      if es[i - 1].Create? {
        CreateTouchesOne(ds[i - 1], volume, es[i - 1].id, es[i - 1].calls, name);
      }
    }
  }

  /** Requests for one snapshot never change the file of another. */
  lemma SnapshotsAreSeparate(d: Directory, volume: string, a: string, b: string, c: FileCalls)
    requires a != b
    ensures var t := Created(d, volume, a, c).0;
            (FileName(b) in t <==> FileName(b) in d) && (FileName(b) in d ==> t[FileName(b)] == d[FileName(b)])
  {
    FileNameInjective(a, b);
    NotTheSource(b);
    CreateTouchesOne(d, volume, a, c, FileName(b));
  }

  /**
   Exactly when a call succeeds: the source is there, and either the file is there already and can be seen,
   or it is not and is cloned, or copied after the clone failed, without a further failure.
   */
  lemma WhenSnapshotsSucceed(d: Directory, volume: string, id: string, c: FileCalls)
    ensures Created(d, volume, id, c).1.Ok? <==>
              && "vol.img" in d
              && if "snapshot-" + id + ".img" in d then c.see
                 else c.open && c.create && if c.clone then c.close else c.reopen && c.rewrite && c.copy
    ensures Created(d, volume, id, c).1.Ok? ==>
              Created(d, volume, id, c).1.value.path == "/var/lib/kdfs/" + volume + "/snapshot-" + id + ".img"
  {
    NotTheSource(id);
  }

  /**
   The first successful call makes a file with the bytes the source had when it was copied, but reports
   the size the source had before. The next call reports the same size exactly if that has not changed.
   */
  lemma FirstReport(d: Directory, volume: string, id: string, c: FileCalls, again: FileCalls)
    requires FileName(id) !in d && Created(d, volume, id, c).1.Ok? && again.see
    ensures var (t, first) := Created(d, volume, id, c);
            && FileName(id) in t && t[FileName(id)] == c.source
            && var (u, second) := Created(t, volume, id, again);
               && u == t && second == Ok(Report(SnapshotFilePath(volume, id), |c.source|))
               && (second == first <==> |c.source| == |d[SOURCE]|)
  {
    NotTheSource(id);
  }

  /**
   A failed call that leaves a file makes every later call succeed with it. The file is there exactly
   when the clone was made but closing failed, or the copy was begun, or the failed clone could not be
   removed; it need not hold the volume's bytes.
   */
  lemma FailureMayFreezeAFile(d: Directory, volume: string, id: string, c: FileCalls, again: FileCalls)
    requires FileName(id) !in d && SOURCE in d && Created(d, volume, id, c).1.Err? && again.see
    ensures var t := Created(d, volume, id, c).0;
            && (FileName(id) in t <==> c.open && c.create && (c.clone || (c.reopen && c.rewrite) || !c.remove))
            && (FileName(id) in t ==>
                  && Created(t, volume, id, again) == (t, Ok(Report(SnapshotFilePath(volume, id), |t[FileName(id)]|)))
                  && (t[FileName(id)] == c.source <==>
                        c.clone || (c.reopen && c.rewrite && c.copied >= |c.source|) || c.source == []))
  {
    NotTheSource(id);
    if !c.clone && c.reopen && c.rewrite && c.copied < |c.source| {
      assert |c.source[..c.copied]| < |c.source|;
    }
  }

}
