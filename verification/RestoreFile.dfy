/** Service.Restore of restore/service.go on a file system, operation by operation. */
module RestoreFile {
  import opened Chunking
  import opened Digest
  import opened ObjectKeys
  import opened Snapshots
  import opened Repository
  import opened CommitOrder
  import opened Storage
  import opened Restore

  type Files = map<string, string>

  /** A file system. `past` records its content after every operation that may change it, `failures` counts the
      failed writes, renames, syncs and directory creations, `statFailures` the failed Stats. */
  class Disk {
    var files: Files
    ghost var past: seq<Files>
    ghost var failures: nat
    ghost var statFailures: nat

    /** os.Stat: a success means the file exists; `fault` says that asking failed. */
    method Stat(path: string) returns (ok: bool, ghost fault: bool)
      modifies this`statFailures
      ensures ok <==> path in files && !fault
      ensures statFailures == old(statFailures) + if fault then 1 else 0
    {
      var fails := Storage.Outcome();
      ok, fault := !fails && path in files, fails;
      statFailures := statFailures + if fails then 1 else 0;
    }

    /** os.Remove; its failure is ignored by those who call it, and not counted. */
    method Remove(path: string)
      modifies this`files, this`past
      ensures files == old(files) || files == old(files) - {path}
      ensures past == old(past) + [files]
    {
      var ok := Storage.Outcome();
      if ok {
        files := files - {path};
      }
      past := past + [files];
    }

    /** Replace the content of one file; on failure any part may have been written. */
    method Write(path: string, content: string) returns (ok: bool)
      modifies this`files, this`past, this`failures
      ensures ok ==> files == old(files)[path := content]
      ensures OnlyAt(old(files), files, path)
      ensures past == old(past) + [files]
      ensures failures == old(failures) + if ok then 0 else 1
    {
      ok := Storage.Outcome();
      if ok {
        files := files[path := content];
      } else {
        var partial: string := *;
        files := files[path := partial];
      }
      past := past + [files];
      failures := failures + if ok then 0 else 1;
    }

    method Rename(from: string, to: string) returns (ok: bool)
      requires from in files && from != to
      modifies this`files, this`past, this`failures
      ensures files == if ok then old(files)[to := old(files)[from]] - {from} else old(files)
      ensures past == old(past) + [files]
      ensures failures == old(failures) + if ok then 0 else 1
    {
      ok := Storage.Outcome();
      if ok {
        files := files[to := files[from]] - {from};
      }
      past := past + [files];
      failures := failures + if ok then 0 else 1;
    }

    /** File.Sync and File.Close, or os.MkdirAll: no file changes. */
    method Settle() returns (ok: bool)
      modifies this`failures
      ensures failures == old(failures) + if ok then 0 else 1
    {
      ok := Storage.Outcome();
      failures := failures + if ok then 0 else 1;
    }

    /** Since `mark`, nothing but `path` ever differed from `before`. */
    ghost predicate OnlyTouched(before: Files, mark: nat, path: string)
      reads this
    {
      mark <= |past| && OnlyAt(before, files, path) && forall i :: mark <= i < |past| ==> OnlyAt(before, past[i], path)
    }
  }

  predicate SameAt(a: Files, b: Files, path: string) {
    (path in a <==> path in b) && (path in a && path in b ==> a[path] == b[path])
  }

  ghost predicate OnlyAt(a: Files, b: Files, path: string) {
    forall p :: p != path ==> SameAt(a, b, p)
  }

  lemma OnlyAtChain(a: Files, b: Files, c: Files, path: string)
    requires OnlyAt(a, b, path) && OnlyAt(b, c, path)
    ensures OnlyAt(a, c, path)
  {
    forall p | p != path ensures SameAt(a, c, p) {
      assert SameAt(a, b, p) && SameAt(b, c, p);
    }
  }

  function TmpPath(target: string): string {
    target + ".dbvault-restore-tmp"
  }

  function RollbackPath(target: string, stamp: string): string {
    target + ".dbvault-rollback-" + stamp
  }

  lemma PathsDiffer(target: string, stamp: string)
    ensures TmpPath(target) != target && RollbackPath(target, stamp) != target
    ensures TmpPath(target) != RollbackPath(target, stamp)
  {
    assert TmpPath(target)[|target| + 10] == 'e';
    assert RollbackPath(target, stamp)[|target| + 10] == 'o';
    assert |TmpPath(target)| > |target| && |RollbackPath(target, stamp)| > |target|;
  }

  /** readAndVerifyManifest: a manifest is returned only if it is genuine, and unless a Get failed it is returned
      if it is. */
  method ReadAndVerify(c: Codec, store: Bucket, e: Entry) returns (r: Outcome<Manifest>)
    requires Laws(c)
    modifies store`failures
    ensures old(store.failures) <= store.failures
    ensures r.Ok? ==> Genuine(c, store.objects, e) && r.value == c.decodeManifest(store.objects[e.manifestKey]).value
    ensures r.Err? ==> !Genuine(c, store.objects, e) || store.failures > old(store.failures)
    ensures r == ReadManifest(c, store.objects, e) || (r.Err? && store.failures > old(store.failures))
  {
    GenuineIsRead(c, store.objects, e);
    var payload, _ := store.Get(e.manifestKey);
    if payload.None? {
      return Err(MissingManifest);
    }
    var sigKey := SigKeyFor(e.manifestKey, e.source, e.snap);
    var sig, _ := store.Get(sigKey);
    if sig.None? {
      return Err(MissingSignature);
    }
    if !c.verify(payload.value, sig.value) {
      return Err(BadSignature);
    }
    if e.completionKey != "" {
      var cr, _ := store.Get(e.completionKey);
      if cr.None? {
        return Err(MissingCompletion);
      }
      var comp := c.decodeCompletion(cr.value);
      if comp.None? || comp.value.manifestDigest == "" || comp.value.manifestDigest != ShaHex(c, payload.value) {
        return Err(BadCompletion);
      }
    }
    r := ParseManifest(c, e, payload.value);
  }

  /** One turn of the write loop: fetch, decrypt, decompress and check a chunk. */
  method FetchChunk(c: Codec, store: Bucket, man: Manifest, ch: ChunkInfo) returns (r: Outcome<string>)
    requires Laws(c)
    modifies store`failures
    ensures r.Ok? ==> store.failures == old(store.failures)
    ensures r == ReadChunk(c, store.objects, man, ch) || (r.Err? && store.failures > old(store.failures))
  {
    var obj, _ := store.Get(ch.objectKey);
    if obj.None? {
      return Err(MissingChunk);
    }
    var plain := OpenChunk(c, ch.chunkId, obj.value);
    if plain.None? {
      return Err(ChunkAuthentication);
    }
    if |c.dedupKey| > 0 && man.pageSize > 0 {
      var computedID := ChunkID(c.hash, c.dedupKey, man.pageSize, plain.value);
      if computedID != ch.chunkId {
        return Err(ChunkAuthentication);
      }
    }
    r := if ch.pageStart * man.pageSize < 0 then Err(BadOffset) else Ok(plain.value);
  }

  /** Some Get or some counted file operation failed since the counters were these. */
  ghost predicate Faulted(gets: nat, writes: nat, store: Bucket, disk: Disk)
    reads store, disk
  {
    store.failures > gets || disk.failures > writes
  }

  /** The temporary file is filled from the chunks; only it is touched. */
  method FillTmp(c: Codec, store: Bucket, man: Manifest, disk: Disk, tmp: string, ghost before: Files, ghost mark: nat)
    returns (ok: bool)
    requires Laws(c) && disk.OnlyTouched(before, mark, tmp)
    modifies disk`files, disk`past, disk`failures, store`failures
    ensures disk.OnlyTouched(before, mark, tmp)
    ensures ok ==> tmp in disk.files && RestoredFile(c, store.objects, man) == Ok(disk.files[tmp])
    ensures ok ==> store.failures == old(store.failures) && disk.failures == old(disk.failures)
    ensures !ok ==> RestoredFile(c, store.objects, man).Err?
                    || Faulted(old(store.failures), old(disk.failures), store, disk)
  {
    var file := InitialFile(man);
    ok := disk.Write(tmp, file);
    OnlyAtChain(before, old(disk.files), disk.files, tmp);
    if !ok {
      return;
    }
    for i := 0 to |man.chunks|
      invariant disk.OnlyTouched(before, mark, tmp)
      invariant ok && tmp in disk.files && disk.files[tmp] == file
      invariant WriteFrom(c, store.objects, man, InitialFile(man), 0) == WriteFrom(c, store.objects, man, file, i)
      invariant store.failures == old(store.failures) && disk.failures == old(disk.failures)
    {
      var plain := FetchChunk(c, store, man, man.chunks[i]);
      if plain.Err? {
        return false;
      }
      file := WriteAt(file, man.chunks[i].pageStart * man.pageSize, plain.value);
      ghost var f := disk.files;
      ok := disk.Write(tmp, file);
      OnlyAtChain(before, f, disk.files, tmp);
      if !ok {
        return false;
      }
    }
    ok := disk.Settle();
    if !ok {
      return;
    }
    ok := HeaderOk(man.engine, disk.files[tmp]);
  }

  /** The target holds what it held, or the complete restored file, or it is gone while the old
      content sits at the rollback path. */
  ghost predicate AllOrNothing(before: Files, now: Files, target: string, rollback: string, full: Outcome<string>) {
    || SameAt(before, now, target)
    || (target in now && full == Ok(now[target]))
    || (target in before && target !in now && rollback in now && now[rollback] == before[target])
  }

  /** Nothing but the target, the temporary file and the rollback file differs. */
  ghost predicate Bystanders(before: Files, now: Files, target: string, stamp: string) {
    forall p :: p != target && p != TmpPath(target) && p != RollbackPath(target, stamp) ==> SameAt(before, now, p)
  }

  ghost predicate Safe(before: Files, now: Files, target: string, stamp: string, full: Outcome<string>) {
    AllOrNothing(before, now, target, RollbackPath(target, stamp), full) && Bystanders(before, now, target, stamp)
  }

  lemma TouchedIsSafe(before: Files, now: Files, target: string, stamp: string, full: Outcome<string>)
    requires OnlyAt(before, now, TmpPath(target))
    ensures Safe(before, now, target, stamp, full)
  {
    PathsDiffer(target, stamp);
    assert SameAt(before, now, target);
  }

  /** The old content was moved to the rollback path. */
  lemma RolledBackIsSafe(before: Files, f: Files, target: string, stamp: string, full: Outcome<string>)
    requires OnlyAt(before, f, TmpPath(target)) && target in f
    ensures Safe(before, f[RollbackPath(target, stamp) := f[target]] - {target}, target, stamp, full)
  {
    PathsDiffer(target, stamp);
    var f' := f[RollbackPath(target, stamp) := f[target]] - {target};
    assert SameAt(before, f, target);
    forall p | p != target && p != TmpPath(target) && p != RollbackPath(target, stamp) ensures SameAt(before, f', p) {
      assert SameAt(before, f, p);
    }
  }

  /** The temporary file, complete, was moved to the target. */
  lemma MovedIsSafe(before: Files, f: Files, target: string, stamp: string, full: Outcome<string>)
    requires Bystanders(before, f, target, stamp) && TmpPath(target) in f && full == Ok(f[TmpPath(target)])
    ensures Safe(before, f[target := f[TmpPath(target)]] - {TmpPath(target)}, target, stamp, full)
  {
    PathsDiffer(target, stamp);
    var f' := f[target := f[TmpPath(target)]] - {TmpPath(target)};
    forall p | p != target && p != TmpPath(target) && p != RollbackPath(target, stamp) ensures SameAt(before, f', p) {
      assert SameAt(before, f, p);
    }
  }

  ghost predicate SafeSince(before: Files, past: seq<Files>, mark: nat, target: string, stamp: string,
                            full: Outcome<string>) {
    mark <= |past| && forall i :: mark <= i < |past| ==> Safe(before, past[i], target, stamp, full)
  }

  /** What the target held is at the rollback path. */
  ghost predicate OldKept(before: Files, now: Files, target: string, stamp: string) {
    var rollback := RollbackPath(target, stamp);
    target in before ==> rollback in now && now[rollback] == before[target]
  }

  /** Moving the finished file into place. */
  method MoveIntoPlace(disk: Disk, target: string, replace: bool, stamp: string, ghost before: Files,
                       ghost full: Outcome<string>)
    returns (ok: bool, ghost fault: bool)
    requires OnlyAt(before, disk.files, TmpPath(target)) && TmpPath(target) in disk.files
    requires full == Ok(disk.files[TmpPath(target)])
    modifies disk
    ensures disk.failures == old(disk.failures) + if ok then 0 else 1
    ensures disk.statFailures == old(disk.statFailures) + if fault then 1 else 0
    ensures Safe(before, disk.files, target, stamp, full)
    ensures |old(disk.past)| <= |disk.past| && disk.past[..|old(disk.past)|] == old(disk.past)
    ensures SafeSince(before, disk.past, |old(disk.past)|, target, stamp, full)
    ensures ok ==> target in disk.files && full == Ok(disk.files[target]) && TmpPath(target) !in disk.files
    ensures !ok ==> TmpPath(target) in disk.files
    ensures ok && replace && !fault ==> OldKept(before, disk.files, target, stamp)
  {
    fault := false;
    var tmp, rollback := TmpPath(target), RollbackPath(target, stamp);
    PathsDiffer(target, stamp);
    TouchedIsSafe(before, disk.files, target, stamp, full);
    assert SameAt(before, disk.files, target);
    if replace {
      var present;
      present, fault := disk.Stat(target);
      if present {
        RolledBackIsSafe(before, disk.files, target, stamp, full);
        ok := disk.Rename(target, rollback);
        if !ok {
          return;
        }
      }
    }
    MovedIsSafe(before, disk.files, target, stamp, full);
    ok := disk.Rename(tmp, target);
  }

  /** All that is promised of a restore whose complete result would be `full`: every state since is safe, a
      success leaves `full` at the target and with `replace` the old content at the rollback path, unless asking for
      the target failed; and an error without a fault means there was nothing to restore. */
  ghost predicate Restores(before: Files, now: Files, past0: seq<Files>, past: seq<Files>, target: string,
                           replace: bool, stamp: string,
                           full: Outcome<string>, r: Outcome<()>, faulted: bool, statFault: bool) {
    && Safe(before, now, target, stamp, full)
    && SafeSince(before, past, |past0|, target, stamp, full)
    && (r.Ok? ==> target in now && full == Ok(now[target]) && TmpPath(target) !in now)
    && (r.Ok? && replace && !statFault ==> OldKept(before, now, target, stamp))
    && (r.Err? && !faulted ==> full.Err?)
  }

  /** A stale temporary file is removed and a new one filled. */
  method FillFresh(c: Codec, store: Bucket, disk: Disk, man: Manifest, target: string, ghost stamp: string)
    returns (ok: bool)
    requires Laws(c)
    modifies disk`files, disk`past, disk`failures, store`failures
    ensures OnlyAt(old(disk.files), disk.files, TmpPath(target))
    ensures SafeSince(old(disk.files), disk.past, |old(disk.past)|, target, stamp, RestoredFile(c, store.objects, man))
    ensures ok ==>
              TmpPath(target) in disk.files && RestoredFile(c, store.objects, man) == Ok(disk.files[TmpPath(target)])
    ensures ok ==> store.failures == old(store.failures) && disk.failures == old(disk.failures)
    ensures !ok ==> RestoredFile(c, store.objects, man).Err?
                    || Faulted(old(store.failures), old(disk.failures), store, disk)
  {
    ghost var before, mark := disk.files, |disk.past|;
    var tmp := TmpPath(target);
    disk.Remove(tmp);
    ok := FillTmp(c, store, man, disk, tmp, before, mark);
    forall i | mark <= i < |disk.past| ensures Safe(before, disk.past[i], target, stamp,
                                                    RestoredFile(c, store.objects, man)) {
      TouchedIsSafe(before, disk.past[i], target, stamp, RestoredFile(c, store.objects, man));
    }
  }

  /** Restore after the manifest was verified: fill the temporary file, then move it. */
  method WriteAndMove(c: Codec, store: Bucket, disk: Disk, man: Manifest, target: string, replace: bool, stamp: string)
    returns (r: Outcome<()>, ghost statFault: bool)
    requires Laws(c)
    modifies disk, store`failures
    ensures disk.statFailures == old(disk.statFailures) + if statFault then 1 else 0
    ensures Restores(old(disk.files), disk.files, old(disk.past), disk.past, target, replace, stamp,
                     RestoredFile(c, store.objects, man), r,
                     Faulted(old(store.failures), old(disk.failures), store, disk), statFault)
  {
    ghost var before, full := disk.files, RestoredFile(c, store.objects, man);
    statFault := false;
    var ok;
    ok := FillFresh(c, store, disk, man, target, stamp);
    TouchedIsSafe(before, disk.files, target, stamp, full);
    if ok {
      ok, statFault := MoveIntoPlace(disk, target, replace, stamp, before, full);
      if ok {
        return Ok(()), statFault;
      }
    }
    RemoveIsSafe(before, disk.files, target, stamp, full);
    disk.Remove(TmpPath(target));
    r := Err(Fault);
  }

  lemma RemoveIsSafe(before: Files, f: Files, target: string, stamp: string, full: Outcome<string>)
    requires Safe(before, f, target, stamp, full)
    ensures Safe(before, f - {TmpPath(target)}, target, stamp, full)
  {
    PathsDiffer(target, stamp);
    var f' := f - {TmpPath(target)};
    forall p | p != target && p != TmpPath(target) && p != RollbackPath(target, stamp) ensures SameAt(before, f', p) {
      assert SameAt(before, f, p);
    }
  }

  /** Restore of a catalogued snapshot: nothing is written unless the manifest verifies. */
  method RestoreEntry(c: Codec, store: Bucket, e: Entry, disk: Disk, target: string, replace: bool, stamp: string)
    returns (r: Outcome<()>, ghost statFault: bool)
    requires Laws(c)
    modifies disk, store`failures
    ensures disk.statFailures == old(disk.statFailures) + if statFault then 1 else 0
    ensures Restores(old(disk.files), disk.files, old(disk.past), disk.past, target, replace, stamp,
                     RestoreOutcome(c, store.objects, e), r,
                     Faulted(old(store.failures), old(disk.failures), store, disk), statFault)
    ensures r.Ok? ==> Genuine(c, store.objects, e)
    ensures !Genuine(c, store.objects, e) ==>
              r.Err? && disk.files == old(disk.files) && disk.past == old(disk.past)
  {
    ghost var full := RestoreOutcome(c, store.objects, e);
    TouchedIsSafe(disk.files, disk.files, target, stamp, full);
    statFault := false;
    var man := ReadAndVerify(c, store, e);
    if man.Err? {
      return Err(man.reason), false;
    }
    assert full == RestoredFile(c, store.objects, man.value);
    var madeDir := disk.Settle();
    if !madeDir {
      return Err(Fault), false;
    }
    r, statFault := WriteAndMove(c, store, disk, man.value, target, replace, stamp);
  }

  /** Service.Restore. It refuses, untouched, exactly a target that is seen to be there without `replace`, an unknown
      snapshot and one that cannot be looked up; otherwise RestoreEntry's promises hold, at every file-system operation
      and on every exit. If asking for the target fails, a target that is there is not refused. */
  method RestoreTo(c: Codec, store: Bucket, cat: Catalogue, disk: Disk, snap: string, target: string, replace: bool,
                   stamp: string)
    returns (r: Outcome<()>, refused: bool, ghost firstFault: bool, ghost statFault: bool)
    requires Laws(c)
    modifies disk, store`failures, cat`failures
    ensures refused <==> (target in old(disk.files) && !replace && !firstFault)
                         || snap !in cat.entries || cat.failures > old(cat.failures)
    ensures disk.statFailures == old(disk.statFailures) + (if firstFault then 1 else 0) + if statFault then 1 else 0
    ensures refused ==> r.Err? && disk.files == old(disk.files) && disk.past == old(disk.past)
    ensures !refused ==> Restores(old(disk.files), disk.files, old(disk.past), disk.past, target, replace, stamp,
                                  RestoreOutcome(c, store.objects, cat.entries[snap]), r,
                                  Faulted(old(store.failures), old(disk.failures), store, disk), statFault)
    ensures r.Ok? ==> !refused && Genuine(c, store.objects, cat.entries[snap])
    ensures r.Ok? ==> var man := c.decodeManifest(store.objects[cat.entries[snap].manifestKey]).value;
                      GenuineChunks(c, store.objects, man)
                      && target in disk.files && Headed(man.engine, disk.files[target])
    ensures !refused && !Genuine(c, store.objects, cat.entries[snap]) ==>
              r.Err? && disk.files == old(disk.files) && disk.past == old(disk.past)
  {
    refused, statFault := true, false;
    var present;
    present, firstFault := disk.Stat(target);
    if present && !replace {
      r := Err(TargetExists);
      return;
    }
    var entry := cat.GetSnapshot(snap);
    if entry.None? {
      r := Err(UnknownSnapshot);
      return;
    }
    refused := false;
    AcceptedIsGenuine(c, store.objects, entry.value);
    r, statFault := RestoreEntry(c, store, entry.value, disk, target, replace, stamp);
  }
}
