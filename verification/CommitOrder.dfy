/** What every step of the repository keeps: stored objects are what their keys say, and a
    completion record stands only above a whole snapshot. */
module CommitOrder {
  import opened Wrappers
  import opened Text
  import opened ObjectKeys
  import opened Snapshots
  import opened Repository

  type Registry = map<string, Info>

  // ----- what a stored object is

  /** Decrypting and decompressing a stored chunk. */
  function OpenChunk(c: Codec, id: string, obj: string): Option<string> {
    match c.decrypt(id, obj)
    case None => None
    case Some(packed) => c.decompress(packed)
  }

  /** The object is, under its own key, a chunk with this id of some backup that began. */
  ghost predicate OpensToKnownChunk(c: Codec, reg: Registry, key: string, id: string, obj: string)
    requires Laws(c)
  {
    exists n, i: nat :: n in reg && i < |ArtifactChunks(reg[n].art)| && ChunkIdAt(c, reg[n].art, i) == id
                     && key == ChunkKey(reg[n].source, c.keyVersion, id)
                     && OpenChunk(c, id, obj) == Some(ArtifactChunks(reg[n].art)[i].data)
  }

  ghost predicate GoodManifest(c: Codec, info: Info, key: string, obj: string)
    requires Laws(c)
  {
    key == ManifestKey(info.source, info.snap) && obj == Payload(c, info)
  }

  ghost predicate GoodSig(c: Codec, info: Info, key: string, obj: string)
    requires Laws(c)
  {
    key == SigKey(info.source, info.snap) && obj == c.sign(Payload(c, info))
  }

  ghost predicate GoodComplete(c: Codec, info: Info, key: string, obj: string)
    requires Laws(c)
  {
    && key == CompleteKey(info.source, info.snap)
    && c.decodeCompletion(obj).Some?
    && c.decodeCompletion(obj).value.manifestDigest == ShaHex(c, Payload(c, info))
  }

  ghost predicate GoodObject(c: Codec, reg: Registry, key: string, obj: string)
    requires Laws(c)
  {
    match KindOf(key)
    case ChunkObject(id) => OpensToKnownChunk(c, reg, key, id, obj)
    case ManifestObject(n) => n in reg && GoodManifest(c, reg[n], key, obj)
    case SigObject(n) => n in reg && GoodSig(c, reg[n], key, obj)
    case CompleteObject(n) => n in reg && GoodComplete(c, reg[n], key, obj)
    case OtherObject => false
  }

  ghost predicate GoodStore(c: Codec, reg: Registry, st: Store)
    requires Laws(c)
  {
    forall k :: k in st ==> GoodObject(c, reg, k, st[k])
  }

  predicate GoodRegistry(reg: Registry) {
    forall n :: n in reg ==> reg[n].snap == n && Free(n, '/')
  }

  predicate Extends(reg: Registry, reg': Registry) {
    forall n :: n in reg ==> n in reg' && reg'[n] == reg[n]
  }

  lemma GoodObjectExtends(c: Codec, reg: Registry, reg': Registry, key: string, obj: string)
    requires Laws(c) && GoodObject(c, reg, key, obj) && Extends(reg, reg')
    ensures GoodObject(c, reg', key, obj)
  {
  }

  /** Every body a backup writes is good for its key. */
  lemma BodyIsGood(c: Codec, reg: Registry, n: string, slot: nat, nonce: string, now: string)
    requires Laws(c) && GoodRegistry(reg) && n in reg && slot < |KeysOf(c, reg[n])|
    ensures GoodObject(c, reg, KeysOf(c, reg[n])[slot], BodyAt(c, reg[n], slot, nonce, now))
  {
    KeyKinds(c, reg[n], slot);
    var info := reg[n];
    if slot < |ArtifactChunks(info.art)| {
      var id := ChunkIdAt(c, info.art, slot);
      assert OpenChunk(c, id, BodyAt(c, info, slot, nonce, now)) == Some(ArtifactChunks(info.art)[slot].data);
    }
  }

  // ----- whole snapshots

  /** Garbage collection cannot touch the objects of this source: none ran, or it lists none of them. */
  predicate Covered(swept: bool, source: string) {
    !swept || GoodSource(source)
  }

  ghost predicate HasFirst(st: Store, keys: seq<string>, n: nat)
    requires n <= |keys|
  {
    forall i :: 0 <= i < n ==> keys[i] in st
  }

  ghost predicate Whole(c: Codec, info: Info, st: Store)
    requires Laws(c)
  {
    HasFirst(st, KeysOf(c, info), |KeysOf(c, info)|)
  }

  ghost predicate CompleteMeansWhole(c: Codec, reg: Registry, swept: bool, st: Store)
    requires Laws(c)
  {
    forall n :: n in reg && Covered(swept, reg[n].source) && CompleteKey(reg[n].source, n) in st ==>
                Whole(c, reg[n], st)
  }

  /** No object outside the swept prefix is lost, and none at all while nothing was swept. */
  ghost predicate Keeps(swept: bool, st: Store, st': Store) {
    forall k :: k in st && Unswept(swept, k) ==> k in st'
  }

  predicate Unswept(swept: bool, key: string) {
    !swept || !HasPrefix(key, CHUNKS_PREFIX)
  }

  lemma CoveredKeys(c: Codec, info: Info, swept: bool, i: nat)
    requires Laws(c) && Covered(swept, info.source) && i < |KeysOf(c, info)|
    ensures Unswept(swept, KeysOf(c, info)[i])
  {
    if swept {
      UnsweptSnapshotKeys(info.source, info.snap);
      if i < |ArtifactChunks(info.art)| {
        SweptChunkKeys(info.source, c.keyVersion, ChunkIdAt(c, info.art, i));
      }
    }
  }

  lemma FirstKept(c: Codec, info: Info, swept: bool, st: Store, st': Store, n: nat)
    requires Laws(c) && Covered(swept, info.source) && Keeps(swept, st, st')
    requires n <= |KeysOf(c, info)| && HasFirst(st, KeysOf(c, info), n)
    ensures HasFirst(st', KeysOf(c, info), n)
  {
    forall i | 0 <= i < n ensures KeysOf(c, info)[i] in st' {
      CoveredKeys(c, info, swept, i);
    }
  }

  // ----- the invariant

  ghost predicate GoodProc(c: Codec, s: System, p: Proc)
    requires Laws(c)
  {
    && p.snap in s.reg
    && p.keys == KeysOf(c, s.reg[p.snap])
    && p.chunkCount == |ArtifactChunks(s.reg[p.snap].art)|
    && p.slot <= |p.keys|
    && (Covered(s.swept, s.reg[p.snap].source) ==> HasFirst(StoreAt(s, p.to), p.keys, p.slot))
    && (p.stage.Write? ==> p.slot < |p.keys| && GoodObject(c, s.reg, p.keys[p.slot], p.stage.body))
    && (p.origin.FromArtifact? ==> p.to == s.reg[p.snap].home)
  }

  ghost predicate GoodProcs(c: Codec, s: System)
    requires Laws(c)
  {
    forall pid :: pid in s.procs ==> GoodProc(c, s, s.procs[pid])
  }

  ghost predicate GoodSweep(w: Sweep) {
    forall i :: 0 <= i < |w.keys| ==> HasPrefix(w.keys[i], CHUNKS_PREFIX)
  }

  ghost predicate GoodSweeps(s: System) {
    forall pid :: pid in s.sweeps ==> s.swept && GoodSweep(s.sweeps[pid])
  }

  ghost predicate GoodEntry(c: Codec, s: System, n: string, e: Entry)
    requires Laws(c)
  {
    && n in s.reg
    && e == EntryOf(c, s.reg[n])
    && (Covered(s.swept, e.source) ==> Whole(c, s.reg[n], StoreAt(s, s.reg[n].home)))
  }

  ghost predicate GoodCatalogue(c: Codec, s: System)
    requires Laws(c)
  {
    forall n :: n in s.catalogue ==> GoodEntry(c, s, n, s.catalogue[n])
  }

  ghost predicate GoodStores(c: Codec, s: System)
    requires Laws(c)
  {
    forall i :: GoodStore(c, s.reg, StoreAt(s, i)) && CompleteMeansWhole(c, s.reg, s.swept, StoreAt(s, i))
  }

  ghost predicate Inv(c: Codec, s: System)
    requires Laws(c)
  {
    GoodRegistry(s.reg) && GoodStores(c, s) && GoodProcs(c, s) && GoodSweeps(s) && GoodCatalogue(c, s)
  }

  // ----- what changes, and what is kept through it

  /** Backups are only added, and covered objects are never lost. */
  ghost predicate Progress(s: System, s': System) {
    && Extends(s.reg, s'.reg)
    && (s.swept ==> s'.swept)
    && (forall i :: Keeps(s'.swept, StoreAt(s, i), StoreAt(s', i)))
  }

  lemma ProcKept(c: Codec, s: System, s': System, p: Proc)
    requires Laws(c) && GoodProc(c, s, p) && Progress(s, s')
    ensures GoodProc(c, s', p)
  {
    var info := s.reg[p.snap];
    if Covered(s'.swept, info.source) {
      FirstKept(c, info, s'.swept, StoreAt(s, p.to), StoreAt(s', p.to), p.slot);
    }
    if p.stage.Write? {
      GoodObjectExtends(c, s.reg, s'.reg, p.keys[p.slot], p.stage.body);
    }
  }

  lemma EntryKept(c: Codec, s: System, s': System, n: string, e: Entry)
    requires Laws(c) && GoodEntry(c, s, n, e) && Progress(s, s')
    ensures GoodEntry(c, s', n, e)
  {
    var info := s.reg[n];
    if Covered(s'.swept, info.source) {
      FirstKept(c, info, s'.swept, StoreAt(s, info.home), StoreAt(s', info.home), |KeysOf(c, info)|);
    }
  }

  /** A step keeps the invariant if its stores are good and whatever it adds is good. */
  lemma InvKept(c: Codec, s: System, s': System)
    requires Laws(c) && Inv(c, s) && Progress(s, s') && GoodRegistry(s'.reg) && GoodStores(c, s')
    requires forall q :: q in s'.procs ==> (q in s.procs && s'.procs[q] == s.procs[q]) || GoodProc(c, s', s'.procs[q])
    requires forall q :: q in s'.sweeps ==>
               (q in s.sweeps && s'.sweeps[q] == s.sweeps[q]) || (s'.swept && GoodSweep(s'.sweeps[q]))
    requires forall n :: n in s'.catalogue ==>
               (n in s.catalogue && s'.catalogue[n] == s.catalogue[n]) || GoodEntry(c, s', n, s'.catalogue[n])
    ensures Inv(c, s')
  {
    forall q | q in s'.procs ensures GoodProc(c, s', s'.procs[q]) {
      if q in s.procs && s'.procs[q] == s.procs[q] {
        ProcKept(c, s, s', s.procs[q]);
      }
    }
    forall n | n in s'.catalogue ensures GoodEntry(c, s', n, s'.catalogue[n]) {
      if n in s.catalogue && s'.catalogue[n] == s.catalogue[n] {
        EntryKept(c, s, s', n, s.catalogue[n]);
      }
    }
  }

  // ----- each step keeps it

  lemma BeginBackupStores(c: Codec, reg: Registry, info: Info, swept: bool, st: Store)
    requires Laws(c) && GoodStore(c, reg, st) && CompleteMeansWhole(c, reg, swept, st)
    requires info.snap !in reg && Free(info.snap, '/')
    ensures GoodStore(c, reg[info.snap := info], st) && CompleteMeansWhole(c, reg[info.snap := info], swept, st)
  {
    var reg' := reg[info.snap := info];
    forall k | k in st ensures GoodObject(c, reg', k, st[k]) {
      GoodObjectExtends(c, reg, reg', k, st[k]);
    }
    NotYetComplete(c, reg, info, st);
  }

  lemma NotYetComplete(c: Codec, reg: Registry, info: Info, st: Store)
    requires Laws(c) && GoodStore(c, reg, st) && info.snap !in reg && Free(info.snap, '/')
    ensures CompleteKey(info.source, info.snap) !in st
  {
    KindOfSnapshotKeys(info.source, info.snap);
  }

  lemma BeginBackupKeeps(c: Codec, s: System, pid: nat, info: Info, lookupFails: bool)
    requires Laws(c) && Inv(c, s)
    ensures Inv(c, StepBeginBackup(c, s, pid, info, lookupFails))
  {
    var s' := StepBeginBackup(c, s, pid, info, lookupFails);
    if s' != s {
      RegisteredKeeps(c, s, info);
      var s1 := s.(reg := s.reg[info.snap := info]);
      AdvanceKeeps(c, s1, pid, s'.procs[pid]);
    }
  }

  lemma RegisteredKeeps(c: Codec, s: System, info: Info)
    requires Laws(c) && Inv(c, s) && info.snap !in s.reg && Free(info.snap, '/')
    ensures Inv(c, s.(reg := s.reg[info.snap := info]))
  {
    var s' := s.(reg := s.reg[info.snap := info]);
    forall i ensures GoodStore(c, s'.reg, StoreAt(s', i)) && CompleteMeansWhole(c, s'.reg, s'.swept, StoreAt(s', i)) {
      BeginBackupStores(c, s.reg, info, s.swept, StoreAt(s, i));
    }
    InvKept(c, s, s');
  }

  lemma CopyKeysAreKeys(c: Codec, s: System, from: nat, snap: string)
    requires Laws(c) && Inv(c, s) && snap in s.catalogue && s.catalogue[snap].manifestKey in StoreAt(s, from)
    ensures snap in s.reg
    ensures var e := s.catalogue[snap];
            var m := c.decodeManifest(StoreAt(s, from)[e.manifestKey]);
            m == Some(ManifestOf(c, s.reg[snap])) && CopyKeys(m.value, e) == KeysOf(c, s.reg[snap])
  {
    var e, st := s.catalogue[snap], StoreAt(s, from);
    assert GoodEntry(c, s, snap, e);
    var info := s.reg[snap];
    KindOfSnapshotKeys(info.source, info.snap);
    assert GoodStore(c, s.reg, st);
    assert GoodObject(c, s.reg, e.manifestKey, st[e.manifestKey]);
    SigKeyForManifest(info.source, info.snap);
  }

  lemma SameStores(c: Codec, s: System, s': System)
    requires Laws(c) && GoodStores(c, s) && s'.stores == s.stores && s'.reg == s.reg && (s.swept ==> s'.swept)
    ensures GoodStores(c, s') && Progress(s, s')
  {
    forall i ensures GoodStore(c, s'.reg, StoreAt(s', i)) && CompleteMeansWhole(c, s'.reg, s'.swept, StoreAt(s', i)) {
      assert StoreAt(s', i) == StoreAt(s, i);
    }
  }

  lemma AdvanceKeeps(c: Codec, s: System, pid: nat, p: Proc)
    requires Laws(c) && Inv(c, s) && GoodProc(c, s, p)
    ensures Inv(c, Advance(s, pid, p))
  {
    var s' := Advance(s, pid, p);
    SameStores(c, s, s');
    ProcKept(c, s, s', p);
    InvKept(c, s, s');
  }

  lemma EndKeeps(c: Codec, s: System, pid: nat)
    requires Laws(c) && Inv(c, s)
    ensures Inv(c, End(s, pid))
  {
    var s' := End(s, pid);
    SameStores(c, s, s');
    InvKept(c, s, s');
  }

  lemma BeginCopyKeeps(c: Codec, s: System, pid: nat, from: nat, to: nat, snap: string)
    requires Laws(c) && Inv(c, s)
    ensures Inv(c, StepBeginCopy(c, s, pid, from, to, snap))
  {
    var s' := StepBeginCopy(c, s, pid, from, to, snap);
    if s' != s {
      CopyKeysAreKeys(c, s, from, snap);
      AdvanceKeeps(c, s, pid, s'.procs[pid]);
    }
  }

  lemma StageProc(c: Codec, s: System, p: Proc, stage: Stage)
    requires Laws(c) && GoodProc(c, s, p)
    requires stage.Write? ==> p.slot < |p.keys| && GoodObject(c, s.reg, p.keys[p.slot], stage.body)
    ensures GoodProc(c, s, p.(stage := stage))
  {
  }

  lemma SlotProc(c: Codec, s: System, p: Proc)
    requires Laws(c) && GoodProc(c, s, p) && p.slot < |p.keys| && p.keys[p.slot] in StoreAt(s, p.to)
    ensures GoodProc(c, s, p.(slot := p.slot + 1, stage := Check))
  {
    FirstNext(StoreAt(s, p.to), p.keys, p.slot);
  }

  lemma FirstNext(st: Store, keys: seq<string>, n: nat)
    requires n < |keys| && keys[n] in st
    ensures HasFirst(st, keys, n) ==> HasFirst(st, keys, n + 1)
  {
  }

  /** Where a check leads: the next slot, or this one at another stage. */
  lemma NextKeeps(c: Codec, s: System, pid: nat, p: Proc, p': Proc)
    requires Laws(c) && Inv(c, s) && GoodProc(c, s, p) && p.slot < |p.keys| && p.stage.Check?
    requires || (p.keys[p.slot] in StoreAt(s, p.to) && p' == p.(slot := p.slot + 1))
             || p' == p.(stage := Fetch)
             || (p'.stage.Write? && p' == p.(stage := p'.stage) && GoodObject(c, s.reg, p.keys[p.slot], p'.stage.body))
    ensures Inv(c, Advance(s, pid, p'))
  {
    if p'.stage.Check? {
      SlotProc(c, s, p);
      assert p' == p.(slot := p.slot + 1, stage := Check);
    } else {
      StageProc(c, s, p, p'.stage);
    }
    AdvanceKeeps(c, s, pid, p');
  }

  lemma CheckToCopyKeeps(c: Codec, s: System, pid: nat, p: Proc, headFails: bool, nonce: string, now: string)
    requires Laws(c) && Inv(c, s) && GoodProc(c, s, p) && p.origin.FromStore?
    ensures Inv(c, StepCheckSlot(c, s, pid, p, headFails, nonce, now))
  {
    if p.slot < |p.keys| && p.stage.Check? {
      var present := p.slot < p.chunkCount && p.keys[p.slot] in StoreAt(s, p.to);
      NextKeeps(c, s, pid, p, if present && !headFails then p.(slot := p.slot + 1) else p.(stage := Fetch));
    }
  }

  lemma CheckToWriteKeeps(c: Codec, s: System, pid: nat, p: Proc, headFails: bool, nonce: string, now: string)
    requires Laws(c) && Inv(c, s) && GoodProc(c, s, p) && p.origin.FromArtifact?
    ensures Inv(c, StepCheckSlot(c, s, pid, p, headFails, nonce, now))
  {
    if p.slot < |p.keys| && p.stage.Check? {
      if p.slot < p.chunkCount && headFails {
        EndKeeps(c, s, pid);
      } else {
        var present := p.slot < p.chunkCount && p.keys[p.slot] in StoreAt(s, p.to);
        BodyIsGood(c, s.reg, p.snap, p.slot, nonce, now);
        NextKeeps(c, s, pid, p, if present then p.(slot := p.slot + 1)
                                else p.(stage := Write(BodyAt(c, s.reg[p.snap], p.slot, nonce, now))));
      }
    }
  }

  lemma FetchKeeps(c: Codec, s: System, pid: nat)
    requires Laws(c) && Inv(c, s) && pid in s.procs
    ensures Inv(c, StepFetch(s, pid, s.procs[pid]))
  {
    var p := s.procs[pid];
    var s' := StepFetch(s, pid, p);
    if s' != s {
      if p.keys[p.slot] !in StoreAt(s, p.origin.from) {
        EndKeeps(c, s, pid);
      } else {
        assert GoodStore(c, s.reg, StoreAt(s, p.origin.from));
        StageProc(c, s, p, s'.procs[pid].stage);
        AdvanceKeeps(c, s, pid, s'.procs[pid]);
      }
    }
  }

  /** A good object, put into a store where everything before it in its snapshot is present. */
  lemma PutStores(c: Codec, s: System, p: Proc, st': Store, ok: bool, lands: bool)
    requires Laws(c) && GoodRegistry(s.reg) && GoodProc(c, s, p) && p.stage.Write?
    requires GoodStore(c, s.reg, StoreAt(s, p.to)) && CompleteMeansWhole(c, s.reg, s.swept, StoreAt(s, p.to))
    requires st' == PutInto(StoreAt(s, p.to), p.keys[p.slot], p.stage.body, ok, lands)
    ensures GoodStore(c, s.reg, st') && CompleteMeansWhole(c, s.reg, s.swept, st')
    ensures Keeps(s.swept, StoreAt(s, p.to), st')
    ensures ok ==> p.keys[p.slot] in st'
  {
    var st := StoreAt(s, p.to);
    PutIntoFacts(st, p.keys[p.slot], p.stage.body, ok, lands);
    forall n | n in s.reg && Covered(s.swept, s.reg[n].source) && CompleteKey(s.reg[n].source, n) in st'
      ensures Whole(c, s.reg[n], st')
    {
      PutWhole(c, s, p, st', n);
    }
  }

  /** A Put never changes or loses an object. */
  lemma PutIntoFacts(st: Store, key: string, body: string, ok: bool, lands: bool)
    ensures var st' := PutInto(st, key, body, ok, lands);
            && (forall k :: k in st ==> k in st' && st'[k] == st[k])
            && (forall k :: k in st' ==> k in st || (k == key && st'[k] == body))
            && (ok ==> key in st')
  {
  }

  lemma PutWhole(c: Codec, s: System, p: Proc, st': Store, n: string)
    requires Laws(c) && GoodRegistry(s.reg) && GoodProc(c, s, p) && p.slot < |p.keys|
    requires CompleteMeansWhole(c, s.reg, s.swept, StoreAt(s, p.to))
    requires n in s.reg && Covered(s.swept, s.reg[n].source) && CompleteKey(s.reg[n].source, n) in st'
    requires forall k :: k in StoreAt(s, p.to) ==> k in st'
    requires forall k :: k in st' ==> k in StoreAt(s, p.to) || k == p.keys[p.slot]
    ensures Whole(c, s.reg[n], st')
  {
    if CompleteKey(s.reg[n].source, n) !in StoreAt(s, p.to) {
      CompleteIsLast(c, s, p, n);
    }
  }

  /** The completion record is the last object its backup or replication writes. */
  lemma CompleteIsLast(c: Codec, s: System, p: Proc, n: string)
    requires Laws(c) && GoodRegistry(s.reg) && GoodProc(c, s, p) && p.slot < |p.keys|
    requires n in s.reg && CompleteKey(s.reg[n].source, n) == p.keys[p.slot]
    ensures n == p.snap && p.slot == |p.keys| - 1
  {
    KindOfSnapshotKeys(s.reg[n].source, n);
    KeyKinds(c, s.reg[p.snap], p.slot);
  }

  lemma PutKeeps(c: Codec, s: System, pid: nat, ok: bool, lands: bool)
    requires Laws(c) && Inv(c, s) && pid in s.procs
    ensures Inv(c, StepPut(s, pid, s.procs[pid], ok, lands))
  {
    var p := s.procs[pid];
    var s' := StepPut(s, pid, p, ok, lands);
    if p.slot < |p.keys| && p.stage.Write? {
      var st' := PutInto(StoreAt(s, p.to), p.keys[p.slot], p.stage.body, ok, lands);
      var s1 := s.(stores := s.stores[p.to := st']);
      PutStores(c, s, p, st', ok, lands);
      ChangedStore(c, s, s1, p.to, st');
      ProcKept(c, s, s1, p);
      if ok {
        SlotProc(c, s1, p);
        AdvanceKeeps(c, s1, pid, p.(slot := p.slot + 1, stage := Check));
      } else {
        EndKeeps(c, s1, pid);
      }
    }
  }

  lemma ChangedStore(c: Codec, s: System, s': System, j: nat, st': Store)
    requires Laws(c) && Inv(c, s) && s' == s.(stores := s.stores[j := st'])
    requires GoodStore(c, s.reg, st') && CompleteMeansWhole(c, s.reg, s.swept, st')
    requires Keeps(s.swept, StoreAt(s, j), st')
    ensures Progress(s, s') && Inv(c, s')
  {
    forall i ensures GoodStore(c, s'.reg, StoreAt(s', i)) && CompleteMeansWhole(c, s'.reg, s'.swept, StoreAt(s', i))
             ensures Keeps(s'.swept, StoreAt(s, i), StoreAt(s', i))
    {
      if i != j {
        assert StoreAt(s', i) == StoreAt(s, i);
      }
    }
    InvKept(c, s, s');
  }

  lemma CataloguedKeeps(c: Codec, s: System, n: string)
    requires Laws(c) && Inv(c, s) && n in s.reg
    requires Covered(s.swept, s.reg[n].source) ==> Whole(c, s.reg[n], StoreAt(s, s.reg[n].home))
    ensures Inv(c, s.(catalogue := s.catalogue[n := EntryOf(c, s.reg[n])]))
  {
    var s' := s.(catalogue := s.catalogue[n := EntryOf(c, s.reg[n])]);
    SameStores(c, s, s');
    assert GoodEntry(c, s', n, EntryOf(c, s.reg[n])) by {
      assert StoreAt(s', s.reg[n].home) == StoreAt(s, s.reg[n].home);
    }
    InvKept(c, s, s');
  }

  lemma RecordKeeps(c: Codec, s: System, pid: nat, lands: bool)
    requires Laws(c) && Inv(c, s) && pid in s.procs
    ensures Inv(c, StepRecord(c, s, pid, s.procs[pid], lands))
  {
    var p := s.procs[pid];
    assert GoodProc(c, s, p);
    if p.slot == |p.keys| {
      if p.origin.FromArtifact? && lands {
        CataloguedKeeps(c, s, p.snap);
        EndKeeps(c, s.(catalogue := s.catalogue[p.snap := EntryOf(c, s.reg[p.snap])]), pid);
      } else {
        EndKeeps(c, s, pid);
      }
    }
  }

  lemma SweepStores(c: Codec, s: System, st: Store, key: string)
    requires Laws(c) && s.swept && HasPrefix(key, CHUNKS_PREFIX)
    requires GoodStore(c, s.reg, st) && CompleteMeansWhole(c, s.reg, s.swept, st)
    ensures GoodStore(c, s.reg, st - {key}) && CompleteMeansWhole(c, s.reg, s.swept, st - {key})
    ensures Keeps(s.swept, st, st - {key})
  {
    forall n | n in s.reg && Covered(s.swept, s.reg[n].source) && CompleteKey(s.reg[n].source, n) in st - {key}
      ensures Whole(c, s.reg[n], st - {key})
    {
      FirstKept(c, s.reg[n], s.swept, st, st - {key}, |KeysOf(c, s.reg[n])|);
    }
  }

  lemma SweepNextKeeps(c: Codec, s: System, pid: nat, ok: bool, lands: bool)
    requires Laws(c) && Inv(c, s) && pid in s.sweeps
    ensures Inv(c, StepSweepNext(s, pid, s.sweeps[pid], ok, lands))
  {
    var w := s.sweeps[pid];
    var s' := StepSweepNext(s, pid, w, ok, lands);
    assert GoodSweep(w);
    if w.next < |w.keys| {
      var st := StoreAt(s, w.store);
      SweepStores(c, s, st, w.keys[w.next]);
      var st' := if ok || lands then st - {w.keys[w.next]} else st;
      var s1 := s.(stores := s.stores[w.store := st']);
      ChangedStore(c, s, s1, w.store, st');
      SweepsOnly(c, s1, s');
    }
  }

  lemma SweepsOnly(c: Codec, s: System, s': System)
    requires Laws(c) && Inv(c, s) && s' == s.(sweeps := s'.sweeps, swept := s'.swept) && (s.swept ==> s'.swept)
    requires forall q :: q in s'.sweeps ==>
               (q in s.sweeps && s'.sweeps[q] == s.sweeps[q]) || (s'.swept && GoodSweep(s'.sweeps[q]))
    ensures Inv(c, s')
  {
    SameStores(c, s, s');
    InvKept(c, s, s');
  }

  lemma BeginSweepKeeps(c: Codec, s: System, pid: nat, store: nat, keys: seq<string>, unreadable: set<string>)
    requires Laws(c) && Inv(c, s)
    ensures Inv(c, Apply(c, s, BeginSweep(pid, store, keys, unreadable)))
  {
    var s' := Apply(c, s, BeginSweep(pid, store, keys, unreadable));
    if s' != s {
      forall i | 0 <= i < |keys| ensures HasPrefix(keys[i], CHUNKS_PREFIX) {
        assert keys[i] in keys;
      }
      SweepsOnly(c, s, s');
    }
  }

  /** A step of a backup or a replication that is under way. */
  lemma ProcStepKeeps(c: Codec, s: System, a: Action)
    requires Laws(c) && Inv(c, s)
    requires a.CheckSlot? || a.FetchObject? || a.PutObject? || a.Record? || a.Stop?
    ensures Inv(c, Apply(c, s, a))
  {
    if a.Stop? {
      EndKeeps(c, s, a.pid);
    } else if a.pid in s.procs {
      match a {
        case CheckSlot(pid, headFails, nonce, now) =>
          if s.procs[pid].origin.FromStore? {
            CheckToCopyKeeps(c, s, pid, s.procs[pid], headFails, nonce, now);
          } else {
            CheckToWriteKeeps(c, s, pid, s.procs[pid], headFails, nonce, now);
          }
        case FetchObject(pid) => FetchKeeps(c, s, pid);
        case PutObject(pid, ok, lands) => PutKeeps(c, s, pid, ok, lands);
        case Record(pid, ok, lands) => RecordKeeps(c, s, pid, ok || lands);
      }
    }
  }

  /** Every step keeps the invariant. */
  lemma ApplyKeeps(c: Codec, s: System, a: Action)
    requires Laws(c) && Inv(c, s)
    ensures Inv(c, Apply(c, s, a))
  {
    match a
    case BeginBackup(pid, info, lookupFails) => BeginBackupKeeps(c, s, pid, info, lookupFails);
    case BeginCopy(pid, from, to, snap) => BeginCopyKeeps(c, s, pid, from, to, snap);
    case BeginSweep(pid, store, keys, unreadable) => BeginSweepKeeps(c, s, pid, store, keys, unreadable);
    case SweepNext(pid, ok, lands) => if pid in s.sweeps { SweepNextKeeps(c, s, pid, ok, lands); }
    case _ => ProcStepKeeps(c, s, a);
  }

  // ----- nothing that began or was catalogued is forgotten

  /** s' knows every backup and every catalogued snapshot that s does. */
  ghost predicate Remembers(s: System, s': System) {
    Extends(s.reg, s'.reg) && s.catalogue.Keys <= s'.catalogue.Keys
  }

  lemma CheckRemembers(c: Codec, s: System, pid: nat, p: Proc, headFails: bool, nonce: string, now: string)
    requires Laws(c)
    ensures var s' := StepCheckSlot(c, s, pid, p, headFails, nonce, now); s'.reg == s.reg && s'.catalogue == s.catalogue
  {
  }

  lemma PutRemembers(s: System, pid: nat, p: Proc, ok: bool, lands: bool)
    ensures Remembers(s, StepPut(s, pid, p, ok, lands))
  {
  }

  lemma FetchRemembers(s: System, pid: nat, p: Proc)
    ensures Remembers(s, StepFetch(s, pid, p))
  {
  }

  lemma RecordRemembers(c: Codec, s: System, pid: nat, p: Proc, lands: bool)
    requires Laws(c)
    ensures Remembers(s, StepRecord(c, s, pid, p, lands))
  {
  }

  lemma BackupRemembers(c: Codec, s: System, pid: nat, info: Info, lookupFails: bool)
    requires Laws(c)
    ensures Remembers(s, StepBeginBackup(c, s, pid, info, lookupFails))
  {
  }

  lemma CopyRemembers(c: Codec, s: System, pid: nat, from: nat, to: nat, snap: string)
    ensures Remembers(s, StepBeginCopy(c, s, pid, from, to, snap))
  {
  }

  lemma ApplyExtends(c: Codec, s: System, a: Action)
    requires Laws(c)
    ensures Remembers(s, Apply(c, s, a))
  {
    match a
    case BeginBackup(pid, info, lookupFails) => BackupRemembers(c, s, pid, info, lookupFails);
    case BeginCopy(pid, from, to, snap) => CopyRemembers(c, s, pid, from, to, snap);
    case CheckSlot(pid, headFails, nonce, now) =>
      if pid in s.procs { CheckRemembers(c, s, pid, s.procs[pid], headFails, nonce, now); }
    case FetchObject(pid) => if pid in s.procs { FetchRemembers(s, pid, s.procs[pid]); }
    case PutObject(pid, ok, lands) => if pid in s.procs { PutRemembers(s, pid, s.procs[pid], ok, lands); }
    case Record(pid, ok, lands) => if pid in s.procs { RecordRemembers(c, s, pid, s.procs[pid], ok || lands); }
    case _ =>
  }

  lemma {:induction false} RunExtends(c: Codec, s: System, actions: seq<Action>)
    requires Laws(c)
    ensures Remembers(s, Run(c, s, actions))
  {
    if actions != [] {
      RunExtends(c, s, actions[..|actions| - 1]);
      ApplyExtends(c, Run(c, s, actions[..|actions| - 1]), actions[|actions| - 1]);
    }
  }

  /** The invariant holds in every reachable state. */
  lemma {:induction false} Reachable(c: Codec, actions: seq<Action>)
    requires Laws(c)
    ensures Inv(c, Run(c, EMPTY, actions))
  {
    if actions != [] {
      Reachable(c, actions[..|actions| - 1]);
      ApplyKeeps(c, Run(c, EMPTY, actions[..|actions| - 1]), actions[|actions| - 1]);
    }
  }
}
