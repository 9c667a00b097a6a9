/** Service.Create of backup/service.go, proved to be a run of the repository's state machine. */
module Backup {
  import opened Text
  import opened Chunking
  import opened Digest
  import opened ObjectKeys
  import opened Snapshots
  import opened Repository
  import opened Storage

  datatype Result = Duplicate(of: string) | Committed(snap: string, reusedBytes: nat) | Failed

  /** The state machine `s` is at slot `slot` of the backup `info`, run as process `pid`. */
  ghost predicate At(c: Codec, s: System, pid: nat, info: Info, slot: nat, objects: Store)
    requires Laws(c)
  {
    && info.snap in s.reg && s.reg[info.snap] == info
    && pid in s.procs
    && s.procs[pid] == Proc(FromArtifact, info.home, info.snap, KeysOf(c, info), |ArtifactChunks(info.art)|, slot,
                            Check)
    && StoreAt(s, info.home) == objects
  }

  /** Nothing but the home store and the backup's own process differ. */
  ghost predicate Only(s: System, s': System, home: nat, pid: nat) {
    && (forall i :: i != home ==> StoreAt(s', i) == StoreAt(s, i))
    && s'.catalogue == s.catalogue && s'.sweeps == s.sweeps && s'.swept == s.swept && s'.reg == s.reg
    && s'.procs - {pid} == s.procs - {pid}
  }

  lemma RunTwo(c: Codec, s: System, a: Action, b: Action)
    requires Laws(c)
    ensures Run(c, s, [a]) == Apply(c, s, a)
    ensures Run(c, s, [a, b]) == Apply(c, Apply(c, s, a), b)
  {
    assert [a][..0] == [];
    assert [a, b][..1] == [a];
  }

  /** The state after the slot was checked and its body put. */
  function Written(s: System, pid: nat, p: Proc, body: string, ok: bool, lands: bool): System
    requires p.slot < |p.keys|
  {
    var s2 := s.(stores := s.stores[p.to := PutInto(StoreAt(s, p.to), p.keys[p.slot], body, ok, lands)]);
    if ok then Advance(s2, pid, p.(slot := p.slot + 1, stage := Check)) else End(s2, pid)
  }

  lemma WrittenAt(c: Codec, s: System, pid: nat, info: Info, slot: nat, objects: Store, body: string, ok: bool,
                  lands: bool)
    requires Laws(c) && At(c, s, pid, info, slot, objects) && slot < |KeysOf(c, info)|
    ensures var s' := Written(s, pid, s.procs[pid], body, ok, lands);
            var objects' := PutInto(objects, KeysOf(c, info)[slot], body, ok, lands);
            && Only(s, s', info.home, pid)
            && (ok ==> At(c, s', pid, info, slot + 1, objects'))
            && (!ok ==> pid !in s'.procs && StoreAt(s', info.home) == objects')
  {
  }

  lemma CheckWrites(c: Codec, s: System, pid: nat, info: Info, slot: nat, objects: Store, nonce: string, now: string)
    requires Laws(c) && At(c, s, pid, info, slot, objects) && slot < |KeysOf(c, info)|
    requires slot < |ArtifactChunks(info.art)| ==> KeysOf(c, info)[slot] !in objects
    ensures Apply(c, s, CheckSlot(pid, false, nonce, now))
         == Advance(s, pid, s.procs[pid].(stage := Write(BodyAt(c, info, slot, nonce, now))))
  {
  }

  lemma PutWrites(c: Codec, s: System, pid: nat, p: Proc, body: string, ok: bool, lands: bool)
    requires Laws(c) && p.slot < |p.keys|
    ensures Apply(c, Advance(s, pid, p.(stage := Write(body))), PutObject(pid, ok, lands))
         == Written(s, pid, p, body, ok, lands)
  {
    var q := p.(stage := Write(body));
    var s1 := Advance(s, pid, q);
    assert StoreAt(s1, p.to) == StoreAt(s, p.to);
    assert Apply(c, s1, PutObject(pid, ok, lands)) == StepPut(s1, pid, q, ok, lands);
    PutTwice(s, pid, p, q, ok, lands);
  }

  /** Setting the stage first makes no difference: the process is overwritten or removed. */
  lemma PutTwice(s: System, pid: nat, p: Proc, q: Proc, ok: bool, lands: bool)
    requires q.stage.Write? && q == p.(stage := q.stage) && p.slot < |p.keys|
    ensures StepPut(Advance(s, pid, q), pid, q, ok, lands) == Written(s, pid, p, q.stage.body, ok, lands)
  {
    var s1 := Advance(s, pid, q);
    assert s1.procs[pid := p.(slot := p.slot + 1, stage := Check)]
           == s.procs[pid := p.(slot := p.slot + 1, stage := Check)];
    assert s1.procs - {pid} == s.procs - {pid};
  }

  /** One object of the snapshot: prepare the body, then Put it. */
  method WriteSlot(c: Codec, store: Bucket, key: string, body: string,
                   ghost s: System, ghost pid: nat, ghost info: Info, ghost slot: nat,
                   ghost nonce: string, ghost now: string)
    returns (ok: bool, ghost trace: seq<Action>)
    requires Laws(c) && At(c, s, pid, info, slot, store.objects) && slot < |KeysOf(c, info)|
    requires key == KeysOf(c, info)[slot] && body == BodyAt(c, info, slot, nonce, now)
    requires slot < |ArtifactChunks(info.art)| ==> key !in store.objects
    modifies store
    ensures Only(s, Run(c, s, trace), info.home, pid)
    ensures ok ==> At(c, Run(c, s, trace), pid, info, slot + 1, store.objects)
    ensures ok ==> store.objects.Keys == old(store.objects).Keys + {key}
    ensures !ok ==> Ended(Run(c, s, trace), pid, info.home, store.objects)
    ensures store.Faults() == old(store.Faults()) + if ok then 0 else 1
  {
    ghost var lands;
    ok, lands := store.Put(key, body);
    trace := [CheckSlot(pid, false, nonce, now), PutObject(pid, ok, lands)];
    RunTwo(c, s, CheckSlot(pid, false, nonce, now), PutObject(pid, ok, lands));
    CheckWrites(c, s, pid, info, slot, old(store.objects), nonce, now);
    PutWrites(c, s, pid, s.procs[pid], body, ok, lands);
    WrittenAt(c, s, pid, info, slot, old(store.objects), body, ok, lands);
  }

  lemma CheckSkips(c: Codec, s: System, pid: nat, info: Info, slot: nat, objects: Store, headFails: bool)
    requires Laws(c) && At(c, s, pid, info, slot, objects) && slot < |ArtifactChunks(info.art)|
    requires headFails || KeysOf(c, info)[slot] in objects
    ensures var s' := Apply(c, s, CheckSlot(pid, headFails, "", ""));
            s' == if headFails then End(s, pid) else Advance(s, pid, s.procs[pid].(slot := slot + 1))
  {
  }

  /** The body of the upload loop: reuse the chunk if the store has it, else compress, encrypt and Put. */
  method UploadChunk(c: Codec, store: Bucket, data: string, id: string, key: string,
                     ghost s: System, ghost pid: nat, ghost info: Info, ghost slot: nat)
    returns (ok: bool, reused: bool, ghost trace: seq<Action>)
    requires Laws(c) && At(c, s, pid, info, slot, store.objects) && slot < |ArtifactChunks(info.art)|
    requires data == ArtifactChunks(info.art)[slot].data && id == ChunkIdAt(c, info.art, slot)
    requires key == KeysOf(c, info)[slot]
    modifies store
    ensures Only(s, Run(c, s, trace), info.home, pid)
    ensures ok ==> At(c, Run(c, s, trace), pid, info, slot + 1, store.objects)
    ensures ok ==> store.objects.Keys == old(store.objects).Keys + {key} && (reused <==> key in old(store.objects))
    ensures !ok ==> Ended(Run(c, s, trace), pid, info.home, store.objects)
    ensures reused ==> ok && store.objects == old(store.objects)
    ensures store.Faults() == old(store.Faults()) + if ok then 0 else 1
  {
    var head := store.Head(key);
    reused := head.Found?;
    if head.NotFound? {
      var nonce: string := *;
      var buf := c.compress(data);
      var enc := c.encrypt(id, buf, nonce);
      ok, trace := WriteSlot(c, store, key, enc, s, pid, info, slot, nonce, "");
    } else {
      ok := head.Found?;
      trace := [CheckSlot(pid, !ok, "", "")];
      SkipRuns(c, s, pid, info, slot, store.objects, !ok);
    }
  }

  lemma SkipRuns(c: Codec, s: System, pid: nat, info: Info, slot: nat, objects: Store, headFails: bool)
    requires Laws(c) && At(c, s, pid, info, slot, objects) && slot < |ArtifactChunks(info.art)|
    requires headFails || KeysOf(c, info)[slot] in objects
    ensures var s' := Run(c, s, [CheckSlot(pid, headFails, "", "")]);
            && Only(s, s', info.home, pid)
            && (!headFails ==> At(c, s', pid, info, slot + 1, objects))
            && (headFails ==> Ended(s', pid, info.home, objects))
  {
    RunTwo(c, s, CheckSlot(pid, headFails, "", ""), CheckSlot(pid, headFails, "", ""));
    CheckSkips(c, s, pid, info, slot, objects, headFails);
  }

  /** The state machine ended the backup, and the stores show what is in the bucket. */
  ghost predicate Ended(s: System, pid: nat, home: nat, objects: Store) {
    pid !in s.procs && StoreAt(s, home) == objects
  }

  /** Two stretches of a run that touch only the home store and the process make one. */
  lemma OnlyChain(c: Codec, s: System, a: seq<Action>, b: seq<Action>, home: nat, pid: nat)
    requires Laws(c) && Only(s, Run(c, s, a), home, pid) && Only(Run(c, s, a), Run(c, Run(c, s, a), b), home, pid)
    ensures Run(c, s, a + b) == Run(c, Run(c, s, a), b) && Only(s, Run(c, s, a + b), home, pid)
  {
    RunConcat(c, s, a, b);
  }

  lemma InfosNext(c: Codec, source: string, a: Artifact, i: nat)
    requires Laws(c) && i < |ArtifactChunks(a)|
    ensures ChunkInfos(c, source, a)[..i + 1] == ChunkInfos(c, source, a)[..i] + [ChunkInfoAt(c, source, a, i)]
  {
  }

  lemma ChunkKeyAt(c: Codec, info: Info, i: nat)
    requires Laws(c) && i < |ArtifactChunks(info.art)|
    ensures KeysOf(c, info)[i] == ChunkKey(info.source, c.keyVersion, ChunkIdAt(c, info.art, i))
  {
    assert KeysOf(c, info)[i] == ChunkInfoAt(c, info.source, info.art, i).objectKey;
  }

  /** The bytes of the first n chunks that need no upload: the store had them, or an earlier chunk is the same. */
  function ReusedBytes(c: Codec, info: Info, had: set<string>, n: nat): nat
    requires Laws(c) && n <= |ArtifactChunks(info.art)|
  {
    if n == 0 then 0
    else
      var keys := KeysOf(c, info);
      ReusedBytes(c, info, had, n - 1)
      + if keys[n - 1] in had || keys[n - 1] in keys[..n - 1] then |ArtifactChunks(info.art)[n - 1].data| else 0
  }

  /** The keys of the first n objects. */
  ghost function FirstKeys(c: Codec, info: Info, n: nat): set<string>
    requires Laws(c) && n <= |KeysOf(c, info)|
  {
    set k | k in KeysOf(c, info)[..n]
  }

  lemma ReusedNext(c: Codec, info: Info, had: set<string>, n: nat)
    requires Laws(c) && n < |ArtifactChunks(info.art)|
    ensures FirstKeys(c, info, n + 1) == FirstKeys(c, info, n) + {KeysOf(c, info)[n]}
    ensures ReusedBytes(c, info, had, n + 1)
         == ReusedBytes(c, info, had, n)
          + if KeysOf(c, info)[n] in had + FirstKeys(c, info, n) then |ArtifactChunks(info.art)[n].data| else 0
  {
    assert KeysOf(c, info)[..n + 1] == KeysOf(c, info)[..n] + [KeysOf(c, info)[n]];
  }

  /** One turn of the upload loop, as the next stretch of a run. */
  method UploadNext(c: Codec, store: Bucket, source: string, ch: PlainChunk, chunkID: string,
                    ghost s: System, ghost pid: nat, ghost info: Info, ghost i: nat, ghost trace: seq<Action>)
    returns (ok: bool, reused: bool, entry: ChunkInfo, ghost trace': seq<Action>)
    requires Laws(c) && i < |ArtifactChunks(info.art)| && Only(s, Run(c, s, trace), info.home, pid)
    requires At(c, Run(c, s, trace), pid, info, i, store.objects)
    requires source == info.source && ch == ArtifactChunks(info.art)[i] && chunkID == ChunkIdAt(c, info.art, i)
    modifies store
    ensures Only(s, Run(c, s, trace'), info.home, pid) && entry == ChunkInfoAt(c, source, info.art, i)
    ensures ok ==> At(c, Run(c, s, trace'), pid, info, i + 1, store.objects)
    ensures ok ==> store.objects.Keys == old(store.objects).Keys + {KeysOf(c, info)[i]}
    ensures ok ==> (reused <==> KeysOf(c, info)[i] in old(store.objects).Keys)
    ensures !ok ==> Ended(Run(c, s, trace'), pid, info.home, store.objects)
    ensures store.Faults() == old(store.Faults()) + if ok then 0 else 1
  {
    var key := ChunkKey(source, c.keyVersion, chunkID);
    ChunkKeyAt(c, info, i);
    ghost var t;
    ok, reused, t := UploadChunk(c, store, ch.data, chunkID, key, Run(c, s, trace), pid, info, i);
    OnlyChain(c, s, trace, t, info.home, pid);
    trace' := trace + t;
    entry := ChunkInfo(ch.sequence, chunkID, key, ch.pageStart, ch.pageCount, |ch.data|);
  }

  /** What the loop has made of the first n chunks. */
  ghost predicate Uploaded(c: Codec, info: Info, had: set<string>, n: nat, has: set<string>,
                           manifestChunks: seq<ChunkInfo>, reusedBytes: nat)
    requires Laws(c)
  {
    && n <= |ArtifactChunks(info.art)|
    && has == had + FirstKeys(c, info, n)
    && manifestChunks == ChunkInfos(c, info.source, info.art)[..n]
    && reusedBytes == ReusedBytes(c, info, had, n)
  }

  lemma UploadedNext(c: Codec, info: Info, had: set<string>, n: nat, has: set<string>,
                     manifestChunks: seq<ChunkInfo>, reusedBytes: nat)
    requires Laws(c) && n < |ArtifactChunks(info.art)| && Uploaded(c, info, had, n, has, manifestChunks, reusedBytes)
    ensures var key := KeysOf(c, info)[n];
            Uploaded(c, info, had, n + 1, has + {key}, manifestChunks + [ChunkInfoAt(c, info.source, info.art, n)],
                     reusedBytes + if key in has then |ArtifactChunks(info.art)[n].data| else 0)
  {
    InfosNext(c, info.source, info.art, n);
    ReusedNext(c, info, had, n);
  }

  /** The upload loop. */
  method UploadChunks(c: Codec, store: Bucket, source: string, chunks: seq<PlainChunk>, ids: seq<string>,
                      ghost s: System, ghost pid: nat, ghost info: Info)
    returns (ok: bool, manifestChunks: seq<ChunkInfo>, reusedBytes: nat, ghost trace: seq<Action>)
    requires Laws(c) && At(c, s, pid, info, 0, store.objects)
    requires source == info.source && chunks == ArtifactChunks(info.art) && ids == IdsOf(c, info.art)
    modifies store
    ensures Only(s, Run(c, s, trace), info.home, pid)
    ensures ok ==> At(c, Run(c, s, trace), pid, info, |chunks|, store.objects)
    ensures ok ==> manifestChunks == ChunkInfos(c, source, info.art)
    ensures ok ==> reusedBytes == ReusedBytes(c, info, old(store.objects).Keys, |chunks|)
    ensures !ok ==> Ended(Run(c, s, trace), pid, info.home, store.objects)
    ensures store.Faults() == old(store.Faults()) + if ok then 0 else 1
  {
    trace, manifestChunks, reusedBytes := [], [], 0;
    for i := 0 to |chunks|
      invariant Only(s, Run(c, s, trace), info.home, pid)
      invariant At(c, Run(c, s, trace), pid, info, i, store.objects)
      invariant Uploaded(c, info, old(store.objects).Keys, i, store.objects.Keys, manifestChunks, reusedBytes)
      invariant store.Faults() == old(store.Faults())
    {
      UploadedNext(c, info, old(store.objects).Keys, i, store.objects.Keys, manifestChunks, reusedBytes);
      var reused, entry;
      ok, reused, entry, trace := UploadNext(c, store, source, chunks[i], ids[i], s, pid, info, i, trace);
      if !ok {
        return;
      }
      if reused {
        reusedBytes := reusedBytes + |chunks[i].data|;
      }
      manifestChunks := manifestChunks + [entry];
    }
    ok := true;
    assert ChunkInfos(c, source, info.art)[..|chunks|] == ChunkInfos(c, source, info.art);
  }

  /** Manifest, signature and completion record, in this order. */
  method Publish(c: Codec, store: Bucket, source: string, snap: string, payload: string,
                 ghost s: System, ghost pid: nat, ghost info: Info)
    returns (ok: bool, ghost trace: seq<Action>)
    requires Laws(c) && At(c, s, pid, info, |ArtifactChunks(info.art)|, store.objects)
    requires source == info.source && snap == info.snap && payload == Payload(c, info)
    modifies store
    ensures Only(s, Run(c, s, trace), info.home, pid)
    ensures ok ==> At(c, Run(c, s, trace), pid, info, |KeysOf(c, info)|, store.objects)
    ensures !ok ==> Ended(Run(c, s, trace), pid, info.home, store.objects)
    ensures store.Faults() == old(store.Faults()) + if ok then 0 else 1
  {
    ghost var n := |ArtifactChunks(info.art)|;
    ghost var t;
    var sig := c.sign(payload);
    ok, trace := WriteSlot(c, store, ManifestKey(source, snap), payload, s, pid, info, n, "", "");
    if !ok {
      return;
    }
    ok, t := WriteSlot(c, store, SigKey(source, snap), sig, Run(c, s, trace), pid, info, n + 1, "", "");
    RunConcat(c, s, trace, t);
    trace := trace + t;
    if !ok {
      return;
    }
    var now: string := *;
    var completion := Completion(snap, ShaHex(c, payload), now);
    ok, t := WriteSlot(c, store, CompleteKey(source, snap), c.encodeCompletion(completion), Run(c, s, trace), pid, info,
                       n + 2, "", now);
    RunConcat(c, s, trace, t);
    trace := trace + t;
  }

  method ChunkIds(c: Codec, a: Artifact, chunks: seq<PlainChunk>) returns (ids: seq<string>)
    requires Laws(c) && chunks == ArtifactChunks(a)
    ensures ids == IdsOf(c, a)
  {
    ids := [];
    for i := 0 to |chunks|
      invariant ids == IdsOf(c, a)[..i]
    {
      ids := ids + [ChunkID(c.hash, c.dedupKey, a.pageSize, chunks[i].data)];
    }
    assert IdsOf(c, a)[..|chunks|] == IdsOf(c, a);
  }

  method Sizes(chunks: seq<PlainChunk>) returns (sizes: seq<int>)
    ensures |sizes| == |chunks| && forall i :: 0 <= i < |sizes| ==> sizes[i] == |chunks[i].data|
  {
    sizes := [];
    for i := 0 to |chunks|
      invariant |sizes| == i && forall j :: 0 <= j < i ==> sizes[j] == |chunks[j].data|
    {
      sizes := sizes + [|chunks[i].data|];
    }
  }

  lemma RecordStep(c: Codec, s: System, pid: nat, info: Info, objects: Store, ok: bool, lands: bool)
    requires Laws(c) && At(c, s, pid, info, |KeysOf(c, info)|, objects)
    ensures Apply(c, s, Record(pid, ok, lands))
         == if ok || lands then End(s.(catalogue := s.catalogue[info.snap := EntryOf(c, info)]), pid) else End(s, pid)
  {
  }

  lemma BeginStep(c: Codec, s: System, pid: nat, info: Info, lookupFails: bool)
    requires Laws(c) && pid !in s.procs && info.snap !in s.reg && Free(info.snap, '/')
    requires !lookupFails ==> !HasRoot(s.catalogue, info.source, RootOf(c, info.art))
    ensures var s' := Apply(c, s, BeginBackup(pid, info, lookupFails));
            && At(c, s', pid, info, 0, StoreAt(s, info.home))
            && s' == s.(reg := s.reg[info.snap := info], procs := s'.procs)
            && s'.procs - {pid} == s.procs
  {
  }

  /** Only the home store, the catalogue and the process `pid` may differ. */
  ghost predicate Others(s: System, s': System, home: nat, pid: nat) {
    && (forall i :: i != home ==> StoreAt(s', i) == StoreAt(s, i))
    && s'.procs - {pid} == s.procs - {pid}
    && s'.sweeps == s.sweeps && s'.swept == s.swept
  }

  /** The entry was recorded; after a failure it may or may not have been. */
  ghost predicate Recorded(before: map<string, Entry>, now: map<string, Entry>, e: Entry, ok: bool) {
    now == before[e.snap := e] || (!ok && now == before)
  }

  /** Create from the first upload on: it ends committed and catalogued, or failed. */
  method UploadAndCommit(c: Codec, store: Bucket, cat: Catalogue, source: string, art: Artifact, snap: string,
                         rest: string,
                         chunks: seq<PlainChunk>, ids: seq<string>, root: string,
                         ghost s: System, ghost pid: nat, ghost info: Info)
    returns (r: Result, ghost trace: seq<Action>)
    requires Laws(c) && At(c, s, pid, info, 0, store.objects) && s.catalogue == cat.entries
    requires source == info.source && art == info.art && snap == info.snap && rest == info.rest
    requires chunks == ArtifactChunks(art) && ids == IdsOf(c, art) && root == RootOf(c, art)
    modifies store, cat
    ensures Ended(Run(c, s, trace), pid, info.home, store.objects) && Run(c, s, trace).catalogue == cat.entries
    ensures Others(s, Run(c, s, trace), info.home, pid) && Run(c, s, trace).reg == s.reg
    ensures !r.Duplicate?
    ensures Recorded(old(cat.entries), cat.entries, EntryOf(c, info), r.Committed?)
    ensures store.Faults() + cat.failures == old(store.Faults() + cat.failures) + if r.Failed? then 1 else 0
    ensures cat.searchFailures == old(cat.searchFailures)
    ensures r.Committed? ==> r.snap == snap && r.reusedBytes == ReusedBytes(c, info, old(store.objects).Keys, |chunks|)
  {
    var ok, manifestChunks, reusedBytes;
    ok, manifestChunks, reusedBytes, trace := UploadChunks(c, store, source, chunks, ids, s, pid, info);
    if !ok {
      return Failed, trace;
    }
    var manifest := Manifest(snap, source, "", art.engine, art.pageSize, |art.data|, root, manifestChunks, rest);
    ghost var t;
    ok, t := Publish(c, store, source, snap, c.encodeManifest(manifest), Run(c, s, trace), pid, info);
    RunConcat(c, s, trace, t);
    trace := trace + t;
    if !ok {
      return Failed, trace;
    }
    ok, t := RecordEntry(c, cat, source, snap, root, Run(c, s, trace), pid, info, store.objects);
    RunConcat(c, s, trace, t);
    trace := trace + t;
    r := if ok then Committed(snap, reusedBytes) else Failed;
  }

  /** Catalogue.CreateSnapshot, after everything is published. */
  method RecordEntry(c: Codec, cat: Catalogue, source: string, snap: string, root: string,
                     ghost s: System, ghost pid: nat, ghost info: Info, ghost objects: Store)
    returns (ok: bool, ghost trace: seq<Action>)
    requires Laws(c) && At(c, s, pid, info, |KeysOf(c, info)|, objects) && s.catalogue == cat.entries
    requires source == info.source && snap == info.snap && root == RootOf(c, info.art)
    modifies cat
    ensures Ended(Run(c, s, trace), pid, info.home, objects) && Run(c, s, trace).catalogue == cat.entries
    ensures Others(s, Run(c, s, trace), info.home, pid) && Run(c, s, trace).reg == s.reg
    ensures Recorded(old(cat.entries), cat.entries, EntryOf(c, info), ok)
    ensures cat.failures == old(cat.failures) + (if ok then 0 else 1) && cat.searchFailures == old(cat.searchFailures)
  {
    ghost var lands;
    ok, lands := cat.CreateSnapshot(Entry(snap, source, root, ManifestKey(source, snap), CompleteKey(source, snap),
                                          true));
    trace := [Record(pid, ok, lands)];
    RecordRuns(c, s, pid, info, objects, ok, lands);
  }

  lemma RecordRuns(c: Codec, s: System, pid: nat, info: Info, objects: Store, ok: bool, lands: bool)
    requires Laws(c) && At(c, s, pid, info, |KeysOf(c, info)|, objects)
    ensures var s' := Run(c, s, [Record(pid, ok, lands)]);
            && Ended(s', pid, info.home, objects) && Others(s, s', info.home, pid) && s'.reg == s.reg
            && s'.catalogue == if ok || lands then s.catalogue[info.snap := EntryOf(c, info)] else s.catalogue
  {
    RunTwo(c, s, Record(pid, ok, lands), Record(pid, ok, lands));
    RecordStep(c, s, pid, info, objects, ok, lands);
  }

  method Root(c: Codec, art: Artifact, chunks: seq<PlainChunk>, ids: seq<string>) returns (root: string)
    requires Laws(c) && chunks == ArtifactChunks(art) && ids == IdsOf(c, art)
    ensures root == RootOf(c, art)
  {
    var sizes := Sizes(chunks);
    assert sizes == SizesOf(art);
    root := RootDigest(c.hash, c.dedupKey, sizes, ids, |art.data|, art.pageSize);
  }

  /** Service.Create, for a fresh snapshot id. Whatever store operations fail, the effect is that of a
      list of steps of the repository's state machine, so everything proved of its runs holds here. */
  method Create(c: Codec, store: Bucket, cat: Catalogue, home: nat, source: string, art: Artifact, snap: string,
                rest: string,
                ghost s: System, ghost pid: nat)
    returns (r: Result, ghost trace: seq<Action>)
    requires Laws(c) && Free(snap, '/') && snap !in s.reg && pid !in s.procs
    requires StoreAt(s, home) == store.objects && s.catalogue == cat.entries
    modifies store, cat
    ensures Ended(Run(c, s, trace), pid, home, store.objects) && Run(c, s, trace).catalogue == cat.entries
    ensures Others(s, Run(c, s, trace), home, pid)
    ensures store.Faults() + cat.failures == old(store.Faults() + cat.failures) + if r.Failed? then 1 else 0
    ensures cat.searchFailures == old(cat.searchFailures) ==>
              (r.Duplicate? <==> HasRoot(old(cat.entries), source, RootOf(c, art)))
    ensures r.Duplicate? ==> SameRoot(cat.entries, r.of, source, RootOf(c, art)) && trace == []
    ensures r.Duplicate? ==> store.objects == old(store.objects) && cat.entries == old(cat.entries)
    ensures var info := Info(home, source, snap, art, rest);
            && (!r.Duplicate? ==> Run(c, s, trace).reg == s.reg[snap := info])
            && (!r.Duplicate? ==> Recorded(old(cat.entries), cat.entries, EntryOf(c, info), r.Committed?))
            && (r.Committed? ==> r.snap == snap
                                 && r.reusedBytes
                                    == ReusedBytes(c, info, old(store.objects).Keys, |ArtifactChunks(art)|))
  {
    var target := if art.target == 0 then DEFAULT_TARGET else art.target;
    var chunks := Chunks(art.data, art.pageSize, target);
    var ids := ChunkIds(c, art, chunks);
    var root := Root(c, art, chunks, ids);
    var existing, lookupFails := cat.FindSnapshotByRoot(source, root);
    if existing.Some? {
      return Duplicate(existing.value.snap), [];
    }
    ghost var info := Info(home, source, snap, art, rest);
    r, trace := NewSnapshot(c, store, cat, source, art, snap, rest, chunks, ids, root, s, pid, info, lookupFails);
  }

  /** Create once no duplicate was found. */
  method NewSnapshot(c: Codec, store: Bucket, cat: Catalogue, source: string, art: Artifact, snap: string, rest: string,
                     chunks: seq<PlainChunk>, ids: seq<string>, root: string,
                     ghost s: System, ghost pid: nat, ghost info: Info, ghost lookupFails: bool)
    returns (r: Result, ghost trace: seq<Action>)
    requires Laws(c) && pid !in s.procs && info.snap !in s.reg && Free(info.snap, '/')
    requires !lookupFails ==> !HasRoot(s.catalogue, info.source, RootOf(c, info.art))
    requires StoreAt(s, info.home) == store.objects && s.catalogue == cat.entries
    requires source == info.source && art == info.art && snap == info.snap && rest == info.rest
    requires chunks == ArtifactChunks(art) && ids == IdsOf(c, art) && root == RootOf(c, art)
    modifies store, cat
    ensures Ended(Run(c, s, trace), pid, info.home, store.objects) && Run(c, s, trace).catalogue == cat.entries
    ensures Others(s, Run(c, s, trace), info.home, pid) && Run(c, s, trace).reg == s.reg[snap := info]
    ensures !r.Duplicate?
    ensures Recorded(old(cat.entries), cat.entries, EntryOf(c, info), r.Committed?)
    ensures store.Faults() + cat.failures == old(store.Faults() + cat.failures) + if r.Failed? then 1 else 0
    ensures cat.searchFailures == old(cat.searchFailures)
    ensures r.Committed? ==> r.snap == snap && r.reusedBytes == ReusedBytes(c, info, old(store.objects).Keys, |chunks|)
  {
    ghost var begin := BeginBackup(pid, info, lookupFails);
    BeginStep(c, s, pid, info, lookupFails);
    r, trace := UploadAndCommit(c, store, cat, source, art, snap, rest, chunks, ids, root, Apply(c, s, begin), pid,
                                info);
    Begun(c, s, pid, info, lookupFails, trace);
    trace := [begin] + trace;
  }

  /** A backup from its first step on. */
  lemma Begun(c: Codec, s: System, pid: nat, info: Info, lookupFails: bool, trace: seq<Action>)
    requires Laws(c) && pid !in s.procs && info.snap !in s.reg && Free(info.snap, '/')
    requires !lookupFails ==> !HasRoot(s.catalogue, info.source, RootOf(c, info.art))
    requires var s1 := Apply(c, s, BeginBackup(pid, info, lookupFails));
             Others(s1, Run(c, s1, trace), info.home, pid) && Run(c, s1, trace).reg == s1.reg
    ensures var begin := BeginBackup(pid, info, lookupFails);
            Run(c, s, [begin] + trace) == Run(c, Apply(c, s, begin), trace)
            && Others(s, Run(c, s, [begin] + trace), info.home, pid)
            && Run(c, s, [begin] + trace).reg == s.reg[info.snap := info]
  {
    var begin := BeginBackup(pid, info, lookupFails);
    RunTwo(c, s, begin, begin);
    RunConcat(c, s, [begin], trace);
    BeginStep(c, s, pid, info, lookupFails);
  }

  /** A catalogued snapshot of the source with this id has this root. */
  predicate SameRoot(entries: map<string, Entry>, snap: string, source: string, root: string) {
    exists e :: e in entries.Values && e.snap == snap && e.source == source && e.root == root
  }
}
