/** The promises of the repository over whole histories. */
module RoundTrip {
  import opened Wrappers
  import opened Text
  import opened Hashing
  import opened Merkle
  import opened Chunking
  import opened Digest
  import opened ObjectKeys
  import opened Snapshots
  import opened Repository
  import opened CommitOrder
  import opened Restore
  import Backup

  /** In every reachable state, with backups, replications and garbage collections interleaved and
      stopped anywhere, a completion record in a store stands above its whole snapshot: the signed
      manifest and every chunk object it names are in that store. Once garbage collection has run
      this is promised for the sources whose keys it does not list. */
  lemma CompletionIsSafe(c: Codec, actions: seq<Action>, i: nat, source: string, snap: string)
    requires Laws(c) && Free(snap, '/')
    requires var s := Run(c, EMPTY, actions);
             CompleteKey(source, snap) in StoreAt(s, i) && (!s.swept || GoodSource(source))
    ensures var st := StoreAt(Run(c, EMPTY, actions), i);
            && ManifestKey(source, snap) in st
            && SigKey(source, snap) in st
            && c.verify(st[ManifestKey(source, snap)], st[SigKey(source, snap)])
            && c.decodeManifest(st[ManifestKey(source, snap)]).Some?
            && (forall j :: 0 <= j < |c.decodeManifest(st[ManifestKey(source, snap)]).value.chunks| ==>
                  c.decodeManifest(st[ManifestKey(source, snap)]).value.chunks[j].objectKey in st)
  {
    var s := Run(c, EMPTY, actions);
    Reachable(c, actions);
    CompletionInfo(c, s, i, source, snap);
    WholeObjects(c, s, i, s.reg[snap]);
  }

  lemma CompletionInfo(c: Codec, s: System, i: nat, source: string, snap: string)
    requires Laws(c) && Inv(c, s) && Free(snap, '/')
    requires CompleteKey(source, snap) in StoreAt(s, i) && Covered(s.swept, source)
    ensures snap in s.reg && s.reg[snap].source == source && s.reg[snap].snap == snap
    ensures Whole(c, s.reg[snap], StoreAt(s, i))
  {
    var st := StoreAt(s, i);
    KindOfSnapshotKeys(source, snap);
    assert GoodStore(c, s.reg, st) && CompleteMeansWhole(c, s.reg, s.swept, st);
    assert GoodObject(c, s.reg, CompleteKey(source, snap), st[CompleteKey(source, snap)]);
    SameCompleteKey(source, s.reg[snap].source, snap);
  }

  lemma SameCompleteKey(a: string, b: string, snap: string)
    requires CompleteKey(a, snap) == CompleteKey(b, snap)
    ensures a == b
  {
    var tail := "/snapshots" + "/" + snap + "/" + "complete.json";
    assert CompleteKey(a, snap) == a + tail && CompleteKey(b, snap) == b + tail;
    SplitAtLength(a, tail, b, tail);
  }

  /** A slot of a whole snapshot is filled, with a good object. */
  lemma WholeSlot(c: Codec, s: System, i: nat, info: Info, slot: nat)
    requires Laws(c) && Inv(c, s) && Whole(c, info, StoreAt(s, i)) && slot < |KeysOf(c, info)|
    ensures KeysOf(c, info)[slot] in StoreAt(s, i)
    ensures GoodObject(c, s.reg, KeysOf(c, info)[slot], StoreAt(s, i)[KeysOf(c, info)[slot]])
  {
    assert GoodStore(c, s.reg, StoreAt(s, i));
  }

  lemma KeysAt(c: Codec, info: Info)
    requires Laws(c)
    ensures var keys, n := KeysOf(c, info), |ArtifactChunks(info.art)|;
            && keys[n] == ManifestKey(info.source, info.snap) && keys[n + 1] == SigKey(info.source, info.snap)
            && keys[n + 2] == CompleteKey(info.source, info.snap)
            && forall j :: 0 <= j < n ==> keys[j] == ChunkInfoAt(c, info.source, info.art, j).objectKey
  {
  }

  /** The objects of a whole snapshot are what its backup published. */
  lemma WholeObjects(c: Codec, s: System, i: nat, info: Info)
    requires Laws(c) && Inv(c, s) && info.snap in s.reg && info == s.reg[info.snap] && Whole(c, info, StoreAt(s, i))
    ensures var st := StoreAt(s, i);
            && ManifestKey(info.source, info.snap) in st && st[ManifestKey(info.source, info.snap)] == Payload(c, info)
            && SigKey(info.source, info.snap) in st && st[SigKey(info.source, info.snap)] == c.sign(Payload(c, info))
            && CompleteKey(info.source, info.snap) in st
            && GoodComplete(c, info, CompleteKey(info.source, info.snap), st[CompleteKey(info.source, info.snap)])
            && (forall j :: 0 <= j < |ArtifactChunks(info.art)| ==>
                  ChunkInfoAt(c, info.source, info.art, j).objectKey in st)
  {
    var n := |ArtifactChunks(info.art)|;
    KindOfSnapshotKeys(info.source, info.snap);
    KeysAt(c, info);
    WholeSlot(c, s, i, info, n);
    WholeSlot(c, s, i, info, n + 1);
    WholeSlot(c, s, i, info, n + 2);
    forall j | 0 <= j < n ensures ChunkInfoAt(c, info.source, info.art, j).objectKey in StoreAt(s, i) {
      WholeSlot(c, s, i, info, j);
    }
  }

  // ----- restoring

  /** A message hashed for this artifact and one hashed for some backup of the history collide. */
  ghost predicate KnownCollision(c: Codec, reg: Registry, a: Artifact)
    requires Laws(c)
  {
    exists m :: m in reg && Collides(c, Messages(c, reg[m].art), Messages(c, a))
  }

  /** A chunk object, stored by whichever backup came first, opens to this snapshot's chunk. */
  lemma ChunkOpens(c: Codec, reg: Registry, a: Artifact, j: nat, key: string, obj: string)
    requires Laws(c) && j < |ArtifactChunks(a)| && OpensToKnownChunk(c, reg, key, ChunkIdAt(c, a, j), obj)
    requires !KnownCollision(c, reg, a)
    ensures OpenChunk(c, ChunkIdAt(c, a, j), obj) == Some(ArtifactChunks(a)[j].data)
  {
    var id := ChunkIdAt(c, a, j);
    var m, k: nat :| m in reg && k < |ArtifactChunks(reg[m].art)| && ChunkIdAt(c, reg[m].art, k) == id
                  && OpenChunk(c, id, obj) == Some(ArtifactChunks(reg[m].art)[k].data);
    SameIdSameChunk(c, reg[m].art, k, a, j);
  }

  lemma ChunkReads(c: Codec, s: System, i: nat, info: Info, j: nat)
    requires Laws(c) && Inv(c, s) && info.snap in s.reg && info == s.reg[info.snap] && Whole(c, info, StoreAt(s, i))
    requires j < |ArtifactChunks(info.art)| && !KnownCollision(c, s.reg, info.art)
    ensures ReadChunk(c, StoreAt(s, i), ManifestOf(c, info), ChunkInfoAt(c, info.source, info.art, j))
         == Ok(ArtifactChunks(info.art)[j].data)
  {
    var st, key, id := StoreAt(s, i), KeysOf(c, info)[j], ChunkIdAt(c, info.art, j);
    assert GoodStore(c, s.reg, st);
    KeyKinds(c, info, j);
    assert GoodObject(c, s.reg, key, st[key]);
    ChunkOpens(c, s.reg, info.art, j, key, st[key]);
    ChunkAccepted(c, st, ManifestOf(c, info), ChunkInfoAt(c, info.source, info.art, j),
                  ArtifactChunks(info.art)[j].data);
  }

  lemma ChunkAccepted(c: Codec, st: Store, man: Manifest, ch: ChunkInfo, data: string)
    requires Laws(c) && ch.objectKey in st && OpenChunk(c, ch.chunkId, st[ch.objectKey]) == Some(data)
    requires man.pageSize >= 0 && ch.pageStart >= 0 && ChunkID(c.hash, c.dedupKey, man.pageSize, data) == ch.chunkId
    ensures ReadChunk(c, st, man, ch) == Ok(data)
  {
  }

  lemma {:induction false} WriteFromChunks(c: Codec, st: Store, man: Manifest, chunks: seq<PlainChunk>, file: string,
                                           i: nat)
    requires Laws(c) && |man.chunks| == |chunks| && man.pageSize >= 0 && i <= |chunks|
    requires forall j :: 0 <= j < |chunks| ==> man.chunks[j].pageStart == chunks[j].pageStart
    requires forall j :: 0 <= j < |chunks| ==> ReadChunk(c, st, man, man.chunks[j]) == Ok(chunks[j].data)
    ensures WriteFrom(c, st, man, file, i) == Ok(WriteChunks(file, chunks[i..], man.pageSize))
    decreases |chunks| - i
  {
    if i < |chunks| {
      var next := WriteAt(file, chunks[i].pageStart * man.pageSize, chunks[i].data);
      WriteFromChunks(c, st, man, chunks, next, i + 1);
      assert chunks[i..][1..] == chunks[i + 1..];
    }
  }

  lemma RootAccepted(c: Codec, info: Info)
    requires Laws(c)
    ensures RootMatches(c, ManifestOf(c, info), RootOf(c, info.art))
  {
    var man := ManifestOf(c, info);
    assert ManifestIds(man) == IdsOf(c, info.art);
    assert ManifestSizes(man) == SizesOf(info.art);
    if |man.chunks| > 0 {
      TreeRootNonEmpty(c, ManifestIds(man));
    }
  }

  lemma TreeRootNonEmpty(c: Codec, ids: seq<string>)
    requires Laws(c) && |ids| > 0 && ids[0] != ""
    ensures RfcTree(c.hash, c.dedupKey, LeafNodes(ids)).hash != ""
  {
  }

  lemma ManifestAccepted(c: Codec, s: System, i: nat, info: Info)
    requires Laws(c) && Inv(c, s) && info.snap in s.reg && info == s.reg[info.snap] && Whole(c, info, StoreAt(s, i))
    ensures ReadManifest(c, StoreAt(s, i), EntryOf(c, info)) == Ok(ManifestOf(c, info))
  {
    WholeObjects(c, s, i, info);
    SigKeyForManifest(info.source, info.snap);
    PayloadParses(c, info);
    CompletionAccepted(c, StoreAt(s, i), info);
  }

  lemma PayloadParses(c: Codec, info: Info)
    requires Laws(c)
    ensures ParseManifest(c, EntryOf(c, info), Payload(c, info)) == Ok(ManifestOf(c, info))
  {
    RootAccepted(c, info);
  }

  lemma CompletionAccepted(c: Codec, st: Store, info: Info)
    requires Laws(c) && CompleteKey(info.source, info.snap) in st
    requires GoodComplete(c, info, CompleteKey(info.source, info.snap), st[CompleteKey(info.source, info.snap)])
    ensures CheckCompletion(c, st, CompleteKey(info.source, info.snap), Payload(c, info)) == Ok(())
  {
  }

  /** What a restore puts back: the bytes, or zeros when the page size is 0 and there are no chunks. */
  function RestoredContent(a: Artifact): string {
    if a.pageSize > 0 then a.data else Zeros(|a.data|)
  }

  /** The round trip. Take any history of backups, replications and collections over shared,
      deduplicated stores, and a catalogued snapshot whose completion record is in store i (its home
      store, or any replica). Unless two messages hashed in that history collide, restoring it from that
      store gives exactly the bytes of the artifact it was taken from if and only if the artifact passes
      the header check of its engine and has a page size or only zeros; and nothing else can come out
      when there is a page size. */
  lemma RestoreExact(c: Codec, actions: seq<Action>, i: nat, snap: string)
    requires Laws(c)
    requires var s := Run(c, EMPTY, actions);
             && snap in s.catalogue && snap in s.reg
             && (!s.swept || GoodSource(s.reg[snap].source))
             && CompleteKey(s.reg[snap].source, snap) in StoreAt(s, i)
    ensures var s := Run(c, EMPTY, actions);
            var a := s.reg[snap].art;
            var r := RestoreOutcome(c, StoreAt(s, i), s.catalogue[snap]);
            || KnownCollision(c, s.reg, a)
            || (&& (r == Ok(a.data) <==> Headed(a.engine, a.data) && (a.pageSize > 0 || a.data == Zeros(|a.data|)))
                && (r.Ok? ==> r.value == RestoredContent(a)))
  {
    var s := Run(c, EMPTY, actions);
    Reachable(c, actions);
    assert GoodEntry(c, s, snap, s.catalogue[snap]);
    var info := s.reg[snap];
    CompletionInfo(c, s, i, info.source, snap);
    if !KnownCollision(c, s.reg, info.art) {
      WholeRestores(c, s, i, info);
      OutcomeExact(info.art);
    }
  }

  /** The content, if it passes the header check. */
  function OutcomeFor(a: Artifact): Outcome<string> {
    if HeaderOk(a.engine, RestoredContent(a)) then Ok(RestoredContent(a)) else Err(NotSqlite)
  }

  lemma OutcomeExact(a: Artifact)
    ensures OutcomeFor(a) == Ok(a.data) <==> Headed(a.engine, a.data) && (a.pageSize > 0 || a.data == Zeros(|a.data|))
  {
    HeaderMeans(a.engine, a.data);
  }

  lemma WholeRestores(c: Codec, s: System, i: nat, info: Info)
    requires Laws(c) && Inv(c, s) && info.snap in s.reg && info == s.reg[info.snap] && Whole(c, info, StoreAt(s, i))
    requires !KnownCollision(c, s.reg, info.art)
    ensures RestoreOutcome(c, StoreAt(s, i), EntryOf(c, info)) == OutcomeFor(info.art)
  {
    ManifestAccepted(c, s, i, info);
    ContentRestored(c, s, i, info);
  }

  lemma ContentRestored(c: Codec, s: System, i: nat, info: Info)
    requires Laws(c) && Inv(c, s) && info.snap in s.reg && info == s.reg[info.snap] && Whole(c, info, StoreAt(s, i))
    requires !KnownCollision(c, s.reg, info.art)
    ensures RestoredFile(c, StoreAt(s, i), ManifestOf(c, info)) == OutcomeFor(info.art)
  {
    ChunksWritten(c, s, i, info);
    WrittenContent(info.art);
    HeaderDecides(c, StoreAt(s, i), ManifestOf(c, info), RestoredContent(info.art));
  }

  lemma WrittenContent(a: Artifact)
    ensures WriteChunks(Zeros(|a.data|), ArtifactChunks(a), a.pageSize) == RestoredContent(a)
  {
    ChunkRoundTrip(a.data, a.pageSize, if a.target == 0 then DEFAULT_TARGET else a.target);
  }

  lemma HeaderDecides(c: Codec, st: Store, man: Manifest, file: string)
    requires Laws(c) && WriteFrom(c, st, man, InitialFile(man), 0) == Ok(file)
    ensures RestoredFile(c, st, man) == if HeaderOk(man.engine, file) then Ok(file) else Err(NotSqlite)
  {
  }

  lemma ChunksWritten(c: Codec, s: System, i: nat, info: Info)
    requires Laws(c) && Inv(c, s) && info.snap in s.reg && info == s.reg[info.snap] && Whole(c, info, StoreAt(s, i))
    requires !KnownCollision(c, s.reg, info.art)
    ensures var man := ManifestOf(c, info);
            WriteFrom(c, StoreAt(s, i), man, InitialFile(man), 0)
            == Ok(WriteChunks(Zeros(|info.art.data|), ArtifactChunks(info.art), info.art.pageSize))
  {
    var st, man, chunks := StoreAt(s, i), ManifestOf(c, info), ArtifactChunks(info.art);
    forall j | 0 <= j < |chunks| ensures ReadChunk(c, st, man, man.chunks[j]) == Ok(chunks[j].data) {
      ChunkReads(c, s, i, info, j);
    }
    WriteFromChunks(c, st, man, chunks, InitialFile(man), 0);
    assert chunks[0..] == chunks;
    assert InitialFile(man) == Zeros(|info.art.data|);
  }

  /** A catalogued snapshot is whole in its home store, so RestoreExact applies there. */
  lemma CataloguedIsHome(c: Codec, actions: seq<Action>, snap: string)
    requires Laws(c)
    requires var s := Run(c, EMPTY, actions); snap in s.catalogue
    ensures var s := Run(c, EMPTY, actions);
            && snap in s.reg
            && (!s.swept || GoodSource(s.reg[snap].source) ==>
                  CompleteKey(s.reg[snap].source, snap) in StoreAt(s, s.reg[snap].home))
  {
    var s := Run(c, EMPTY, actions);
    Reachable(c, actions);
    assert GoodEntry(c, s, snap, s.catalogue[snap]);
    var info := s.reg[snap];
    if Covered(s.swept, info.source) {
      WholeObjects(c, s, info.home, info);
    }
  }

  /** A committed backup, as Create leaves it, followed by anything at all: backups, replications and collections of any
      kind. Restoring it from its home store gives exactly the bytes of its artifact if and only if these pass the
      header check and there is a page size or only zeros; or two messages hashed in that history collide. */
  lemma BackupRestores(c: Codec, done: seq<Action>, later: seq<Action>, info: Info)
    requires Laws(c)
    requires var s := Run(c, EMPTY, done);
             info.snap in s.reg && s.reg[info.snap] == info && info.snap in s.catalogue
    requires var s := Run(c, EMPTY, done + later); !s.swept || GoodSource(info.source)
    ensures var s, a := Run(c, EMPTY, done + later), info.art;
            && info.snap in s.catalogue && s.catalogue[info.snap] == EntryOf(c, info)
            && (|| KnownCollision(c, s.reg, a)
                || (RestoreOutcome(c, StoreAt(s, info.home), s.catalogue[info.snap]) == Ok(a.data)
                    <==> Headed(a.engine, a.data) && (a.pageSize > 0 || a.data == Zeros(|a.data|))))
  {
    StillCatalogued(c, done, later, info);
    CataloguedIsHome(c, done + later, info.snap);
    RestoreExact(c, done + later, info.home, info.snap);
  }

  lemma StillCatalogued(c: Codec, done: seq<Action>, later: seq<Action>, info: Info)
    requires Laws(c)
    requires var s := Run(c, EMPTY, done);
             info.snap in s.reg && s.reg[info.snap] == info && info.snap in s.catalogue
    ensures var s := Run(c, EMPTY, done + later);
            && info.snap in s.reg && s.reg[info.snap] == info
            && info.snap in s.catalogue && s.catalogue[info.snap] == EntryOf(c, info)
  {
    RunConcat(c, EMPTY, done, later);
    RunExtends(c, Run(c, EMPTY, done), later);
    Reachable(c, done + later);
    var s := Run(c, EMPTY, done + later);
    assert GoodEntry(c, s, info.snap, s.catalogue[info.snap]);
  }

  /** A backup that is reported as a duplicate has the content of the snapshot it points to. */
  lemma DuplicateIsSame(c: Codec, actions: seq<Action>, a: Artifact, snap: string)
    requires Laws(c)
    requires var s := Run(c, EMPTY, actions);
             snap in s.catalogue && s.catalogue[snap].root == RootOf(c, a) && snap in s.reg
    ensures var b := Run(c, EMPTY, actions).reg[snap].art;
            SameContent(b, a) || Collides(c, Messages(c, b), Messages(c, a))
  {
    var s := Run(c, EMPTY, actions);
    Reachable(c, actions);
    assert GoodEntry(c, s, snap, s.catalogue[snap]);
    SameRootSameContent(c, s.reg[snap].art, a);
  }

  /** A backup of bytes that a catalogued snapshot of its source already holds, cut into the same chunks, finds that
      snapshot's root in the catalogue, and so by the promise of Create it is reported as a duplicate. */
  lemma SameIsDuplicate(c: Codec, actions: seq<Action>, a: Artifact, snap: string)
    requires Laws(c)
    requires var s := Run(c, EMPTY, actions);
             snap in s.catalogue && snap in s.reg && s.reg[snap].art.(engine := a.engine) == a
    ensures var s := Run(c, EMPTY, actions); HasRoot(s.catalogue, s.reg[snap].source, RootOf(c, a))
  {
    var s := Run(c, EMPTY, actions);
    Reachable(c, actions);
    assert GoodEntry(c, s, snap, s.catalogue[snap]);
    EngineIsNotHashed(c, a, s.reg[snap].art);
  }

  lemma EngineIsNotHashed(c: Codec, a: Artifact, b: Artifact)
    requires Laws(c) && b.(engine := a.engine) == a
    ensures RootOf(c, a) == RootOf(c, b)
  {
    assert IdsOf(c, a) == IdsOf(c, b) && SizesOf(a) == SizesOf(b);
  }

  /** What a backup reports as a duplicate of, by the promise of Create: in every reachable state it is a snapshot of
      the same source with the same content, or two hashed messages collide. */
  lemma ReportedDuplicate(c: Codec, actions: seq<Action>, a: Artifact, source: string, snap: string)
    requires Laws(c) && Backup.SameRoot(Run(c, EMPTY, actions).catalogue, snap, source, RootOf(c, a))
    ensures var s := Run(c, EMPTY, actions);
            && snap in s.reg && s.reg[snap].source == source
            && (SameContent(s.reg[snap].art, a) || Collides(c, Messages(c, s.reg[snap].art), Messages(c, a)))
  {
    var s := Run(c, EMPTY, actions);
    Reachable(c, actions);
    var e :| e in s.catalogue.Values && e.snap == snap && e.source == source && e.root == RootOf(c, a);
    var n :| n in s.catalogue && s.catalogue[n] == e;
    assert GoodEntry(c, s, n, e);
    DuplicateIsSame(c, actions, a, n);
  }

  // ----- stores that were damaged

  /** The messages a restore hashes for the chunk objects that open. */
  ghost function OpenedMessages(c: Codec, st: Store, man: Manifest): set<string>
    requires Laws(c)
  {
    set j | 0 <= j < |man.chunks| && man.chunks[j].objectKey in st
            && OpenChunk(c, man.chunks[j].chunkId, st[man.chunks[j].objectKey]).Some?
      :: ChunkMessage(man.pageSize, OpenChunk(c, man.chunks[j].chunkId, st[man.chunks[j].objectKey]).value)
  }

  /** A chunk that is accepted is the snapshot's chunk, or its message collides with one the backup hashed. */
  lemma AcceptedChunk(c: Codec, st: Store, info: Info, j: nat)
    requires Laws(c) && j < |ArtifactChunks(info.art)| && |c.dedupKey| > 0 && info.art.pageSize > 0
    requires ReadChunk(c, st, ManifestOf(c, info), ChunkInfoAt(c, info.source, info.art, j)).Ok?
    ensures ReadChunk(c, st, ManifestOf(c, info), ChunkInfoAt(c, info.source, info.art, j))
         == Ok(ArtifactChunks(info.art)[j].data)
         || Collides(c, OpenedMessages(c, st, ManifestOf(c, info)), Messages(c, info.art))
  {
    var man, ch, data := ManifestOf(c, info), ChunkInfoAt(c, info.source, info.art, j),
                         ArtifactChunks(info.art)[j].data;
    var plain := OpenChunk(c, ch.chunkId, st[ch.objectKey]).value;
    var x, y := ChunkMessage(man.pageSize, plain), ChunkMessage(info.art.pageSize, data);
    assert man.chunks[j] == ch;
    assert x in OpenedMessages(c, st, man) && y in Messages(c, info.art);
    MacHexEqual(c.hash, c.dedupKey, x, y);
    if x == y {
      ChunkMessageInjective(man.pageSize, plain, info.art.pageSize, data);
    }
  }

  /** The completion record holds the digest of the manifest the backup published, or the store still holds it. */
  ghost predicate Vouched(c: Codec, st: Store, info: Info)
    requires Laws(c)
  {
    var manifest, complete := ManifestKey(info.source, info.snap), CompleteKey(info.source, info.snap);
    || (complete in st && GoodComplete(c, info, complete, st[complete]))
    || (manifest in st && st[manifest] == Payload(c, info))
  }

  /** A manifest that is accepted beside a published completion record is the published one, or the two collide. */
  lemma VouchedManifest(c: Codec, st: Store, info: Info)
    requires Laws(c) && Vouched(c, st, info) && RestoreOutcome(c, st, EntryOf(c, info)).Ok?
    ensures ManifestKey(info.source, info.snap) in st
    ensures var payload := st[ManifestKey(info.source, info.snap)];
            payload == Payload(c, info) || ShaCollision(c.hash, payload, Payload(c, info))
  {
    AcceptedIsGenuine(c, st, EntryOf(c, info));
    var payload := st[ManifestKey(info.source, info.snap)];
    if payload != Payload(c, info) {
      HexInjective(c.hash.sha(payload), c.hash.sha(Payload(c, info)));
    }
  }

  /** Whatever happened to the store, the manifest included, as long as it still holds the completion record that the
      backup published, or the manifest: with a dedup key and a page size a restore fails or yields exactly the bytes
      backed up, or the manifest object collides with the published one, or the message of an object it opened
      collides with one the backup hashed. */
  lemma DamageIsNoticed(c: Codec, st: Store, info: Info)
    requires Laws(c) && |c.dedupKey| > 0 && info.art.pageSize > 0
    requires Vouched(c, st, info)
    requires RestoreOutcome(c, st, EntryOf(c, info)).Ok?
    ensures ManifestKey(info.source, info.snap) in st
    ensures RestoreOutcome(c, st, EntryOf(c, info)) == Ok(info.art.data)
         || ShaCollision(c.hash, st[ManifestKey(info.source, info.snap)], Payload(c, info))
         || Collides(c, OpenedMessages(c, st, ManifestOf(c, info)), Messages(c, info.art))
  {
    VouchedManifest(c, st, info);
    if st[ManifestKey(info.source, info.snap)] == Payload(c, info) {
      ChunkDamage(c, st, info);
    }
  }

  /** The same, with the published manifest in the store. */
  lemma ChunkDamage(c: Codec, st: Store, info: Info)
    requires Laws(c) && |c.dedupKey| > 0 && info.art.pageSize > 0
    requires ManifestKey(info.source, info.snap) in st && st[ManifestKey(info.source, info.snap)] == Payload(c, info)
    requires RestoreOutcome(c, st, EntryOf(c, info)).Ok?
    ensures RestoreOutcome(c, st, EntryOf(c, info)) == Ok(info.art.data)
         || Collides(c, OpenedMessages(c, st, ManifestOf(c, info)), Messages(c, info.art))
  {
    var man := ManifestOf(c, info);
    PublishedManifest(c, st, info);
    PublishedChunks(c, st, info);
    if !Collides(c, OpenedMessages(c, st, man), Messages(c, info.art)) {
      forall j | 0 <= j < |ArtifactChunks(info.art)|
        ensures ReadChunk(c, st, man, man.chunks[j]) == Ok(ArtifactChunks(info.art)[j].data)
      {
        assert ReadChunk(c, st, man, man.chunks[j]).Ok?;
        AcceptedChunk(c, st, info, j);
      }
      AllWritten(c, st, info);
    }
  }

  lemma AllWritten(c: Codec, st: Store, info: Info)
    requires Laws(c) && info.art.pageSize > 0
    requires var man, chunks := ManifestOf(c, info), ArtifactChunks(info.art);
             forall j :: 0 <= j < |chunks| ==> ReadChunk(c, st, man, man.chunks[j]) == Ok(chunks[j].data)
    ensures var man := ManifestOf(c, info); WriteFrom(c, st, man, InitialFile(man), 0) == Ok(info.art.data)
  {
    var man, chunks := ManifestOf(c, info), ArtifactChunks(info.art);
    WriteFromChunks(c, st, man, chunks, InitialFile(man), 0);
    assert chunks[0..] == chunks && InitialFile(man) == Zeros(|info.art.data|);
    WrittenContent(info.art);
  }

  lemma PublishedChunks(c: Codec, st: Store, info: Info)
    requires Laws(c) && RestoreOutcome(c, st, EntryOf(c, info)).Ok?
    requires ManifestKey(info.source, info.snap) in st && st[ManifestKey(info.source, info.snap)] == Payload(c, info)
    ensures var man := ManifestOf(c, info);
            forall j :: 0 <= j < |man.chunks| ==> ReadChunk(c, st, man, man.chunks[j]).Ok?
  {
    var man := ManifestOf(c, info);
    AcceptedIsGenuine(c, st, EntryOf(c, info));
    forall j | 0 <= j < |man.chunks| ensures ReadChunk(c, st, man, man.chunks[j]).Ok? {
      assert GenuineChunk(c, st, man, man.chunks[j]);
    }
  }

  lemma PublishedManifest(c: Codec, st: Store, info: Info)
    requires Laws(c) && RestoreOutcome(c, st, EntryOf(c, info)).Ok?
    requires ManifestKey(info.source, info.snap) in st && st[ManifestKey(info.source, info.snap)] == Payload(c, info)
    ensures ReadManifest(c, st, EntryOf(c, info)) == Ok(ManifestOf(c, info))
  {
  }
}
