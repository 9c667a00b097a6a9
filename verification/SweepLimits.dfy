/** What garbage collection reaches, given the keys that backups write: nothing of a source whose keys lie outside
    the prefix it lists, and committed snapshots of every other source. */
module SweepLimits {
  import opened Wrappers
  import opened Text
  import opened ObjectKeys
  import opened Snapshots
  import opened Repository
  import opened CommitOrder
  import opened RoundTrip
  import opened Backup

  // ----- what a plan holds

  /** A source whose manifests lie under the listed prefix is none whose chunks do. */
  lemma ListedSourceIsGood(source: string, snap: string)
    requires HasPrefix(ManifestKey(source, snap), SNAPSHOTS_PREFIX)
    ensures GoodSource(source)
  {
    var k := ManifestKey(source, snap);
    assert k[0] == (source + "/")[0];
    assert k[..10] == SNAPSHOTS_PREFIX && k[0] == 's';
  }

  /** In every reachable state the listed manifests name no key under the listed chunk prefix. */
  lemma MarksNothing(c: Codec, s: System, i: nat, m: string, k: string)
    requires Laws(c) && Inv(c, s) && m in StoreAt(s, i) && ListedManifest(m)
    requires c.decodeManifest(StoreAt(s, i)[m]).Some? && Names(c.decodeManifest(StoreAt(s, i)[m]).value, k)
    ensures !HasPrefix(k, CHUNKS_PREFIX)
  {
    var st := StoreAt(s, i);
    assert GoodStore(c, s.reg, st);
    assert GoodObject(c, s.reg, m, st[m]);
    ListedKind(m);
    var info := s.reg[KindOf(m).snap];
    ListedSourceIsGood(info.source, info.snap);
    assert c.decodeManifest(st[m]) == Some(ManifestOf(c, info));
    var j :| 0 <= j < |ManifestOf(c, info).chunks| && ManifestOf(c, info).chunks[j].objectKey == k;
    SweptChunkKeys(info.source, c.keyVersion, ChunkIdAt(c, info.art, j));
  }

  lemma ListedKind(m: string)
    requires HasSuffix(m, "/manifest.json")
    ensures KindOf(m).ManifestObject?
  {
    var d := m[..|m| - 14];
    assert m == d + ['/'] + "manifest.json";
    LastOf(d, "manifest.json", '/');
  }

  /** In every reachable state, for any sources and whichever manifests cannot be read, a plan holds exactly the objects
      under the listed chunk prefix: the manifests protect none of them. */
  lemma PlanIsEverythingListed(c: Codec, actions: seq<Action>, i: nat, unreadable: set<string>, keys: seq<string>,
                               k: string)
    requires Laws(c) && SweepPlan(c, StoreAt(Run(c, EMPTY, actions), i), unreadable, keys)
    ensures k in keys <==> k in StoreAt(Run(c, EMPTY, actions), i) && HasPrefix(k, CHUNKS_PREFIX)
  {
    var s := Run(c, EMPTY, actions);
    var st := StoreAt(s, i);
    Reachable(c, actions);
    if k in st && HasPrefix(k, CHUNKS_PREFIX) {
      forall m | m in st && ListedManifest(m) && c.decodeManifest(st[m]).Some?
        ensures !Names(c.decodeManifest(st[m]).value, k)
      {
        if Names(c.decodeManifest(st[m]).value, k) {
          MarksNothing(c, s, i, m, k);
        }
      }
      assert Orphan(c, st, unreadable, k);
    }
  }

  // ----- sources it does not reach

  /** Every stored key belongs to the source of some backup that began. */
  lemma StoredKey(c: Codec, s: System, i: nat, k: string)
    requires Laws(c) && Inv(c, s) && k in StoreAt(s, i)
    ensures exists n :: n in s.reg && (GoodSource(s.reg[n].source) ==> !HasPrefix(k, CHUNKS_PREFIX))
  {
    var st := StoreAt(s, i);
    assert GoodStore(c, s.reg, st);
    assert GoodObject(c, s.reg, k, st[k]);
    match KindOf(k)
    case ChunkObject(id) =>
      var n, j: nat :| n in s.reg && j < |ArtifactChunks(s.reg[n].art)| && ChunkIdAt(c, s.reg[n].art, j) == id
                    && k == ChunkKey(s.reg[n].source, c.keyVersion, id);
      SweptChunkKeys(s.reg[n].source, c.keyVersion, id);
    case ManifestObject(n) => if GoodSource(s.reg[n].source) { UnsweptSnapshotKeys(s.reg[n].source, n); }
    case SigObject(n) => if GoodSource(s.reg[n].source) { UnsweptSnapshotKeys(s.reg[n].source, n); }
    case CompleteObject(n) => if GoodSource(s.reg[n].source) { UnsweptSnapshotKeys(s.reg[n].source, n); }
  }

  /** Where all backups belong to good sources, a plan never has anything to delete, whatever was orphaned. */
  lemma SweepReclaimsNothing(c: Codec, actions: seq<Action>, i: nat, unreadable: set<string>, keys: seq<string>)
    requires Laws(c)
    requires var s := Run(c, EMPTY, actions);
             (forall n :: n in s.reg ==> GoodSource(s.reg[n].source)) && SweepPlan(c, StoreAt(s, i), unreadable, keys)
    ensures keys == []
  {
    var s := Run(c, EMPTY, actions);
    Reachable(c, actions);
    if keys != [] {
      PlanIsEverythingListed(c, actions, i, unreadable, keys, keys[0]);
      StoredKey(c, s, i, keys[0]);
      assert false;
    }
  }

  // ----- sources it does reach

  /** The completion record of the snapshot stands above the signed manifest and every chunk object it names. */
  ghost predicate Standing(c: Codec, st: Store, source: string, snap: string) {
    && ManifestKey(source, snap) in st && SigKey(source, snap) in st
    && c.decodeManifest(st[ManifestKey(source, snap)]).Some?
    && var chunks := c.decodeManifest(st[ManifestKey(source, snap)]).value.chunks;
       forall j :: 0 <= j < |chunks| ==> chunks[j].objectKey in st
  }

  /** In every reachable state, with garbage collection running at will, completion records of this source stand. */
  ghost predicate SafeFromSweeps(c: Codec, source: string)
    requires Laws(c)
  {
    forall actions, i, snap :: Free(snap, '/') && CompleteKey(source, snap) in StoreAt(Run(c, EMPTY, actions), i)
                               ==> Standing(c, StoreAt(Run(c, EMPTY, actions), i), source, snap)
  }

  const SMALL: Artifact := Artifact("x", 1, 1, "postgres")

  lemma SmallHasOneChunk()
    ensures |ArtifactChunks(SMALL)| == 1
  {
  }

  /** Writing the next object of a backup whose store lacks it. */
  lemma WriteNext(c: Codec, s: System, pid: nat, info: Info, slot: nat, objects: Store) returns (trace: seq<Action>)
    requires Laws(c) && At(c, s, pid, info, slot, objects) && slot < |KeysOf(c, info)|
    requires slot < |ArtifactChunks(info.art)| ==> KeysOf(c, info)[slot] !in objects
    ensures At(c, Run(c, s, trace), pid, info, slot + 1,
               PutInto(objects, KeysOf(c, info)[slot], BodyAt(c, info, slot, "", ""), true, true))
    ensures Run(c, s, trace).sweeps == s.sweeps
  {
    trace := [CheckSlot(pid, false, "", ""), PutObject(pid, true, true)];
    var body := BodyAt(c, info, slot, "", "");
    RunTwo(c, s, CheckSlot(pid, false, "", ""), PutObject(pid, true, true));
    CheckWrites(c, s, pid, info, slot, objects, "", "");
    PutWrites(c, s, pid, s.procs[pid], body, true, true);
    WrittenAt(c, s, pid, info, slot, objects, body, true, true);
  }

  /** The state after the backup `info`, running alone, wrote its first `slot` objects into an empty store. */
  ghost predicate WroteFirst(c: Codec, s: System, info: Info, slot: nat, objects: Store)
    requires Laws(c)
  {
    && slot <= |KeysOf(c, info)|
    && At(c, s, 0, info, slot, objects)
    && objects.Keys == (set j | 0 <= j < slot :: KeysOf(c, info)[j])
    && s.sweeps == map[]
  }

  lemma WroteNext(c: Codec, s: System, info: Info, slot: nat, objects: Store)
    returns (trace: seq<Action>, objects': Store)
    requires Laws(c) && WroteFirst(c, s, info, slot, objects) && slot < |KeysOf(c, info)|
    requires |ArtifactChunks(info.art)| == 1
    ensures WroteFirst(c, Run(c, s, trace), info, slot + 1, objects')
  {
    trace := WriteNext(c, s, 0, info, slot, objects);
    objects' := PutInto(objects, KeysOf(c, info)[slot], BodyAt(c, info, slot, "", ""), true, true);
  }

  /** An undisturbed backup of one small chunk into an empty store. */
  lemma SmallBackup(c: Codec, info: Info) returns (trace: seq<Action>, objects: Store)
    requires Laws(c) && Free(info.snap, '/') && info.home == 0 && info.art == SMALL
    ensures WroteFirst(c, Run(c, EMPTY, trace), info, 4, objects) && |KeysOf(c, info)| == 4
  {
    SmallHasOneChunk();
    var begin := BeginBackup(0, info, true);
    RunTwo(c, EMPTY, begin, begin);
    BeginStep(c, EMPTY, 0, info, true);
    trace, objects := [begin], map[];
    var slot := 0;
    while slot < 4
      invariant 0 <= slot <= 4 && WroteFirst(c, Run(c, EMPTY, trace), info, slot, objects)
    {
      var t;
      t, objects := WroteNext(c, Run(c, EMPTY, trace), info, slot, objects);
      RunConcat(c, EMPTY, trace, t);
      trace := trace + t;
      slot := slot + 1;
    }
  }

  ghost function Listed(keys: set<string>): (r: seq<string>)
    ensures (forall k :: k in r <==> k in keys) && forall i, j :: 0 <= i < j < |r| ==> r[i] != r[j]
  {
    if keys == {} then []
    else
      var k :| k in keys;
      [k] + Listed(keys - {k})
  }

  /** No key of a bad source is a listed manifest. */
  lemma NothingListed(c: Codec, info: Info, i: nat)
    requires Laws(c) && !GoodSource(info.source) && i < |KeysOf(c, info)|
    ensures !ListedManifest(KeysOf(c, info)[i])
  {
    var k := KeysOf(c, info)[i];
    if i < |ArtifactChunks(info.art)| {
      SweptChunkKeys(info.source, c.keyVersion, ChunkIdAt(c, info.art, i));
      assert k[..7] == CHUNKS_PREFIX && k[0] == 'c';
    } else if info.source == "" {
      assert k[0] == '/';
    } else {
      assert k[0] == info.source[0] == 'c';
    }
  }

  /** Deleting one planned key. */
  lemma DeleteOne(c: Codec, s: System, keys: seq<string>) returns (trace: seq<Action>)
    requires Laws(c) && s.sweeps == map[] && SweepPlan(c, StoreAt(s, 0), {}, keys) && keys != []
    ensures StoreAt(Run(c, s, trace), 0) == StoreAt(s, 0) - {keys[0]}
  {
    trace := [BeginSweep(0, 0, keys, {}), SweepNext(0, true, true)];
    RunTwo(c, s, BeginSweep(0, 0, keys, {}), SweepNext(0, true, true));
    var s1 := s.(sweeps := s.sweeps[0 := Sweep(0, keys, 0)], swept := true);
    assert Apply(c, s, BeginSweep(0, 0, keys, {})) == s1;
    assert StoreAt(s1, 0) == StoreAt(s, 0);
  }

  /** With no manifest listed, everything under the prefix is planned; the order is any. */
  lemma PlanOfUnlisted(c: Codec, st: Store, first: string)
    requires first in st && HasPrefix(first, CHUNKS_PREFIX) && forall k :: k in st ==> !ListedManifest(k)
    ensures SweepPlan(c, st, {}, [first] + Listed((set k | k in st && HasPrefix(k, CHUNKS_PREFIX)) - {first}))
  {
    var rest := Listed((set k | k in st && HasPrefix(k, CHUNKS_PREFIX)) - {first});
    var keys := [first] + rest;
    forall k | k in st ensures !Referenced(c, st, {}, k) {
    }
    assert forall k :: k in keys <==> k == first || k in rest;
  }

  /** For every other source: back up one chunk, let garbage collection delete its first planned key, and a completion
      record stands above a missing chunk. */
  lemma BadSourceLosesChunk(c: Codec, source: string)
    requires Laws(c) && !GoodSource(source)
    ensures !SafeFromSweeps(c, source)
  {
    var info := Info(0, source, "snap", SMALL, "");
    var trace, st := SmallBackup(c, info);
    var s, all := Run(c, EMPTY, trace), KeysOf(c, info);
    SmallHasOneChunk();
    SweptChunkKeys(source, c.keyVersion, ChunkIdAt(c, SMALL, 0));
    forall k | k in st ensures !ListedManifest(k) {
      var i :| 0 <= i < |all| && all[i] == k;
      NothingListed(c, info, i);
    }
    assert all[0] in st;
    PlanOfUnlisted(c, st, all[0]);
    var keys := [all[0]] + Listed((set k | k in st && HasPrefix(k, CHUNKS_PREFIX)) - {all[0]});
    var t := DeleteOne(c, s, keys);
    Reachable(c, trace);
    RunConcat(c, EMPTY, trace, t);
    LostChunk(c, s, info, st, trace + t);
  }

  lemma LostChunk(c: Codec, s: System, info: Info, st: Store, actions: seq<Action>)
    requires Laws(c) && Inv(c, s) && info == Info(0, info.source, "snap", SMALL, "")
    requires WroteFirst(c, s, info, 4, st) && |KeysOf(c, info)| == 4
    requires StoreAt(Run(c, EMPTY, actions), 0) == st - {KeysOf(c, info)[0]}
    ensures !SafeFromSweeps(c, info.source)
  {
    assert HasFirst(st, KeysOf(c, info), 4);
    WholeObjects(c, s, 0, info);
    SnapshotKeysStay(c, info, st);
    NotStanding(c, info, st - {KeysOf(c, info)[0]});
    assert Free("snap", '/');
    assert CompleteKey(info.source, "snap") in StoreAt(Run(c, EMPTY, actions), 0);
  }

  lemma SnapshotKeysStay(c: Codec, info: Info, st: Store)
    requires Laws(c) && info.art == SMALL && Free(info.snap, '/')
    requires ManifestKey(info.source, info.snap) in st && CompleteKey(info.source, info.snap) in st
    ensures ManifestKey(info.source, info.snap) in st - {KeysOf(c, info)[0]}
    ensures CompleteKey(info.source, info.snap) in st - {KeysOf(c, info)[0]}
  {
    SmallHasOneChunk();
    KeyKinds(c, info, 0);
    KindOfSnapshotKeys(info.source, info.snap);
  }

  lemma NotStanding(c: Codec, info: Info, st: Store)
    requires Laws(c) && info.art == SMALL && KeysOf(c, info)[0] !in st
    requires ManifestKey(info.source, info.snap) in st && st[ManifestKey(info.source, info.snap)] == Payload(c, info)
    ensures !Standing(c, st, info.source, info.snap)
  {
    SmallHasOneChunk();
    assert c.decodeManifest(Payload(c, info)) == Some(ManifestOf(c, info));
    assert ManifestOf(c, info).chunks[0].objectKey == KeysOf(c, info)[0];
  }

  /** Completion records survive garbage collection exactly for the sources that are not empty, not `chunks` and do not
      start with `chunks/`. */
  lemma SafeExactly(c: Codec, source: string)
    requires Laws(c)
    ensures SafeFromSweeps(c, source) <==> GoodSource(source)
  {
    if GoodSource(source) {
      forall actions, i, snap | Free(snap, '/') && CompleteKey(source, snap) in StoreAt(Run(c, EMPTY, actions), i)
        ensures Standing(c, StoreAt(Run(c, EMPTY, actions), i), source, snap)
      {
        CompletionIsSafe(c, actions, i, source, snap);
      }
    } else {
      BadSourceLosesChunk(c, source);
    }
  }
}
