/** Plan and Run of garbagecollection/service.go. */
module GarbageCollection {
  import opened Wrappers
  import opened ObjectKeys
  import opened Snapshots
  import opened Repository
  import opened Storage
  import opened Backup

  datatype Listed = Listed(key: string, size: nat)

  datatype Plan = Plan(deleteKeys: seq<string>, reclaimableBytes: nat, blocked: seq<string>, scannedObjects: nat,
                       referencedChunks: nat)

  /** A way to list the objects under a prefix in pages: every object is on some page, with its size. */
  ghost predicate Listing(st: Store, prefix: string, pages: seq<seq<Listed>>) {
    && (forall i, j :: 0 <= i < |pages| && 0 <= j < |pages[i]| ==>
          var o := pages[i][j]; o.key in st && HasPrefix(o.key, prefix) && o.size == |st[o.key]|)
    && (forall k :: k in st && HasPrefix(k, prefix) ==> OnPages(pages, |pages|, k))
  }

  ghost predicate OnPage(page: seq<Listed>, n: nat, k: string)
    requires n <= |page|
  {
    exists j :: 0 <= j < n && page[j].key == k
  }

  ghost predicate OnPages(pages: seq<seq<Listed>>, n: nat, k: string)
    requires n <= |pages|
  {
    exists i :: 0 <= i < n && OnPage(pages[i], |pages[i]|, k)
  }

  lemma OnPagesNext(pages: seq<seq<Listed>>, n: nat, k: string)
    requires n < |pages|
    ensures OnPages(pages, n + 1, k) <==> OnPages(pages, n, k) || OnPage(pages[n], |pages[n]|, k)
  {
  }

  /** The number of objects on the first n pages. */
  function ObjectsOn(pages: seq<seq<Listed>>, n: nat): nat
    requires n <= |pages|
  {
    if n == 0 then 0 else ObjectsOn(pages, n - 1) + |pages[n - 1]|
  }

  /** Step 1: the sizes of the chunk objects, page by page. */
  method CollectChunks(st: Store, pages: seq<seq<Listed>>) returns (chunkKeys: map<string, nat>, scanned: nat)
    requires Listing(st, CHUNKS_PREFIX, pages)
    ensures forall k :: k in chunkKeys <==> k in st && HasPrefix(k, CHUNKS_PREFIX)
    ensures forall k :: k in chunkKeys ==> chunkKeys[k] == |st[k]|
    ensures scanned == ObjectsOn(pages, |pages|)
  {
    chunkKeys, scanned := map[], 0;
    for i := 0 to |pages|
      invariant scanned == ObjectsOn(pages, i)
      invariant forall k :: k in chunkKeys ==> k in st && HasPrefix(k, CHUNKS_PREFIX) && chunkKeys[k] == |st[k]|
      invariant forall k :: OnPages(pages, i, k) ==> k in chunkKeys
    {
      for j := 0 to |pages[i]|
        invariant scanned == ObjectsOn(pages, i) + j
        invariant forall k :: k in chunkKeys ==> k in st && HasPrefix(k, CHUNKS_PREFIX) && chunkKeys[k] == |st[k]|
        invariant forall k :: OnPages(pages, i, k) ==> k in chunkKeys
        invariant forall k :: OnPage(pages[i], j, k) ==> k in chunkKeys
      {
        var obj := pages[i][j];
        chunkKeys := chunkKeys[obj.key := obj.size];
        scanned := scanned + 1;
      }
    }
  }

  /** The manifest under a listed key, if it can be read and decoded. */
  function Readable(c: Codec, st: Store, unreadable: set<string>, m: string): Option<Manifest>
    requires m in st
  {
    if m in unreadable then None else c.decodeManifest(st[m])
  }

  predicate Blocks(c: Codec, st: Store, unreadable: set<string>, m: string) {
    m in st && ListedManifest(m) && Readable(c, st, unreadable, m).None?
  }

  /** Some readable manifest at this key names the chunk. */
  predicate NamedBy(c: Codec, st: Store, unreadable: set<string>, m: string, k: string) {
    m in st && ListedManifest(m) && Readable(c, st, unreadable, m).Some?
    && Names(Readable(c, st, unreadable, m).value, k)
  }

  /** The number of chunks a listed object references, if it is a readable manifest. */
  function References(c: Codec, st: Store, unreadable: set<string>, m: string): nat
    requires m in st
  {
    if ListedManifest(m) && Readable(c, st, unreadable, m).Some? then |Readable(c, st, unreadable, m).value.chunks|
    else 0
  }

  /** The keys one listed object adds to the referenced set, and whether it is blocked. */
  method ScanManifest(c: Codec, st: Store, unreadable: set<string>, m: string)
    returns (keys: set<string>, blocked: bool, count: nat)
    requires m in st && HasPrefix(m, SNAPSHOTS_PREFIX)
    ensures forall k :: k in keys <==> NamedBy(c, st, unreadable, m, k)
    ensures blocked == Blocks(c, st, unreadable, m)
    ensures count == References(c, st, unreadable, m)
  {
    keys, blocked, count := {}, false, 0;
    if !HasSuffix(m, "/manifest.json") {
      return;
    }
    var man := Readable(c, st, unreadable, m);
    if man.None? {
      blocked := true;
      return;
    }
    for i := 0 to |man.value.chunks|
      invariant count == i
      invariant forall k :: k in keys <==> exists j :: 0 <= j < i && man.value.chunks[j].objectKey == k
    {
      keys := keys + {man.value.chunks[i].objectKey};
      count := count + 1;
    }
  }

  /** One of the first n objects of the page is a manifest that names the chunk. */
  ghost predicate PageNames(c: Codec, st: Store, unreadable: set<string>, page: seq<Listed>, n: nat, k: string)
    requires n <= |page|
  {
    exists j :: 0 <= j < n && NamedBy(c, st, unreadable, page[j].key, k)
  }

  ghost predicate PagesName(c: Codec, st: Store, unreadable: set<string>, pages: seq<seq<Listed>>, n: nat, k: string)
    requires n <= |pages|
  {
    exists i :: 0 <= i < n && PageNames(c, st, unreadable, pages[i], |pages[i]|, k)
  }

  predicate AllStored(st: Store, page: seq<Listed>) {
    forall j :: 0 <= j < |page| ==> page[j].key in st
  }

  /** The references of the first n objects of a page. */
  function PageReferences(c: Codec, st: Store, unreadable: set<string>, page: seq<Listed>, n: nat): nat
    requires AllStored(st, page) && n <= |page|
  {
    if n == 0 then 0
    else PageReferences(c, st, unreadable, page, n - 1) + References(c, st, unreadable, page[n - 1].key)
  }

  /** The references of the first n pages. */
  function PagesReferences(c: Codec, st: Store, unreadable: set<string>, pages: seq<seq<Listed>>, n: nat): nat
    requires (forall i :: 0 <= i < |pages| ==> AllStored(st, pages[i])) && n <= |pages|
  {
    if n == 0 then 0
    else PagesReferences(c, st, unreadable, pages, n - 1)
         + PageReferences(c, st, unreadable, pages[n - 1], |pages[n - 1]|)
  }

  lemma PageNext(c: Codec, st: Store, unreadable: set<string>, page: seq<Listed>, j: nat)
    requires j < |page|
    ensures forall k :: PageNames(c, st, unreadable, page, j + 1, k)
                   <==> PageNames(c, st, unreadable, page, j, k) || NamedBy(c, st, unreadable, page[j].key, k)
    ensures forall m :: OnPage(page, j + 1, m) <==> OnPage(page, j, m) || m == page[j].key
  {
  }

  /** The inner loop of step 2. */
  method ScanPage(c: Codec, st: Store, unreadable: set<string>, page: seq<Listed>)
    returns (keys: set<string>, blocked: seq<string>, count: nat)
    requires forall j :: 0 <= j < |page| ==> page[j].key in st && HasPrefix(page[j].key, SNAPSHOTS_PREFIX)
    ensures forall k :: k in keys <==> PageNames(c, st, unreadable, page, |page|, k)
    ensures forall m :: m in blocked <==> OnPage(page, |page|, m) && Blocks(c, st, unreadable, m)
    ensures count == PageReferences(c, st, unreadable, page, |page|)
  {
    keys, blocked, count := {}, [], 0;
    for j := 0 to |page|
      invariant count == PageReferences(c, st, unreadable, page, j)
      invariant forall k :: k in keys <==> PageNames(c, st, unreadable, page, j, k)
      invariant forall m :: m in blocked <==> OnPage(page, j, m) && Blocks(c, st, unreadable, m)
    {
      var named, blocks, n := ScanManifest(c, st, unreadable, page[j].key);
      PageNext(c, st, unreadable, page, j);
      keys := keys + named;
      count := count + n;
      if blocks {
        blocked := blocked + [page[j].key];
      }
    }
  }

  lemma PagesNameNext(c: Codec, st: Store, unreadable: set<string>, pages: seq<seq<Listed>>, n: nat, k: string)
    requires n < |pages|
    ensures PagesName(c, st, unreadable, pages, n + 1, k)
            <==> PagesName(c, st, unreadable, pages, n, k) || PageNames(c, st, unreadable, pages[n], |pages[n]|, k)
  {
  }

  lemma EveryReference(c: Codec, st: Store, unreadable: set<string>, pages: seq<seq<Listed>>, k: string)
    requires Listing(st, SNAPSHOTS_PREFIX, pages)
    ensures PagesName(c, st, unreadable, pages, |pages|, k) <==> Referenced(c, st, unreadable, k)
  {
    if Referenced(c, st, unreadable, k) {
      var m :| m in st && ListedManifest(m) && m !in unreadable
               && c.decodeManifest(st[m]).Some? && Names(c.decodeManifest(st[m]).value, k);
      assert NamedBy(c, st, unreadable, m, k) && OnPages(pages, |pages|, m);
    }
  }

  lemma EveryBlocked(c: Codec, st: Store, unreadable: set<string>, pages: seq<seq<Listed>>, m: string)
    requires Listing(st, SNAPSHOTS_PREFIX, pages) && Blocks(c, st, unreadable, m)
    ensures OnPages(pages, |pages|, m)
  {
  }

  /** Step 2: the chunk keys named by the manifests, and the manifests that could not be read. */
  method CollectReferences(c: Codec, st: Store, unreadable: set<string>, pages: seq<seq<Listed>>)
    returns (referenced: set<string>, blocked: seq<string>, count: nat)
    requires Listing(st, SNAPSHOTS_PREFIX, pages)
    ensures forall k :: k in referenced <==> Referenced(c, st, unreadable, k)
    ensures forall m :: m in blocked <==> Blocks(c, st, unreadable, m)
    ensures count == PagesReferences(c, st, unreadable, pages, |pages|)
  {
    referenced, blocked, count := {}, [], 0;
    for i := 0 to |pages|
      invariant count == PagesReferences(c, st, unreadable, pages, i)
      invariant forall k :: k in referenced <==> PagesName(c, st, unreadable, pages, i, k)
      invariant forall m :: m in blocked <==> OnPages(pages, i, m) && Blocks(c, st, unreadable, m)
    {
      var keys, blocks, n := ScanPage(c, st, unreadable, pages[i]);
      forall k ensures PagesName(c, st, unreadable, pages, i + 1, k)
                       <==> PagesName(c, st, unreadable, pages, i, k)
                            || PageNames(c, st, unreadable, pages[i], |pages[i]|, k) {
        PagesNameNext(c, st, unreadable, pages, i, k);
      }
      forall m ensures OnPages(pages, i + 1, m) <==> OnPages(pages, i, m) || OnPage(pages[i], |pages[i]|, m) {
        OnPagesNext(pages, i, m);
      }
      referenced := referenced + keys;
      blocked := blocked + blocks;
      count := count + n;
    }
    forall k ensures PagesName(c, st, unreadable, pages, |pages|, k) <==> Referenced(c, st, unreadable, k) {
      EveryReference(c, st, unreadable, pages, k);
    }
    forall m | Blocks(c, st, unreadable, m) ensures OnPages(pages, |pages|, m) {
      EveryBlocked(c, st, unreadable, pages, m);
    }
  }

  /** The bytes of the objects at the given keys. */
  function TotalSize(st: Store, keys: seq<string>): nat
    requires forall k :: k in keys ==> k in st
  {
    if keys == [] then 0 else TotalSize(st, keys[..|keys| - 1]) + |st[keys[|keys| - 1]]|
  }

  /** Step 3: the chunk keys that nothing references, in whatever order the map is walked. */
  method CollectOrphans(chunkKeys: map<string, nat>, referenced: set<string>, ghost st: Store)
    returns (deleteKeys: seq<string>, bytes: nat)
    requires forall k :: k in chunkKeys ==> k in st && chunkKeys[k] == |st[k]|
    ensures forall k :: k in deleteKeys <==> k in chunkKeys && k !in referenced
    ensures forall i, j :: 0 <= i < j < |deleteKeys| ==> deleteKeys[i] != deleteKeys[j]
    ensures bytes == TotalSize(st, deleteKeys)
  {
    deleteKeys, bytes := [], 0;
    var left := chunkKeys.Keys;
    while left != {}
      invariant left <= chunkKeys.Keys
      invariant forall k :: k in deleteKeys <==> k in chunkKeys && k !in left && k !in referenced
      invariant forall i, j :: 0 <= i < j < |deleteKeys| ==> deleteKeys[i] != deleteKeys[j]
      invariant bytes == TotalSize(st, deleteKeys)
      decreases left
    {
      var key :| key in left;
      left := left - {key};
      if key !in referenced {
        assert (deleteKeys + [key])[..|deleteKeys|] == deleteKeys;
        deleteKeys := deleteKeys + [key];
        bytes := bytes + chunkKeys[key];
      }
    }
  }

  /** Service.Plan over consistent paged listings: it deletes exactly the orphans, once each. */
  method MakePlan(c: Codec, st: Store, unreadable: set<string>, chunkPages: seq<seq<Listed>>,
                  manifestPages: seq<seq<Listed>>)
    returns (plan: Plan)
    requires Listing(st, CHUNKS_PREFIX, chunkPages) && Listing(st, SNAPSHOTS_PREFIX, manifestPages)
    ensures SweepPlan(c, st, unreadable, plan.deleteKeys)
    ensures plan.reclaimableBytes == TotalSize(st, plan.deleteKeys)
    ensures plan.scannedObjects == ObjectsOn(chunkPages, |chunkPages|)
    ensures plan.referencedChunks == PagesReferences(c, st, unreadable, manifestPages, |manifestPages|)
    ensures forall m :: m in plan.blocked <==> Blocks(c, st, unreadable, m)
  {
    var chunkKeys, scanned := CollectChunks(st, chunkPages);
    var referenced, blocked, count := CollectReferences(c, st, unreadable, manifestPages);
    var deleteKeys, bytes := CollectOrphans(chunkKeys, referenced, st);
    plan := Plan(deleteKeys, bytes, blocked, scanned, count);
  }

  /** If no manifest was blocked, every listed manifest keeps all the chunks it had. */
  lemma UnblockedKeepsChunks(c: Codec, st: Store, unreadable: set<string>, keys: seq<string>, m: string, k: string)
    requires SweepPlan(c, st, unreadable, keys)
    requires forall m' :: !Blocks(c, st, unreadable, m')
    requires m in st && ListedManifest(m) && c.decodeManifest(st[m]).Some? && Names(c.decodeManifest(st[m]).value, k)
    ensures k !in keys
  {
    assert !Blocks(c, st, unreadable, m);
  }

  /** In any store, whoever wrote it, a listed chunk is planned for deletion exactly when every manifest that names it
      was unreadable. */
  lemma LostExactly(c: Codec, st: Store, unreadable: set<string>, keys: seq<string>, k: string)
    requires SweepPlan(c, st, unreadable, keys) && k in st && HasPrefix(k, CHUNKS_PREFIX)
    ensures k in keys <==>
            forall m :: m in st && ListedManifest(m) && c.decodeManifest(st[m]).Some?
                        && Names(c.decodeManifest(st[m]).value, k)
                        ==> m in unreadable
  {
    assert k in keys <==> Orphan(c, st, unreadable, k);
  }

  /** The one object is a chunk, and a manifest that names it cannot be read. */
  function NamedChunk(c: Codec): Store {
    map["chunks/a" := "", "snapshots/s/manifest.json" := c.encodeManifest(NAMING)]
  }

  const NAMING: Manifest := Manifest("s", "", "", "", 0, 0, "", [ChunkInfo(0, "a", "chunks/a", 0, 0, 0)], "")

  /** A store in which that happens: the manifest is reported as blocked, and its chunk is planned all the same. */
  lemma BlockedLosesChunk(c: Codec)
    requires Laws(c)
    ensures var st, m := NamedChunk(c), "snapshots/s/manifest.json";
            && Blocks(c, st, {m}, m) && c.decodeManifest(st[m]).Some?
            && Names(c.decodeManifest(st[m]).value, "chunks/a")
            && SweepPlan(c, st, {m}, ["chunks/a"])
  {
    var st, m := NamedChunk(c), "snapshots/s/manifest.json";
    NamedKeys();
    assert c.decodeManifest(st[m]) == Some(NAMING) && NAMING.chunks[0].objectKey == "chunks/a";
  }

  lemma NamedKeys()
    ensures var m := "snapshots/s/manifest.json";
            ListedManifest(m) && HasPrefix("chunks/a", CHUNKS_PREFIX) && m != "chunks/a" && !HasPrefix(m, CHUNKS_PREFIX)
  {
    var m := "snapshots/s/manifest.json";
    assert m == SNAPSHOTS_PREFIX + "s" + "/manifest.json";
    assert m[|m| - 14..] == "/manifest.json";
    assert "chunks/a" == CHUNKS_PREFIX + "a" && "chunks/a"[0] == 'c' && m[0] == 's';
  }

  /** The catalogue, the registry and the processes are the same. */
  ghost predicate SameElse(s: System, s': System) {
    s'.catalogue == s.catalogue && s'.procs == s.procs && s'.reg == s.reg && s'.swept == s.swept
  }

  lemma SweepStep(c: Codec, s: System, pid: nat, w: Sweep, ok: bool, lands: bool)
    requires Laws(c) && pid in s.sweeps && s.sweeps[pid] == w && w.next < |w.keys|
    ensures var s' := Apply(c, s, SweepNext(pid, ok, lands));
            && StoreAt(s', w.store) == (if ok || lands then StoreAt(s, w.store) - {w.keys[w.next]}
                                         else StoreAt(s, w.store))
            && (forall i :: i != w.store ==> StoreAt(s', i) == StoreAt(s, i))
            && (ok ==> pid in s'.sweeps && s'.sweeps[pid] == w.(next := w.next + 1))
            && SameElse(s, s')
  {
  }

  /** Nothing outside the plan is gone or changed, and its first n keys are gone. */
  ghost predicate Shrunk(before: Store, after: Store, keys: seq<string>, n: nat)
    requires n <= |keys|
  {
    && (forall k :: k in after ==> k in before && after[k] == before[k])
    && (forall k :: k in before && k !in keys ==> k in after)
    && (forall j :: 0 <= j < n ==> keys[j] !in after)
  }

  lemma ShrunkNext(before: Store, after: Store, keys: seq<string>, n: nat)
    requires n < |keys| && Shrunk(before, after, keys, n)
    ensures Shrunk(before, after - {keys[n]}, keys, n + 1) && Shrunk(before, after - {keys[n]}, keys, n)
  {
  }

  /** The state machine is at the n-th deletion of the sweep, and only the swept store differs. */
  ghost predicate Sweeping(s: System, s1: System, pid: nat, w: Sweep, n: nat) {
    && pid in s1.sweeps && s1.sweeps[pid] == w.(next := n) && SameElse(s, s1)
    && forall i :: i != w.store ==> StoreAt(s1, i) == StoreAt(s, i)
  }

  lemma SweepingNext(c: Codec, s: System, trace: seq<Action>, pid: nat, w: Sweep, n: nat, ok: bool, lands: bool)
    requires Laws(c) && n < |w.keys| && Sweeping(s, Run(c, s, trace), pid, w, n)
    ensures var s1, s2 := Run(c, s, trace), Run(c, s, trace + [SweepNext(pid, ok, lands)]);
            && StoreAt(s2, w.store) == (if ok || lands then StoreAt(s1, w.store) - {w.keys[n]}
                                         else StoreAt(s1, w.store))
            && (forall i :: i != w.store ==> StoreAt(s2, i) == StoreAt(s, i)) && SameElse(s, s2)
            && (ok ==> Sweeping(s, s2, pid, w, n + 1))
  {
    var s1, step := Run(c, s, trace), SweepNext(pid, ok, lands);
    SweepStep(c, s1, pid, w.(next := n), ok, lands);
    RunTwo(c, s1, step, step);
    RunConcat(c, s, trace, [step]);
  }

  /** Service.Run: deletes the planned keys one by one and stops at the first failure. It is a run of the
      state machine's sweep, touches no key outside the plan, and on success all planned keys are gone. */
  method RunPlan(c: Codec, store: Bucket, plan: Plan, expired: bool, ghost s: System, ghost pid: nat, ghost w: Sweep)
    returns (ok: bool, ghost trace: seq<Action>)
    requires Laws(c) && pid in s.sweeps && s.sweeps[pid] == w && w.next == 0 && w.keys == plan.deleteKeys
    requires StoreAt(s, w.store) == store.objects
    modifies store
    ensures expired ==> !ok && store.objects == old(store.objects)
    ensures Shrunk(old(store.objects), store.objects, plan.deleteKeys, if ok then |plan.deleteKeys| else 0)
    ensures StoreAt(Run(c, s, trace), w.store) == store.objects
    ensures forall i :: i != w.store ==> StoreAt(Run(c, s, trace), i) == StoreAt(s, i)
    ensures SameElse(s, Run(c, s, trace)) && (ok ==> Sweeping(s, Run(c, s, trace), pid, w, |plan.deleteKeys|))
    ensures store.failures == old(store.failures) + if ok || expired then 0 else 1
  {
    ok, trace := !expired, [];
    if expired {
      return;
    }
    for i := 0 to |plan.deleteKeys|
      invariant ok && Sweeping(s, Run(c, s, trace), pid, w, i)
      invariant StoreAt(Run(c, s, trace), w.store) == store.objects
      invariant Shrunk(old(store.objects), store.objects, plan.deleteKeys, i)
      invariant store.failures == old(store.failures)
    {
      ShrunkNext(old(store.objects), store.objects, plan.deleteKeys, i);
      ghost var lands;
      ok, lands := store.Delete(plan.deleteKeys[i]);
      SweepingNext(c, s, trace, pid, w, i, ok, lands);
      trace := trace + [SweepNext(pid, ok, lands)];
      if !ok {
        return;
      }
    }
  }
}
