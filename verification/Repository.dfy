/** The repository as a state machine: any number of backups, replications and garbage
    collections over any number of object stores, interleaved at every store operation and
    each stopped at any point. */
module Repository {
  import opened Text
  import opened ObjectKeys
  import opened Snapshots

  type Store = map<string, string>

  /** A catalogued snapshot, with the fields that restore and replication read. */
  datatype Entry = Entry(snap: string, source: string, root: string, manifestKey: string, completionKey: string,
                         committed: bool)

  datatype Origin = FromArtifact | FromStore(from: nat)
  datatype Stage = Check | Fetch | Write(body: string)

  /** A running backup or replication: it brings the objects `keys` to the store `to` one after
      the other, the first `chunkCount` of them chunks that it skips when already there. */
  datatype Proc = Proc(origin: Origin, to: nat, snap: string, keys: seq<string>, chunkCount: nat, slot: nat,
                       stage: Stage)

  /** A running garbage collection with its plan. */
  datatype Sweep = Sweep(store: nat, keys: seq<string>, next: nat)

  /** `reg` remembers every backup that began; `swept` whether any garbage collection did. */
  datatype System = System(stores: map<nat, Store>, catalogue: map<string, Entry>, procs: map<nat, Proc>,
                           sweeps: map<nat, Sweep>, reg: map<string, Info>, swept: bool)

  datatype Action =
    | BeginBackup(pid: nat, info: Info, lookupFails: bool)
    | BeginCopy(pid: nat, from: nat, to: nat, snap: string)
    | CheckSlot(pid: nat, headFails: bool, nonce: string, now: string)
    | FetchObject(pid: nat)
    | PutObject(pid: nat, ok: bool, lands: bool)
    | Record(pid: nat, ok: bool, lands: bool)
    | Stop(pid: nat)
    | BeginSweep(pid: nat, store: nat, keys: seq<string>, unreadable: set<string>)
    | SweepNext(pid: nat, ok: bool, lands: bool)

  const EMPTY: System := System(map[], map[], map[], map[], map[], false)

  function StoreAt(s: System, i: nat): Store {
    if i in s.stores then s.stores[i] else map[]
  }

  // ----- the steps

  predicate HasRoot(catalogue: map<string, Entry>, source: string, root: string) {
    exists n :: n in catalogue && catalogue[n].source == source && catalogue[n].root == root && catalogue[n].committed
  }

  function EntryOf(c: Codec, info: Info): Entry
    requires Laws(c)
  {
    Entry(info.snap, info.source, RootOf(c, info.art), ManifestKey(info.source, info.snap),
          CompleteKey(info.source, info.snap), true)
  }

  /** The body a backup writes at a slot. */
  function BodyAt(c: Codec, info: Info, slot: nat, nonce: string, now: string): string
    requires Laws(c)
  {
    var n := |ArtifactChunks(info.art)|;
    if slot < n then c.encrypt(ChunkIdAt(c, info.art, slot), c.compress(ArtifactChunks(info.art)[slot].data), nonce)
    else if slot == n then Payload(c, info)
    else if slot == n + 1 then c.sign(Payload(c, info))
    else c.encodeCompletion(Completion(info.snap, ShaHex(c, Payload(c, info)), now))
  }

  /** The keys a replication copies: those the manifest names, then the three of the snapshot. */
  function CopyKeys(man: Manifest, e: Entry): seq<string> {
    ChunkKeys(man.chunks) + [e.manifestKey, SigKeyFor(e.manifestKey, e.source, e.snap), e.completionKey]
  }

  /** Put with IfNotExists: an existing object never changes; a failed Put may still have stored. */
  function PutInto(st: Store, key: string, body: string, ok: bool, lands: bool): Store {
    if key in st || !(ok || lands) then st else st[key := body]
  }

  predicate ListedManifest(k: string) {
    HasPrefix(k, SNAPSHOTS_PREFIX) && HasSuffix(k, "/manifest.json")
  }

  predicate Names(man: Manifest, k: string) {
    exists i :: 0 <= i < |man.chunks| && man.chunks[i].objectKey == k
  }

  /** A manifest that is listed, can be read and decodes, names the key. */
  predicate Referenced(c: Codec, st: Store, unreadable: set<string>, k: string) {
    exists m :: m in st && ListedManifest(m) && m !in unreadable
             && c.decodeManifest(st[m]).Some? && Names(c.decodeManifest(st[m]).value, k)
  }

  /** What garbage collection plans to delete. */
  predicate Orphan(c: Codec, st: Store, unreadable: set<string>, k: string) {
    k in st && HasPrefix(k, CHUNKS_PREFIX) && !Referenced(c, st, unreadable, k)
  }

  predicate SweepPlan(c: Codec, st: Store, unreadable: set<string>, keys: seq<string>) {
    && (forall i, j :: 0 <= i < j < |keys| ==> keys[i] != keys[j])
    && (forall k :: k in keys ==> Orphan(c, st, unreadable, k))
    && (forall k :: k in st && Orphan(c, st, unreadable, k) ==> k in keys)
  }

  function Advance(s: System, pid: nat, p: Proc): System {
    s.(procs := s.procs[pid := p])
  }

  function End(s: System, pid: nat): System {
    s.(procs := s.procs - {pid})
  }

  function StepBeginBackup(c: Codec, s: System, pid: nat, info: Info, lookupFails: bool): System
    requires Laws(c)
  {
    if pid in s.procs || info.snap in s.reg || !Free(info.snap, '/') then s
    else if !lookupFails && HasRoot(s.catalogue, info.source, RootOf(c, info.art)) then s
    else
      Advance(s.(reg := s.reg[info.snap := info]), pid,
              Proc(FromArtifact, info.home, info.snap, KeysOf(c, info), |ArtifactChunks(info.art)|, 0, Check))
  }

  function StepBeginCopy(c: Codec, s: System, pid: nat, from: nat, to: nat, snap: string): System {
    if pid in s.procs || snap !in s.catalogue then s
    else
      var e, st := s.catalogue[snap], StoreAt(s, from);
      if e.manifestKey !in st || c.decodeManifest(st[e.manifestKey]).None? then s
      else
        var man := c.decodeManifest(st[e.manifestKey]).value;
        Advance(s, pid, Proc(FromStore(from), to, snap, CopyKeys(man, e), |man.chunks|, 0, Check))
  }

  function StepCheckSlot(c: Codec, s: System, pid: nat, p: Proc, headFails: bool, nonce: string, now: string): System
    requires Laws(c)
  {
    if p.slot >= |p.keys| || !p.stage.Check? || p.snap !in s.reg then s
    else
      var present := p.slot < p.chunkCount && p.keys[p.slot] in StoreAt(s, p.to);
      if p.origin.FromStore? then
        Advance(s, pid, if present && !headFails then p.(slot := p.slot + 1) else p.(stage := Fetch))
      else if p.slot < p.chunkCount && headFails then End(s, pid)
      else Advance(s, pid,
                   if present then p.(slot := p.slot + 1)
                   else p.(stage := Write(BodyAt(c, s.reg[p.snap], p.slot, nonce, now))))
  }

  function StepFetch(s: System, pid: nat, p: Proc): System {
    if p.slot >= |p.keys| || !p.stage.Fetch? || !p.origin.FromStore? then s
    else if p.keys[p.slot] !in StoreAt(s, p.origin.from) then End(s, pid)
    else Advance(s, pid, p.(stage := Write(StoreAt(s, p.origin.from)[p.keys[p.slot]])))
  }

  function StepPut(s: System, pid: nat, p: Proc, ok: bool, lands: bool): System {
    if p.slot >= |p.keys| || !p.stage.Write? then s
    else
      var s1 := s.(stores := s.stores[p.to := PutInto(StoreAt(s, p.to), p.keys[p.slot], p.stage.body, ok, lands)]);
      if ok then Advance(s1, pid, p.(slot := p.slot + 1, stage := Check)) else End(s1, pid)
  }

  function StepRecord(c: Codec, s: System, pid: nat, p: Proc, lands: bool): System
    requires Laws(c)
  {
    if p.slot != |p.keys| || p.snap !in s.reg then s
    else if p.origin.FromArtifact? && lands
    then End(s.(catalogue := s.catalogue[p.snap := EntryOf(c, s.reg[p.snap])]), pid)
    else End(s, pid)
  }

  function StepSweepNext(s: System, pid: nat, w: Sweep, ok: bool, lands: bool): System {
    if w.next >= |w.keys| then s
    else
      var st := StoreAt(s, w.store);
      s.(stores := s.stores[w.store := if ok || lands then st - {w.keys[w.next]} else st],
         sweeps := if ok then s.sweeps[pid := w.(next := w.next + 1)] else s.sweeps - {pid})
  }

  /** One step. An action that is not possible leaves the system as it is. */
  function Apply(c: Codec, s: System, a: Action): System
    requires Laws(c)
  {
    match a
    case BeginBackup(pid, info, lookupFails) => StepBeginBackup(c, s, pid, info, lookupFails)
    case BeginCopy(pid, from, to, snap) => StepBeginCopy(c, s, pid, from, to, snap)
    case CheckSlot(pid, headFails, nonce, now) =>
      if pid in s.procs then StepCheckSlot(c, s, pid, s.procs[pid], headFails, nonce, now) else s
    case FetchObject(pid) => if pid in s.procs then StepFetch(s, pid, s.procs[pid]) else s
    case PutObject(pid, ok, lands) => if pid in s.procs then StepPut(s, pid, s.procs[pid], ok, lands) else s
    case Record(pid, ok, lands) => if pid in s.procs then StepRecord(c, s, pid, s.procs[pid], ok || lands) else s
    case Stop(pid) => End(s, pid)
    case BeginSweep(pid, store, keys, unreadable) =>
      if pid in s.sweeps || !SweepPlan(c, StoreAt(s, store), unreadable, keys) then s
      else s.(sweeps := s.sweeps[pid := Sweep(store, keys, 0)], swept := true)
    case SweepNext(pid, ok, lands) =>
      if pid in s.sweeps then StepSweepNext(s, pid, s.sweeps[pid], ok, lands) else s
  }

  /** The system after a list of actions. */
  function Run(c: Codec, s: System, actions: seq<Action>): System
    requires Laws(c)
  {
    if actions == [] then s else Apply(c, Run(c, s, actions[..|actions| - 1]), actions[|actions| - 1])
  }

  lemma {:induction false} RunConcat(c: Codec, s: System, a: seq<Action>, b: seq<Action>)
    requires Laws(c)
    ensures Run(c, s, a + b) == Run(c, Run(c, s, a), b)
  {
    if b == [] {
      assert a + b == a;
    } else {
      RunConcat(c, s, a, b[..|b| - 1]);
      assert (a + b)[..|a + b| - 1] == a + b[..|b| - 1] && (a + b)[|a + b| - 1] == b[|b| - 1];
    }
  }
}
