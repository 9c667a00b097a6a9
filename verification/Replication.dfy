/** Service.Replicate of replication/service.go, proved to be a run of the repository's state machine. */
module Replication {
  import opened Snapshots
  import opened Repository
  import opened Storage
  import opened Backup

  datatype CopyResult = Replicated(copied: nat, reused: nat) | CopyFailed

  /** The state machine is about to check slot `slot` of the replication `p`; both stores show. */
  ghost predicate Copying(s: System, pid: nat, p: Proc, slot: nat, primary: Store, target: Store) {
    && p.origin.FromStore? && p.stage.Check? && p.snap in s.reg
    && pid in s.procs && s.procs[pid] == p.(slot := slot)
    && StoreAt(s, p.origin.from) == primary && StoreAt(s, p.to) == target
  }

  /** Nothing but the target store and the replication's own process differ. */
  ghost predicate OnlyTarget(s: System, s': System, to: nat, pid: nat) {
    && (forall i :: i != to ==> StoreAt(s', i) == StoreAt(s, i))
    && s'.catalogue == s.catalogue && s'.sweeps == s.sweeps && s'.swept == s.swept && s'.reg == s.reg
    && s'.procs - {pid} == s.procs - {pid}
  }

  ghost predicate Shown(s: System, p: Proc, primary: Store, target: Store) {
    p.origin.FromStore? && StoreAt(s, p.origin.from) == primary && StoreAt(s, p.to) == target
  }

  lemma CheckStep(c: Codec, s: System, pid: nat, p: Proc, headFails: bool)
    requires Laws(c) && pid in s.procs && s.procs[pid] == p && p.origin.FromStore? && p.stage.Check? && p.snap in s.reg
    requires p.slot < |p.keys|
    ensures Apply(c, s, CheckSlot(pid, headFails, "", ""))
         == Advance(s, pid, if p.slot < p.chunkCount && p.keys[p.slot] in StoreAt(s, p.to) && !headFails
                            then p.(slot := p.slot + 1) else p.(stage := Fetch))
  {
  }

  lemma FetchStep(c: Codec, s: System, pid: nat, p: Proc)
    requires Laws(c) && p.origin.FromStore? && p.slot < |p.keys|
    ensures Apply(c, Advance(s, pid, p.(stage := Fetch)), FetchObject(pid))
         == if p.keys[p.slot] in StoreAt(s, p.origin.from)
            then Advance(s, pid, p.(stage := Write(StoreAt(s, p.origin.from)[p.keys[p.slot]])))
            else End(s, pid)
  {
    var s1 := Advance(s, pid, p.(stage := Fetch));
    assert StoreAt(s1, p.origin.from) == StoreAt(s, p.origin.from);
    assert s1.procs - {pid} == s.procs - {pid};
    if p.keys[p.slot] in StoreAt(s, p.origin.from) {
      var q := p.(stage := Write(StoreAt(s, p.origin.from)[p.keys[p.slot]]));
      assert s1.procs[pid := q] == s.procs[pid := q];
    }
  }

  lemma StopStep(c: Codec, s: System, pid: nat, p: Proc)
    requires Laws(c)
    ensures Apply(c, Advance(s, pid, p), Stop(pid)) == End(s, pid)
  {
    assert Advance(s, pid, p).procs - {pid} == s.procs - {pid};
  }

  lemma WrittenShown(s: System, pid: nat, p: Proc, body: string, ok: bool, lands: bool)
    requires p.slot < |p.keys| && p.origin.FromStore?
    ensures var s' := Written(s, pid, p, body, ok, lands);
            && OnlyTarget(s, s', p.to, pid)
            && StoreAt(s', p.to) == PutInto(StoreAt(s, p.to), p.keys[p.slot], body, ok, lands)
            && (ok ==> pid in s'.procs && s'.procs[pid] == p.(slot := p.slot + 1, stage := Check))
            && (!ok ==> pid !in s'.procs)
  {
  }

  lemma RunThree(c: Codec, s: System, a: Action, b: Action, d: Action)
    requires Laws(c)
    ensures Run(c, s, [a, b, d]) == Apply(c, Apply(c, Apply(c, s, a), b), d)
  {
    RunTwo(c, s, a, b);
    assert [a, b, d][..2] == [a, b];
  }

  /** The process is at a slot it has to copy. */
  ghost predicate MustCopy(s: System, pid: nat, q: Proc, headFails: bool) {
    && pid in s.procs && s.procs[pid] == q && q.origin.FromStore? && q.stage.Check?
    && q.snap in s.reg && q.slot < |q.keys|
    && (q.slot < q.chunkCount ==> headFails || q.keys[q.slot] !in StoreAt(s, q.to))
  }

  lemma CopySteps(c: Codec, s: System, pid: nat, q: Proc, headFails: bool, ok: bool, lands: bool)
    requires Laws(c) && MustCopy(s, pid, q, headFails) && q.keys[q.slot] in StoreAt(s, q.origin.from)
    ensures Run(c, s, [CheckSlot(pid, headFails, "", ""), FetchObject(pid), PutObject(pid, ok, lands)])
         == Written(s, pid, q, StoreAt(s, q.origin.from)[q.keys[q.slot]], ok, lands)
  {
    CheckStep(c, s, pid, q, headFails);
    FetchStep(c, s, pid, q);
    PutWrites(c, s, pid, q, StoreAt(s, q.origin.from)[q.keys[q.slot]], ok, lands);
    RunThree(c, s, CheckSlot(pid, headFails, "", ""), FetchObject(pid), PutObject(pid, ok, lands));
  }

  lemma CopyStops(c: Codec, s: System, pid: nat, q: Proc, headFails: bool, failed: bool)
    requires Laws(c) && MustCopy(s, pid, q, headFails) && (!failed ==> q.keys[q.slot] !in StoreAt(s, q.origin.from))
    ensures Run(c, s, [CheckSlot(pid, headFails, "", ""), if failed then Stop(pid) else FetchObject(pid)])
         == End(s, pid)
    ensures OnlyTarget(s, End(s, pid), q.to, pid)
  {
    CheckStep(c, s, pid, q, headFails);
    FetchStep(c, s, pid, q);
    StopStep(c, s, pid, q.(stage := Fetch));
    RunTwo(c, s, CheckSlot(pid, headFails, "", ""), if failed then Stop(pid) else FetchObject(pid));
  }

  /** Some Get or Put failed since the counters were these. */
  ghost predicate Failed(gets: nat, puts: nat, primary: Bucket, target: Bucket)
    reads primary, target
  {
    primary.failures > gets || target.failures > puts
  }

  /** copyObject for the object at slot `slot`; `headFails` is what the preceding Head reported, if any. */
  method CopyObject(c: Codec, primary: Bucket, target: Bucket, key: string,
                    ghost s: System, ghost pid: nat, ghost p: Proc, ghost slot: nat, ghost headFails: bool)
    returns (ok: bool, ghost trace: seq<Action>)
    requires Laws(c) && Copying(s, pid, p, slot, primary.objects, target.objects) && slot < |p.keys|
    requires key == p.keys[slot]
    requires primary == target <==> p.origin.from == p.to
    requires slot < p.chunkCount ==> headFails || key !in target.objects
    modifies target, primary`failures
    ensures OnlyTarget(s, Run(c, s, trace), p.to, pid)
    ensures ok ==> Copying(Run(c, s, trace), pid, p, slot + 1, primary.objects, target.objects) && key in target.objects
    ensures !ok ==> pid !in Run(c, s, trace).procs && Shown(Run(c, s, trace), p, primary.objects, target.objects)
    ensures forall k :: k in old(target.objects) ==> k in target.objects
    ensures target.headFailures == old(target.headFailures)
    ensures ok ==> primary.failures == old(primary.failures) && target.failures == old(target.failures)
    ensures !ok ==> key !in old(primary.objects) || Failed(old(primary.failures), old(target.failures), primary, target)
  {
    ghost var q := p.(slot := slot);
    var obj, failed := primary.Get(key);
    if obj.None? {
      CopyStops(c, s, pid, q, headFails, failed);
      return false, [CheckSlot(pid, headFails, "", ""), if failed then Stop(pid) else FetchObject(pid)];
    }
    ghost var lands;
    ok, lands := target.Put(key, obj.value);
    trace := [CheckSlot(pid, headFails, "", ""), FetchObject(pid), PutObject(pid, ok, lands)];
    CopyRuns(c, s, pid, q, headFails, ok, lands);
  }

  lemma CopyRuns(c: Codec, s: System, pid: nat, q: Proc, headFails: bool, ok: bool, lands: bool)
    requires Laws(c) && MustCopy(s, pid, q, headFails) && q.keys[q.slot] in StoreAt(s, q.origin.from)
    ensures var s' := Run(c, s, [CheckSlot(pid, headFails, "", ""), FetchObject(pid), PutObject(pid, ok, lands)]);
            && OnlyTarget(s, s', q.to, pid)
            && StoreAt(s', q.to) == PutInto(StoreAt(s, q.to), q.keys[q.slot], StoreAt(s, q.origin.from)[q.keys[q.slot]],
                                            ok, lands)
            && (ok ==> pid in s'.procs && s'.procs[pid] == q.(slot := q.slot + 1, stage := Check))
            && (!ok ==> pid !in s'.procs)
  {
    CopySteps(c, s, pid, q, headFails, ok, lands);
    WrittenShown(s, pid, q, StoreAt(s, q.origin.from)[q.keys[q.slot]], ok, lands);
  }

  lemma OnlyTargetChain(s: System, s1: System, s2: System, to: nat, pid: nat)
    requires OnlyTarget(s, s1, to, pid) && OnlyTarget(s1, s2, to, pid)
    ensures OnlyTarget(s, s2, to, pid)
  {
    forall i | i != to ensures StoreAt(s2, i) == StoreAt(s, i) {
      assert StoreAt(s1, i) == StoreAt(s, i);
    }
  }

  lemma RunsOn(c: Codec, s: System, a: seq<Action>, b: seq<Action>, to: nat, pid: nat)
    requires Laws(c) && OnlyTarget(s, Run(c, s, a), to, pid)
    requires OnlyTarget(Run(c, s, a), Run(c, Run(c, s, a), b), to, pid)
    ensures Run(c, s, a + b) == Run(c, Run(c, s, a), b) && OnlyTarget(s, Run(c, s, a + b), to, pid)
  {
    RunConcat(c, s, a, b);
    OnlyTargetChain(s, Run(c, s, a), Run(c, s, a + b), to, pid);
  }

  /** Why an object cannot be copied: the primary does not have it, and if it is a chunk and the target was asked
      about it, neither does the target. */
  predicate Absent(key: string, chunk: bool, from: Store, to: Store, asked: bool) {
    key !in from && (chunk && asked ==> key !in to)
  }

  predicate SomeAbsent(keys: seq<string>, chunkCount: nat, from: Store, to: Store, asked: bool) {
    exists i :: 0 <= i < |keys| && Absent(keys[i], i < chunkCount, from, to, asked)
  }

  /** The body of the two loops: reuse a chunk the target has, else copy the object. */
  method CopySlot(c: Codec, primary: Bucket, target: Bucket, key: string, chunk: bool,
                  ghost s: System, ghost pid: nat, ghost p: Proc, ghost slot: nat)
    returns (ok: bool, reused: bool, ghost trace: seq<Action>)
    requires Laws(c) && Copying(s, pid, p, slot, primary.objects, target.objects) && slot < |p.keys|
    requires key == p.keys[slot]
    requires chunk == (slot < p.chunkCount)
    requires primary == target <==> p.origin.from == p.to
    modifies target, primary`failures
    ensures OnlyTarget(s, Run(c, s, trace), p.to, pid)
    ensures ok ==> Copying(Run(c, s, trace), pid, p, slot + 1, primary.objects, target.objects) && key in target.objects
    ensures !ok ==> pid !in Run(c, s, trace).procs && Shown(Run(c, s, trace), p, primary.objects, target.objects)
    ensures forall k :: k in old(target.objects) ==> k in target.objects
    ensures reused ==> chunk
    ensures target.headFailures >= old(target.headFailures)
    ensures ok ==> primary.failures == old(primary.failures) && target.failures == old(target.failures)
    ensures !ok ==> Failed(old(primary.failures), old(target.failures), primary, target)
                    || Absent(key, chunk, old(primary.objects), old(target.objects),
                              target.headFailures == old(target.headFailures))
  {
    var head := NotFound;
    if chunk {
      head := target.Head(key);
    }
    reused := head.Found?;
    if reused {
      ok := true;
      trace := [CheckSlot(pid, false, "", "")];
      ReuseRuns(c, s, pid, p, slot, primary.objects, target.objects);
    } else {
      ok, trace := CopyObject(c, primary, target, key, s, pid, p, slot, head.HeadFailed?);
    }
  }

  lemma ReuseRuns(c: Codec, s: System, pid: nat, p: Proc, slot: nat, primary: Store, target: Store)
    requires Laws(c) && Copying(s, pid, p, slot, primary, target) && slot < |p.keys| && slot < p.chunkCount
    requires p.keys[slot] in target
    ensures var s' := Run(c, s, [CheckSlot(pid, false, "", "")]);
            OnlyTarget(s, s', p.to, pid) && Copying(s', pid, p, slot + 1, primary, target)
  {
    RunTwo(c, s, CheckSlot(pid, false, "", ""), CheckSlot(pid, false, "", ""));
    CheckStep(c, s, pid, p.(slot := slot), false);
  }

  /** The same as the next stretch of a run. */
  method CopyNext(c: Codec, primary: Bucket, target: Bucket, key: string, chunk: bool,
                  ghost s: System, ghost pid: nat, ghost p: Proc, ghost slot: nat, ghost trace: seq<Action>)
    returns (ok: bool, reused: bool, ghost trace': seq<Action>)
    requires Laws(c) && OnlyTarget(s, Run(c, s, trace), p.to, pid)
    requires Copying(Run(c, s, trace), pid, p, slot, primary.objects, target.objects) && slot < |p.keys|
    requires key == p.keys[slot]
    requires chunk == (slot < p.chunkCount)
    requires primary == target <==> p.origin.from == p.to
    modifies target, primary`failures
    ensures OnlyTarget(s, Run(c, s, trace'), p.to, pid)
    ensures ok ==>
              Copying(Run(c, s, trace'), pid, p, slot + 1, primary.objects, target.objects) && key in target.objects
    ensures !ok ==> pid !in Run(c, s, trace').procs && Shown(Run(c, s, trace'), p, primary.objects, target.objects)
    ensures forall k :: k in old(target.objects) ==> k in target.objects
    ensures reused ==> chunk
    ensures target.headFailures >= old(target.headFailures)
    ensures ok ==> primary.failures == old(primary.failures) && target.failures == old(target.failures)
    ensures !ok ==> Failed(old(primary.failures), old(target.failures), primary, target)
                    || Absent(key, chunk, old(primary.objects), old(target.objects),
                              target.headFailures == old(target.headFailures))
  {
    ghost var t;
    ok, reused, t := CopySlot(c, primary, target, key, chunk, Run(c, s, trace), pid, p, slot);
    RunsOn(c, s, trace, t, p.to, pid);
    trace' := trace + t;
  }

  /** The two loops of Replicate, over the chunks and then over the three snapshot objects. */
  method CopyAll(c: Codec, primary: Bucket, target: Bucket, keys: seq<string>, chunkCount: nat,
                 ghost s: System, ghost pid: nat, ghost p: Proc)
    returns (ok: bool, copied: nat, reused: nat, ghost trace: seq<Action>)
    requires Laws(c) && Copying(s, pid, p, 0, primary.objects, target.objects)
    requires keys == p.keys && chunkCount == p.chunkCount <= |keys|
    requires primary == target <==> p.origin.from == p.to
    modifies target, primary`failures
    ensures OnlyTarget(s, Run(c, s, trace), p.to, pid)
    ensures ok ==> Copying(Run(c, s, trace), pid, p, |keys|, primary.objects, target.objects)
    ensures ok ==> copied + reused == chunkCount && forall k :: 0 <= k < |keys| ==> keys[k] in target.objects
    ensures !ok ==> pid !in Run(c, s, trace).procs && Shown(Run(c, s, trace), p, primary.objects, target.objects)
    ensures ok ==> primary.failures == old(primary.failures) && target.failures == old(target.failures)
    ensures !ok ==> Failed(old(primary.failures), old(target.failures), primary, target)
                    || SomeAbsent(keys, chunkCount, old(primary.objects), old(target.objects),
                                  target.headFailures == old(target.headFailures))
  {
    ok, copied, reused, trace := true, 0, 0, [];
    for i := 0 to |keys|
      invariant ok && OnlyTarget(s, Run(c, s, trace), p.to, pid)
      invariant Copying(Run(c, s, trace), pid, p, i, primary.objects, target.objects)
      invariant copied + reused == if i < chunkCount then i else chunkCount
      invariant forall k :: 0 <= k < i ==> keys[k] in target.objects
      invariant primary.failures == old(primary.failures) && target.failures == old(target.failures)
      invariant target.headFailures >= old(target.headFailures)
      invariant forall k :: k in old(target.objects) ==> k in target.objects
    {
      var found;
      ok, found, trace := CopyNext(c, primary, target, keys[i], i < chunkCount, s, pid, p, i, trace);
      if !ok {
        return;
      }
      if found {
        reused := reused + 1;
      } else if i < chunkCount {
        copied := copied + 1;
      }
    }
  }

  lemma BeginCopyStep(c: Codec, s: System, pid: nat, from: nat, to: nat, snap: string)
    requires Laws(c) && pid !in s.procs && snap in s.catalogue && snap in s.reg
    requires s.catalogue[snap].manifestKey in StoreAt(s, from)
    requires c.decodeManifest(StoreAt(s, from)[s.catalogue[snap].manifestKey]).Some?
    ensures var man := c.decodeManifest(StoreAt(s, from)[s.catalogue[snap].manifestKey]).value;
            var p := Proc(FromStore(from), to, snap, CopyKeys(man, s.catalogue[snap]), |man.chunks|, 0, Check);
            Apply(c, s, BeginCopy(pid, from, to, snap)) == Advance(s, pid, p)
  {
  }

  lemma FinishCopyStep(c: Codec, s: System, pid: nat, p: Proc)
    requires Laws(c) && pid in s.procs && s.procs[pid] == p.(slot := |p.keys|) && p.origin.FromStore? && p.snap in s.reg
    ensures Run(c, s, [Record(pid, true, true)]) == End(s, pid) && OnlyTarget(s, End(s, pid), p.to, pid)
    ensures StoreAt(End(s, pid), p.to) == StoreAt(s, p.to) && pid !in End(s, pid).procs
  {
    RunTwo(c, s, Record(pid, true, true), Record(pid, true, true));
  }

  /** Replicate after the manifest was read. */
  method CopySnapshot(c: Codec, primary: Bucket, target: Bucket, keys: seq<string>, chunkCount: nat,
                      ghost s: System, ghost pid: nat, ghost p: Proc)
    returns (r: CopyResult, ghost trace: seq<Action>)
    requires Laws(c) && Copying(s, pid, p, 0, primary.objects, target.objects)
    requires keys == p.keys && chunkCount == p.chunkCount <= |keys|
    requires primary == target <==> p.origin.from == p.to
    modifies target, primary`failures
    ensures OnlyTarget(s, Run(c, s, trace), p.to, pid)
    ensures pid !in Run(c, s, trace).procs && Shown(Run(c, s, trace), p, primary.objects, target.objects)
    ensures r.Replicated? ==>
              r.copied + r.reused == chunkCount && forall k :: 0 <= k < |keys| ==> keys[k] in target.objects
    ensures r.Replicated? ==> primary.failures == old(primary.failures) && target.failures == old(target.failures)
    ensures r.CopyFailed? ==>
              Failed(old(primary.failures), old(target.failures), primary, target)
              || SomeAbsent(keys, chunkCount, old(primary.objects), old(target.objects),
                            target.headFailures == old(target.headFailures))
  {
    var ok, copied, reused;
    ok, copied, reused, trace := CopyAll(c, primary, target, keys, chunkCount, s, pid, p);
    if !ok {
      return CopyFailed, trace;
    }
    FinishCopyStep(c, Run(c, s, trace), pid, p);
    RunsOn(c, s, trace, [Record(pid, true, true)], p.to, pid);
    trace := trace + [Record(pid, true, true)];
    r := Replicated(copied, reused);
  }

  /** All objects of the snapshot, as the manifest in `from` lists them, are in `to`; n of them are chunks. */
  predicate Copied(c: Codec, e: Entry, from: Store, to: Store, n: nat) {
    && e.manifestKey in from && c.decodeManifest(from[e.manifestKey]).Some?
    && var man := c.decodeManifest(from[e.manifestKey]).value;
       |man.chunks| == n && forall i :: 0 <= i < n + 3 ==> CopyKeys(man, e)[i] in to
  }

  /** Why a replication fails though no operation does: the snapshot is unknown, its manifest is missing or does not
      decode, or an object it needs is absent. */
  predicate CannotCopy(c: Codec, entries: map<string, Entry>, snap: string, from: Store, to: Store, asked: bool) {
    snap !in entries
    || var e := entries[snap];
       || e.manifestKey !in from || c.decodeManifest(from[e.manifestKey]).None?
       || var man := c.decodeManifest(from[e.manifestKey]).value;
          SomeAbsent(CopyKeys(man, e), |man.chunks|, from, to, asked)
  }

  /** Service.Replicate. Whatever fails, the effect is that of steps of the state machine; on success the
      target holds every object the manifest names and the three snapshot objects. */
  method Replicate(c: Codec, cat: Catalogue, primary: Bucket, target: Bucket, from: nat, to: nat, snap: string,
                   ghost s: System, ghost pid: nat)
    returns (r: CopyResult, ghost trace: seq<Action>)
    requires Laws(c) && pid !in s.procs && s.catalogue == cat.entries && forall n :: n in s.catalogue ==> n in s.reg
    requires StoreAt(s, from) == primary.objects && StoreAt(s, to) == target.objects
    requires (primary == target <==> from == to)
    modifies target, primary`failures, cat`failures
    ensures var s' := Run(c, s, trace);
            && pid !in s'.procs && OnlyTarget(s, s', to, pid)
            && StoreAt(s', from) == primary.objects && StoreAt(s', to) == target.objects
    ensures r.Replicated? ==> snap in cat.entries && Copied(c, cat.entries[snap], old(primary.objects), target.objects,
                                                            r.copied + r.reused)
    ensures r.Replicated? ==> !Failed(old(primary.failures), old(target.failures), primary, target)
    ensures r.CopyFailed? && cat.failures == old(cat.failures) ==>
              Failed(old(primary.failures), old(target.failures), primary, target)
              || CannotCopy(c, cat.entries, snap, old(primary.objects), old(target.objects),
                            target.headFailures == old(target.headFailures))
  {
    trace := [];
    var entry := cat.GetSnapshot(snap);
    if entry.None? {
      return CopyFailed, trace;
    }
    var e := entry.value;
    var payload, _ := primary.Get(e.manifestKey);
    if payload.None? || c.decodeManifest(payload.value).None? {
      return CopyFailed, trace;
    }
    var man := c.decodeManifest(payload.value).value;
    ghost var p := Proc(FromStore(from), to, snap, CopyKeys(man, e), |man.chunks|, 0, Check);
    ghost var begin := BeginCopy(pid, from, to, snap);
    CopyBegins(c, s, pid, from, to, snap, p);
    r, trace := CopySnapshot(c, primary, target, CopyKeys(man, e), |man.chunks|, Run(c, s, [begin]), pid, p);
    RunsOn(c, s, [begin], trace, to, pid);
    trace := [begin] + trace;
  }

  lemma CopyBegins(c: Codec, s: System, pid: nat, from: nat, to: nat, snap: string, p: Proc)
    requires Laws(c) && pid !in s.procs && snap in s.catalogue && snap in s.reg
    requires var e, st := s.catalogue[snap], StoreAt(s, from);
             && e.manifestKey in st && c.decodeManifest(st[e.manifestKey]).Some?
             && var man := c.decodeManifest(st[e.manifestKey]).value;
                p == Proc(FromStore(from), to, snap, CopyKeys(man, e), |man.chunks|, 0, Check)
    ensures var s1 := Run(c, s, [BeginCopy(pid, from, to, snap)]);
            Copying(s1, pid, p, 0, StoreAt(s, from), StoreAt(s, to)) && OnlyTarget(s, s1, to, pid)
  {
    var begin := BeginCopy(pid, from, to, snap);
    BeginCopyStep(c, s, pid, from, to, snap);
    RunTwo(c, s, begin, begin);
  }
}
