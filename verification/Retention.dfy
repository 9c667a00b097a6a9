/** The retention planner of internal/application/retention/planner.go. */
module Retention {

  datatype Status = Building | Committed | Protected | Tombstoned | Deleted | Corrupted

  datatype Snapshot = Snapshot(id: string, status: Status, createdAt: int, restoreTested: bool)

  datatype Class = Recent | Latest | ProtectedClass | RestoreTest | Daily | Weekly | Monthly

  datatype Policy = Policy(keepLast: int, daily: int, weekly: int, monthly: int, keepLatestRestoreTested: bool)

  /** The bucket names of a creation time: calendar day, ISO week and month in the
      planner's location. Nothing below depends on what they are. */
  datatype Buckets = Buckets(day: int -> string, week: int -> string, month: int -> string)

  datatype Decision = Decision(keep: Keep, tombstone: seq<string>)

  type Keep = map<string, seq<Class>>

  predicate Eligible(s: Snapshot) {
    s.status == Committed || s.status == Protected
  }

  function EligibleOf(snaps: seq<Snapshot>): (e: seq<Snapshot>) {
    if snaps == [] then []
    else EligibleOf(snaps[..|snaps| - 1]) + if Eligible(snaps[|snaps| - 1]) then [snaps[|snaps| - 1]] else []
  }

  predicate NewestFirst(e: seq<Snapshot>) {
    forall i, j :: 0 <= i < j < |e| ==> e[i].createdAt >= e[j].createdAt
  }

  predicate DistinctTimes(e: seq<Snapshot>) {
    forall i, j :: 0 <= i < j < |e| ==> e[i].createdAt != e[j].createdAt
  }

  predicate UniqueIds(e: seq<Snapshot>) {
    forall i, j :: 0 <= i < j < |e| ==> e[i].id != e[j].id
  }

  // ----- what the planner computes from an ordered list

  /** The distinct bucket names among the first n snapshots. */
  function KeysBefore<K(==)>(e: seq<Snapshot>, key: int -> K, n: nat): set<K>
    requires n <= |e|
  {
    set j | 0 <= j < n :: key(e[j].createdAt)
  }

  /** Snapshot i opens a new bucket and fewer than `max` buckets came before. */
  predicate OpensBucket<K(==)>(e: seq<Snapshot>, key: int -> K, max: int, i: nat)
    requires i < |e|
  {
    key(e[i].createdAt) !in KeysBefore(e, key, i) && |KeysBefore(e, key, i)| < max
  }

  /** The closure `add`, called under a condition: one class appended to the list of one snapshot. */
  function AddIf(given: bool, keep: Keep, id: string, c: Class): Keep {
    if given then keep[id := (if id in keep then keep[id] else []) + [c]] else keep
  }

  /** The classes given to one snapshot without buckets. */
  function OwnStep(p: Policy, e: seq<Snapshot>, keep: Keep, i: nat): Keep
    requires i < |e|
  {
    var s := e[i];
    var k1 := AddIf(i < p.keepLast, keep, s.id, Recent);
    var k2 := AddIf(i == 0, k1, s.id, Latest);
    var k3 := AddIf(s.status == Protected, k2, s.id, ProtectedClass);
    AddIf(s.restoreTested && p.keepLatestRestoreTested, k3, s.id, RestoreTest)
  }

  function OwnKeep(p: Policy, e: seq<Snapshot>, n: nat): Keep
    requires n <= |e|
  {
    if n == 0 then map[] else OwnStep(p, e, OwnKeep(p, e, n - 1), n - 1)
  }

  /** `keep` after the buckets of one kind among the first n snapshots. */
  function BucketKeep(e: seq<Snapshot>, key: int -> string, max: int, c: Class, keep: Keep, n: nat): Keep
    requires n <= |e|
  {
    if n == 0 then keep
    else AddIf(OpensBucket(e, key, max, n - 1), BucketKeep(e, key, max, c, keep, n - 1), e[n - 1].id, c)
  }

  function KeepOf(p: Policy, b: Buckets, e: seq<Snapshot>): Keep {
    var own := OwnKeep(p, e, |e|);
    var day := BucketKeep(e, b.day, p.daily, Daily, own, |e|);
    var week := BucketKeep(e, b.week, p.weekly, Weekly, day, |e|);
    BucketKeep(e, b.month, p.monthly, Monthly, week, |e|)
  }

  function Unkept(e: seq<Snapshot>, keep: Keep): seq<string> {
    if e == [] then []
    else
      var last := e[|e| - 1].id;
      Unkept(e[..|e| - 1], keep) + if last in keep && keep[last] != [] then [] else [last]
  }

  function PlanOf(p: Policy, b: Buckets, e: seq<Snapshot>): (d: Decision) {
    var keep := KeepOf(p, b, e);
    Decision(keep, Unkept(e, keep))
  }

  // ----- the planner itself

  method InsertNewestFirst(e: seq<Snapshot>, x: Snapshot) returns (r: seq<Snapshot>)
    requires NewestFirst(e)
    ensures multiset(r) == multiset(e) + multiset{x} && NewestFirst(r)
  {
    var k := 0;
    while k < |e| && e[k].createdAt >= x.createdAt
      invariant 0 <= k <= |e|
      invariant forall i :: 0 <= i < k ==> e[i].createdAt >= x.createdAt
    {
      k := k + 1;
    }
    InsertedInOrder(e, k, x);
    r := e[..k] + [x] + e[k..];
  }

  lemma InsertedInOrder(e: seq<Snapshot>, k: nat, x: Snapshot)
    requires NewestFirst(e) && k <= |e|
    requires forall i :: 0 <= i < k ==> e[i].createdAt >= x.createdAt
    requires k < |e| ==> e[k].createdAt < x.createdAt
    ensures NewestFirst(e[..k] + [x] + e[k..])
    ensures multiset(e[..k] + [x] + e[k..]) == multiset(e) + multiset{x}
  {
    var r := e[..k] + [x] + e[k..];
    forall i, j | 0 <= i < j < |r| ensures r[i].createdAt >= r[j].createdAt {
      InsertedAt(e, k, x, i);
      InsertedAt(e, k, x, j);
    }
    InsertedMembers(e, k, x);
  }

  lemma InsertedAt(e: seq<Snapshot>, k: nat, x: Snapshot, i: nat)
    requires k <= |e| && i <= |e|
    ensures (e[..k] + [x] + e[k..])[i] == if i < k then e[i] else if i == k then x else e[i - 1]
  {
  }

  lemma InsertedMembers(e: seq<Snapshot>, k: nat, x: Snapshot)
    requires k <= |e|
    ensures multiset(e[..k] + [x] + e[k..]) == multiset(e) + multiset{x}
  {
    assert e == e[..k] + e[k..];
  }

  /** sort.Slice with the newest first. */
  method SortNewestFirst(s: seq<Snapshot>) returns (e: seq<Snapshot>)
    ensures multiset(e) == multiset(s) && NewestFirst(e)
  {
    e := [];
    for n := 0 to |s|
      invariant multiset(e) == multiset(s[..n]) && NewestFirst(e)
    {
      assert s[..n + 1] == s[..n] + [s[n]];
      e := InsertNewestFirst(e, s[n]);
    }
    assert s[..|s|] == s;
  }

  lemma SubsetSize<T>(a: set<T>, b: set<T>)
    requires a <= b
    ensures |a| <= |b|
  {
    assert b == a + (b - a);
  }

  lemma BucketKeepStops(e: seq<Snapshot>, key: int -> string, max: int, c: Class, keep: Keep, i: nat, n: nat)
    requires i <= n <= |e| && |KeysBefore(e, key, i)| >= max
    ensures BucketKeep(e, key, max, c, keep, n) == BucketKeep(e, key, max, c, keep, i)
  {
    if i < n {
      BucketKeepStops(e, key, max, c, keep, i, n - 1);
      SubsetSize(KeysBefore(e, key, i), KeysBefore(e, key, n - 1));
    }
  }

  lemma BucketKeepNext(e: seq<Snapshot>, key: int -> string, max: int, c: Class, keep: Keep, i: nat)
    requires i < |e| && |KeysBefore(e, key, i)| < max
    ensures KeysBefore(e, key, i + 1) == KeysBefore(e, key, i) + {key(e[i].createdAt)}
    ensures |KeysBefore(e, key, i + 1)|
         == |KeysBefore(e, key, i)| + if key(e[i].createdAt) in KeysBefore(e, key, i) then 0 else 1
    ensures BucketKeep(e, key, max, c, keep, i + 1)
         == AddIf(key(e[i].createdAt) !in KeysBefore(e, key, i), BucketKeep(e, key, max, c, keep, i), e[i].id, c)
  {
    var before, k := KeysBefore(e, key, i), key(e[i].createdAt);
    assert KeysBefore(e, key, i + 1) == before + {k};
    if k in before {
      assert before + {k} == before;
    }
  }

  /** The variables of `bucket` before it looks at snapshot i. */
  predicate BucketAt(e: seq<Snapshot>, key: int -> string, max: int, c: Class, keep: Keep,
                     i: nat, seen: set<string>, count: nat, keep': Keep)
  {
    && i <= |e| && seen == KeysBefore(e, key, i) && count == |KeysBefore(e, key, i)| < max
    && keep' == BucketKeep(e, key, max, c, keep, i)
  }

  lemma BucketNext(e: seq<Snapshot>, key: int -> string, max: int, c: Class, keep: Keep,
                   i: nat, seen: set<string>, count: nat, keep': Keep)
    requires i < |e| && BucketAt(e, key, max, c, keep, i, seen, count, keep')
    ensures var k, given := key(e[i].createdAt), AddIf(true, keep', e[i].id, c);
            if k in seen then BucketAt(e, key, max, c, keep, i + 1, seen, count, keep')
            else if count + 1 < max then BucketAt(e, key, max, c, keep, i + 1, seen + {k}, count + 1, given)
            else given == BucketKeep(e, key, max, c, keep, |e|)
  {
    var k := key(e[i].createdAt);
    BucketKeepNext(e, key, max, c, keep, i);
    if k in seen {
      assert seen + {k} == seen;
    } else if count + 1 >= max {
      BucketKeepStops(e, key, max, c, keep, i + 1, |e|);
    }
  }

  /** bucket: one class for the newest snapshot of each of the first `max` buckets. */
  method Bucket(e: seq<Snapshot>, key: int -> string, max: int, c: Class, keep: Keep) returns (keep': Keep)
    ensures keep' == BucketKeep(e, key, max, c, keep, |e|)
  {
    keep' := keep;
    if max <= 0 {
      BucketKeepStops(e, key, max, c, keep, 0, |e|);
      return;
    }
    var seen: set<string>, count: nat := {}, 0;
    for i := 0 to |e|
      invariant BucketAt(e, key, max, c, keep, i, seen, count, keep')
    {
      var s := e[i];
      var k := key(s.createdAt);
      BucketNext(e, key, max, c, keep, i, seen, count, keep');
      if k !in seen {
        seen := seen + {k};
        keep' := AddIf(true, keep', s.id, c);
        count := count + 1;
        if count >= max {
          return;
        }
      }
    }
  }

  /** The first loop of Plan. */
  method OwnPass(p: Policy, e: seq<Snapshot>) returns (keep: Keep)
    ensures keep == OwnKeep(p, e, |e|)
  {
    keep := map[];
    for i := 0 to |e|
      invariant keep == OwnKeep(p, e, i)
    {
      var s := e[i];
      keep := AddIf(i < p.keepLast, keep, s.id, Recent);
      keep := AddIf(i == 0, keep, s.id, Latest);
      keep := AddIf(s.status == Protected, keep, s.id, ProtectedClass);
      keep := AddIf(s.restoreTested && p.keepLatestRestoreTested, keep, s.id, RestoreTest);
    }
  }

  /** An order of the eligible snapshots that the sort may leave. */
  predicate OrderOf(e: seq<Snapshot>, snaps: seq<Snapshot>) {
    multiset(e) == multiset(EligibleOf(snaps)) && NewestFirst(e)
  }

  /** Planner.Plan, for whatever order the sort leaves equal creation times in. */
  method Plan(p: Policy, b: Buckets, snaps: seq<Snapshot>) returns (d: Decision)
    ensures exists e :: OrderOf(e, snaps) && d == PlanOf(p, b, e)
  {
    var eligible: seq<Snapshot> := [];
    for n := 0 to |snaps|
      invariant eligible == EligibleOf(snaps[..n])
    {
      assert snaps[..n + 1][..n] == snaps[..n];
      if snaps[n].status == Committed || snaps[n].status == Protected {
        eligible := eligible + [snaps[n]];
      }
    }
    assert snaps[..|snaps|] == snaps;
    eligible := SortNewestFirst(eligible);
    ghost var e := eligible;
    var keep := OwnPass(p, eligible);
    keep := Bucket(eligible, b.day, p.daily, Daily, keep);
    keep := Bucket(eligible, b.week, p.weekly, Weekly, keep);
    keep := Bucket(eligible, b.month, p.monthly, Monthly, keep);
    var tomb: seq<string> := [];
    for i := 0 to |eligible|
      invariant tomb == Unkept(e[..i], keep)
    {
      assert e[..i + 1][..i] == e[..i];
      var id := eligible[i].id;
      if id !in keep || keep[id] == [] {
        tomb := tomb + [id];
      }
    }
    assert e[..|e|] == e;
    d := Decision(keep, tomb);
    assert OrderOf(e, snaps) && d == PlanOf(p, b, e);
  }
}
