/** What the retention planner promises: who is kept and why, and that pruning early
    or late makes no difference. */
module RetentionLaws {
  import opened Sequences
  import opened Retention

  // ----- the classes of one snapshot, said without order or loops

  /** The bucket names of the snapshots newer than x. */
  ghost function NewerKeys<K>(all: set<Snapshot>, key: int -> K, x: Snapshot): set<K> {
    set y | y in all && y.createdAt > x.createdAt :: key(y.createdAt)
  }

  /** x is the newest of its bucket, and fewer than `max` distinct buckets are newer. */
  ghost predicate KeepsBy<K>(all: set<Snapshot>, key: int -> K, max: int, x: Snapshot) {
    key(x.createdAt) !in NewerKeys(all, key, x) && |NewerKeys(all, key, x)| < max
  }

  /** With one bucket for each moment, KeepsBy is "fewer than `max` snapshots are newer". */
  function Moment(t: int): int {
    t
  }

  function Given(given: bool, c: Class): seq<Class> {
    if given then [c] else []
  }

  ghost function ClassesOf(p: Policy, b: Buckets, all: set<Snapshot>, x: Snapshot): seq<Class> {
    Given(KeepsBy(all, Moment, p.keepLast, x), Recent)
    + Given(KeepsBy(all, Moment, 1, x), Latest)
    + Given(x.status == Protected, ProtectedClass)
    + Given(x.restoreTested && p.keepLatestRestoreTested, RestoreTest)
    + Given(KeepsBy(all, b.day, p.daily, x), Daily)
    + Given(KeepsBy(all, b.week, p.weekly, x), Weekly)
    + Given(KeepsBy(all, b.month, p.monthly, x), Monthly)
  }

  function ToSet(e: seq<Snapshot>): set<Snapshot> {
    set s | s in e
  }

  /** A proper order: newest first, no two at one time, no two with one id. */
  predicate Proper(e: seq<Snapshot>) {
    NewestFirst(e) && DistinctTimes(e) && UniqueIds(e)
  }

  // ----- from the planner's loops to those classes

  function Get(keep: Keep, id: string): seq<Class> {
    if id in keep then keep[id] else []
  }

  function Ids(e: seq<Snapshot>): set<string> {
    set i | 0 <= i < |e| :: e[i].id
  }

  /** `keep` names only the given ids, and none without a class. */
  ghost predicate Tidy(keep: Keep, ids: set<string>) {
    keep.Keys <= ids && forall id :: id in keep ==> keep[id] != []
  }

  lemma AddIfTidy(given: bool, keep: Keep, who: string, c: Class, ids: set<string>)
    requires Tidy(keep, ids) && who in ids
    ensures Tidy(AddIf(given, keep, who, c), ids)
  {
  }

  lemma {:induction false} BucketTidy(e: seq<Snapshot>, key: int -> string, max: int, c: Class, keep: Keep, n: nat)
    requires n <= |e| && Tidy(keep, Ids(e))
    ensures Tidy(BucketKeep(e, key, max, c, keep, n), Ids(e))
  {
    if n > 0 {
      BucketTidy(e, key, max, c, keep, n - 1);
      var before := BucketKeep(e, key, max, c, keep, n - 1);
      AddIfTidy(OpensBucket(e, key, max, n - 1), before, e[n - 1].id, c, Ids(e));
    }
  }

  lemma {:induction false} OwnTidy(p: Policy, e: seq<Snapshot>, n: nat)
    requires n <= |e|
    ensures Tidy(OwnKeep(p, e, n), Ids(e))
  {
    if n > 0 {
      OwnTidy(p, e, n - 1);
      var s, keep, ids := e[n - 1], OwnKeep(p, e, n - 1), Ids(e);
      var k1 := AddIf(n - 1 < p.keepLast, keep, s.id, Recent);
      var k2 := AddIf(n - 1 == 0, k1, s.id, Latest);
      var k3 := AddIf(s.status == Protected, k2, s.id, ProtectedClass);
      AddIfTidy(n - 1 < p.keepLast, keep, s.id, Recent, ids);
      AddIfTidy(n - 1 == 0, k1, s.id, Latest, ids);
      AddIfTidy(s.status == Protected, k2, s.id, ProtectedClass, ids);
      AddIfTidy(s.restoreTested && p.keepLatestRestoreTested, k3, s.id, RestoreTest, ids);
    }
  }

  lemma PlanTidy(p: Policy, b: Buckets, e: seq<Snapshot>)
    ensures Tidy(PlanOf(p, b, e).keep, Ids(e))
  {
    var n := |e|;
    var own := OwnKeep(p, e, n);
    var day := BucketKeep(e, b.day, p.daily, Daily, own, n);
    var week := BucketKeep(e, b.week, p.weekly, Weekly, day, n);
    OwnTidy(p, e, n);
    BucketTidy(e, b.day, p.daily, Daily, own, n);
    BucketTidy(e, b.week, p.weekly, Weekly, day, n);
    BucketTidy(e, b.month, p.monthly, Monthly, week, n);
  }

  lemma AddIfClasses(given: bool, keep: Keep, who: string, c: Class, id: string)
    ensures Get(AddIf(given, keep, who, c), id) == Get(keep, id) + Given(given && who == id, c)
  {
  }

  lemma {:induction false} BucketClasses(e: seq<Snapshot>, key: int -> string, max: int, c: Class, keep: Keep, n: nat,
                                         i: nat)
    requires UniqueIds(e) && n <= |e| && i < |e|
    ensures Get(BucketKeep(e, key, max, c, keep, n), e[i].id)
         == Get(keep, e[i].id) + Given(i < n && OpensBucket(e, key, max, i), c)
  {
    if n > 0 {
      BucketClasses(e, key, max, c, keep, n - 1, i);
      BucketStep(e, BucketKeep(e, key, max, c, keep, n - 1), OpensBucket(e, key, max, n - 1), c, n - 1, i,
                 Get(keep, e[i].id), OpensBucket(e, key, max, i));
    }
  }

  /** One turn of `bucket`, with what snapshot i had before and whether it opens its bucket. */
  lemma BucketStep(e: seq<Snapshot>, keep: Keep, opens: bool, c: Class, n: nat, i: nat, had: seq<Class>, given: bool)
    requires UniqueIds(e) && n < |e| && i < |e| && (i == n ==> opens == given)
    requires Get(keep, e[i].id) == had + Given(i < n && given, c)
    ensures Get(AddIf(opens, keep, e[n].id, c), e[i].id) == had + Given(i < n + 1 && given, c)
  {
    AddIfClasses(opens, keep, e[n].id, c, e[i].id);
    if i == n {
      AddNothing(had, [], Given(given, c));
    } else {
      assert e[n].id != e[i].id;
      AddNothing(had, Given(i < n && given, c), []);
    }
  }

  lemma AddNothing<T>(a: seq<T>, b: seq<T>, c: seq<T>)
    requires b == [] || c == []
    ensures a + b + c == if b == [] then a + c else a + b
  {
  }

  function OwnClasses(p: Policy, e: seq<Snapshot>, i: nat): seq<Class>
    requires i < |e|
  {
    Given(i < p.keepLast, Recent) + Given(i == 0, Latest) + Given(e[i].status == Protected, ProtectedClass)
    + Given(e[i].restoreTested && p.keepLatestRestoreTested, RestoreTest)
  }

  lemma Associate<T>(a: seq<T>, b: seq<T>, c: seq<T>, d: seq<T>, e: seq<T>)
    ensures a + b + c + d + e == a + (b + c + d + e)
  {
  }

  function FourGivens(g1: bool, g2: bool, g3: bool, g4: bool): seq<Class> {
    Given(g1, Recent) + Given(g2, Latest) + Given(g3, ProtectedClass) + Given(g4, RestoreTest)
  }

  lemma AddFour(keep: Keep, who: string, id: string, g1: bool, g2: bool, g3: bool, g4: bool)
    ensures var k1 := AddIf(g1, keep, who, Recent);
            var k2 := AddIf(g2, k1, who, Latest);
            var k3 := AddIf(g3, k2, who, ProtectedClass);
            Get(AddIf(g4, k3, who, RestoreTest), id)
            == Get(keep, id) + if who == id then FourGivens(g1, g2, g3, g4) else []
  {
    var k1 := AddIf(g1, keep, who, Recent);
    var k2 := AddIf(g2, k1, who, Latest);
    var k3 := AddIf(g3, k2, who, ProtectedClass);
    AddIfClasses(g1, keep, who, Recent, id);
    AddIfClasses(g2, k1, who, Latest, id);
    AddIfClasses(g3, k2, who, ProtectedClass, id);
    AddIfClasses(g4, k3, who, RestoreTest, id);
    if who == id {
      Associate(Get(keep, id), Given(g1, Recent), Given(g2, Latest), Given(g3, ProtectedClass), Given(g4, RestoreTest));
    }
  }

  lemma OwnStepClasses(p: Policy, e: seq<Snapshot>, keep: Keep, i: nat, id: string)
    requires i < |e|
    ensures Get(OwnStep(p, e, keep, i), id) == Get(keep, id) + if e[i].id == id then OwnClasses(p, e, i) else []
  {
    var s := e[i];
    AddFour(keep, s.id, id, i < p.keepLast, i == 0, s.status == Protected,
            s.restoreTested && p.keepLatestRestoreTested);
  }

  lemma OwnStepOwn(p: Policy, e: seq<Snapshot>, keep: Keep, n: nat, i: nat)
    requires UniqueIds(e) && n < |e| && i < |e| && Get(keep, e[i].id) == if i < n then OwnClasses(p, e, i) else []
    ensures Get(OwnStep(p, e, keep, n), e[i].id) == if i < n + 1 then OwnClasses(p, e, i) else []
  {
    OwnStepClasses(p, e, keep, n, e[i].id);
    if i == n {
      AddNothing([], [], OwnClasses(p, e, i));
    } else {
      assert e[n].id != e[i].id;
    }
  }

  lemma {:induction false} OwnKeepClasses(p: Policy, e: seq<Snapshot>, n: nat, i: nat)
    requires UniqueIds(e) && n <= |e| && i < |e|
    ensures Get(OwnKeep(p, e, n), e[i].id) == if i < n then OwnClasses(p, e, i) else []
  {
    if n == 0 {
      assert OwnKeep(p, e, n) == map[];
    } else {
      OwnKeepClasses(p, e, n - 1, i);
      OwnStepOwn(p, e, OwnKeep(p, e, n - 1), n - 1, i);
    }
  }

  /** Snapshot i comes first of those created at its moment. */
  predicate Leads(e: seq<Snapshot>, i: nat)
    requires i < |e|
  {
    forall j :: 0 <= j < i ==> e[j].createdAt != e[i].createdAt
  }

  /** Before the first snapshot of a moment come exactly the newer ones. */
  lemma NewerAreBefore<K>(e: seq<Snapshot>, key: int -> K, i: nat)
    requires NewestFirst(e) && i < |e| && Leads(e, i)
    ensures NewerKeys(ToSet(e), key, e[i]) == KeysBefore(e, key, i)
  {
    forall k | k in NewerKeys(ToSet(e), key, e[i]) ensures k in KeysBefore(e, key, i) {
      var y :| y in ToSet(e) && y.createdAt > e[i].createdAt && key(y.createdAt) == k;
      var j :| 0 <= j < |e| && e[j] == y;
      assert j < i;
    }
    forall k | k in KeysBefore(e, key, i) ensures k in NewerKeys(ToSet(e), key, e[i]) {
      var j :| 0 <= j < i && key(e[j].createdAt) == k;
      assert e[j] in ToSet(e);
    }
  }

  /** A bucket is opened by the first of its newest snapshots, if few enough buckets are newer. */
  lemma OpensExactly(e: seq<Snapshot>, key: int -> string, max: int, i: nat)
    requires NewestFirst(e) && i < |e|
    ensures OpensBucket(e, key, max, i) <==> Leads(e, i) && KeepsBy(ToSet(e), key, max, e[i])
  {
    if Leads(e, i) {
      NewerAreBefore(e, key, i);
    } else {
      var j :| 0 <= j < i && e[j].createdAt == e[i].createdAt;
      assert key(e[j].createdAt) in KeysBefore(e, key, i);
    }
  }

  /** The classes of the snapshot in place i. Those of the buckets depend on the order only
      where several snapshots were created at one moment. */
  ghost function PlaceClasses(p: Policy, b: Buckets, e: seq<Snapshot>, i: nat): seq<Class>
    requires i < |e|
  {
    var all, x := ToSet(e), e[i];
    Given(i < p.keepLast, Recent)
    + Given(i == 0, Latest)
    + Given(x.status == Protected, ProtectedClass)
    + Given(x.restoreTested && p.keepLatestRestoreTested, RestoreTest)
    + Given(Leads(e, i) && KeepsBy(all, b.day, p.daily, x), Daily)
    + Given(Leads(e, i) && KeepsBy(all, b.week, p.weekly, x), Weekly)
    + Given(Leads(e, i) && KeepsBy(all, b.month, p.monthly, x), Monthly)
  }

  /** Every class of every snapshot, for whatever order the sort leaves: the planner's `keep`
      map says exactly PlaceClasses. */
  lemma PlanClasses(p: Policy, b: Buckets, e: seq<Snapshot>, i: nat)
    requires NewestFirst(e) && UniqueIds(e) && i < |e|
    ensures Get(PlanOf(p, b, e).keep, e[i].id) == PlaceClasses(p, b, e, i)
  {
    var n := |e|;
    var own := OwnKeep(p, e, n);
    var day := BucketKeep(e, b.day, p.daily, Daily, own, n);
    var week := BucketKeep(e, b.week, p.weekly, Weekly, day, n);
    OwnKeepClasses(p, e, n, i);
    BucketClasses(e, b.day, p.daily, Daily, own, n, i);
    BucketClasses(e, b.week, p.weekly, Weekly, day, n, i);
    BucketClasses(e, b.month, p.monthly, Monthly, week, n, i);
    OpensExactly(e, b.day, p.daily, i);
    OpensExactly(e, b.week, p.weekly, i);
    OpensExactly(e, b.month, p.monthly, i);
  }

  lemma {:induction false} UnkeptIds(e: seq<Snapshot>, keep: Keep, id: string)
    ensures id in Unkept(e, keep) <==> (id in Ids(e) && Get(keep, id) == [])
  {
    if e != [] {
      var front, last := e[..|e| - 1], e[|e| - 1].id;
      UnkeptIds(front, keep, id);
      assert forall i :: 0 <= i < |front| ==> front[i] == e[i];
      assert Ids(e) == Ids(front) + {last};
    }
  }

  /** The plan of any order the Plan method may leave: every snapshot is kept with exactly the
      classes of its place, or is tombstoned for having none, never both; nothing else is named.
      The first, the keepLast first and the protected are never tombstoned. */
  lemma PlanDecides(p: Policy, b: Buckets, e: seq<Snapshot>, i: nat)
    requires NewestFirst(e) && UniqueIds(e) && i < |e|
    ensures var d := PlanOf(p, b, e);
            var classes := PlaceClasses(p, b, e, i);
            && (e[i].id in d.keep <==> classes != [])
            && (e[i].id in d.keep ==> d.keep[e[i].id] == classes)
            && (e[i].id in d.tombstone <==> e[i].id !in d.keep)
            && d.keep.Keys <= Ids(e)
            && (i == 0 || i < p.keepLast || e[i].status == Protected ==> e[i].id !in d.tombstone)
  {
    PlanTidy(p, b, e);
    PlanClasses(p, b, e, i);
    UnkeptIds(e, PlanOf(p, b, e).keep, e[i].id);
  }

  // ----- places and ranks

  ghost function Newer(all: set<Snapshot>, x: Snapshot): set<Snapshot> {
    set y | y in all && y.createdAt > x.createdAt
  }

  /** The snapshots that are not older than x, itself included. */
  ghost function NotOlder(all: set<Snapshot>, x: Snapshot): set<Snapshot> {
    set y | y in all && y.createdAt >= x.createdAt
  }

  ghost function Before(e: seq<Snapshot>, i: nat): set<Snapshot>
    requires i <= |e|
  {
    set j | 0 <= j < i :: e[j]
  }

  lemma {:induction false} CountBefore(e: seq<Snapshot>, i: nat)
    requires UniqueIds(e) && i <= |e|
    ensures |Before(e, i)| == i
  {
    if i > 0 {
      CountBefore(e, i - 1);
      assert Before(e, i) == Before(e, i - 1) + {e[i - 1]};
    }
  }

  /** A place lies between the number of newer and the number of not older snapshots. */
  lemma PlaceIsRank(e: seq<Snapshot>, i: nat)
    requires NewestFirst(e) && UniqueIds(e) && i < |e|
    ensures |Newer(ToSet(e), e[i])| <= i < |NotOlder(ToSet(e), e[i])|
  {
    CountBefore(e, i);
    forall y | y in Newer(ToSet(e), e[i]) ensures y in Before(e, i) {
      var j :| 0 <= j < |e| && e[j] == y;
      assert j < i;
    }
    SubsetSize(Newer(ToSet(e), e[i]), Before(e, i));
    CountBefore(e, i + 1);
    SubsetSize(Before(e, i + 1), NotOlder(ToSet(e), e[i]));
  }

  /** The places of x's moment hold the snapshots of that moment. */
  lemma TimeAtRank(e: seq<Snapshot>, x: Snapshot, k: nat)
    requires NewestFirst(e) && UniqueIds(e) && x in e && k < |e|
    requires |Newer(ToSet(e), x)| <= k < |NotOlder(ToSet(e), x)|
    ensures e[k].createdAt == x.createdAt
  {
    if e[k].createdAt > x.createdAt {
      CountBefore(e, k + 1);
      SubsetSize(Before(e, k + 1), Newer(ToSet(e), x));
    } else if e[k].createdAt < x.createdAt {
      forall y | y in NotOlder(ToSet(e), x) ensures y in Before(e, k) {
        var j :| 0 <= j < |e| && e[j] == y;
        assert j < k;
      }
      CountBefore(e, k);
      SubsetSize(NotOlder(ToSet(e), x), Before(e, k));
    }
  }

  /** Kept or tombstoned, and why, in place i. */
  lemma PromiseAt(p: Policy, b: Buckets, e: seq<Snapshot>, i: nat)
    requires NewestFirst(e) && UniqueIds(e) && i < |e|
    ensures var d := PlanOf(p, b, e);
            && (e[i].id in d.keep <==> e[i].id !in d.tombstone)
            && (e[i].id in d.keep <==> Get(d.keep, e[i].id) != [])
            && (e[i].status == Protected ==> e[i].id in d.keep)
            && OwnReasons(p, ToSet(e), d.keep, e[i])
  {
    var keep := PlanOf(p, b, e).keep;
    PlanDecides(p, b, e, i);
    PlaceHas(p, b, e, i);
    assert Get(keep, e[i].id) == PlaceClasses(p, b, e, i);
    assert HasReason(p, b, e, i, Recent) <==> i < p.keepLast;
    assert HasReason(p, b, e, i, Latest) <==> i == 0;
    assert HasReason(p, b, e, i, ProtectedClass) <==> e[i].status == Protected;
    assert HasReason(p, b, e, i, RestoreTest) <==> e[i].restoreTested && p.keepLatestRestoreTested;
    PlaceIsRank(e, i);
    assert NotOlder(ToSet(e), e[i]) == (NotOlder(ToSet(e), e[i]) - {e[i]}) + {e[i]};
  }

  lemma NamesOnly(p: Policy, b: Buckets, e: seq<Snapshot>, id: string)
    requires id in PlanOf(p, b, e).keep || id in PlanOf(p, b, e).tombstone
    ensures id in Ids(e)
  {
    PlanTidy(p, b, e);
    UnkeptIds(e, PlanOf(p, b, e).keep, id);
  }

  /** The ids of some snapshots. */
  ghost function IdsOf(all: set<Snapshot>): set<string> {
    set x | x in all :: x.id
  }

  /** A class was given to exactly one snapshot of each counted bucket, one of its newest, and to no other: those
      that have it are the newest of a bucket with fewer than `max` newer ones, every such bucket has one, and no
      bucket has two. */
  ghost predicate OnePerBucket(all: set<Snapshot>, keep: Keep, key: int -> string, max: int, c: Class) {
    && (forall x :: x in all && c in Get(keep, x.id) ==> KeepsBy(all, key, max, x))
    && (forall x :: x in all && KeepsBy(all, key, max, x) ==> SomeHas(all, keep, x.createdAt, c))
    && (forall x, y :: Both(all, keep, x, y, c) && key(x.createdAt) == key(y.createdAt) ==> x == y)
  }

  ghost predicate Both(all: set<Snapshot>, keep: Keep, x: Snapshot, y: Snapshot, c: Class) {
    x in all && y in all && c in Get(keep, x.id) && c in Get(keep, y.id)
  }

  /** A snapshot of this moment has the class. */
  ghost predicate SomeHas(all: set<Snapshot>, keep: Keep, t: int, c: Class) {
    exists y :: y in all && y.createdAt == t && c in Get(keep, y.id)
  }

  /** The snapshot in place i has the class exactly when it leads its moment and the rule keeps that moment. */
  ghost predicate LedBy(e: seq<Snapshot>, keep: Keep, key: int -> string, max: int, c: Class) {
    forall i :: 0 <= i < |e| ==> (c in Get(keep, e[i].id) <==> Leads(e, i) && KeepsBy(ToSet(e), key, max, e[i]))
  }

  lemma BucketsLed(p: Policy, b: Buckets, e: seq<Snapshot>)
    requires NewestFirst(e) && UniqueIds(e)
    ensures var keep := PlanOf(p, b, e).keep;
            && LedBy(e, keep, b.day, p.daily, Daily) && LedBy(e, keep, b.week, p.weekly, Weekly)
            && LedBy(e, keep, b.month, p.monthly, Monthly)
  {
    var keep := PlanOf(p, b, e).keep;
    forall i | 0 <= i < |e|
      ensures Daily in Get(keep, e[i].id) <==> Leads(e, i) && KeepsBy(ToSet(e), b.day, p.daily, e[i])
      ensures Weekly in Get(keep, e[i].id) <==> Leads(e, i) && KeepsBy(ToSet(e), b.week, p.weekly, e[i])
      ensures Monthly in Get(keep, e[i].id) <==> Leads(e, i) && KeepsBy(ToSet(e), b.month, p.monthly, e[i])
    {
      HasAt(p, b, e, i, keep);
    }
  }

  lemma HasAt(p: Policy, b: Buckets, e: seq<Snapshot>, i: nat, keep: Keep)
    requires NewestFirst(e) && UniqueIds(e) && i < |e| && keep == PlanOf(p, b, e).keep
    ensures Daily in Get(keep, e[i].id) <==> Leads(e, i) && KeepsBy(ToSet(e), b.day, p.daily, e[i])
    ensures Weekly in Get(keep, e[i].id) <==> Leads(e, i) && KeepsBy(ToSet(e), b.week, p.weekly, e[i])
    ensures Monthly in Get(keep, e[i].id) <==> Leads(e, i) && KeepsBy(ToSet(e), b.month, p.monthly, e[i])
  {
    PlanClasses(p, b, e, i);
    PlaceHas(p, b, e, i);
    assert HasReason(p, b, e, i, Daily) <==> Leads(e, i) && KeepsBy(ToSet(e), b.day, p.daily, e[i]);
    assert HasReason(p, b, e, i, Weekly) <==> Leads(e, i) && KeepsBy(ToSet(e), b.week, p.weekly, e[i]);
    assert HasReason(p, b, e, i, Monthly) <==> Leads(e, i) && KeepsBy(ToSet(e), b.month, p.monthly, e[i]);
  }

  /** The first snapshot of the moment of place i. */
  lemma FirstOfMoment(e: seq<Snapshot>, i: nat) returns (k: nat)
    requires i < |e|
    ensures k < |e| && e[k].createdAt == e[i].createdAt && Leads(e, k)
    decreases i
  {
    if Leads(e, i) {
      k := i;
    } else {
      var j: nat :| j < i && e[j].createdAt == e[i].createdAt;
      k := FirstOfMoment(e, j);
    }
  }

  /** The bucket rules see only the creation time. */
  lemma SameRule(all: set<Snapshot>, key: int -> string, max: int, x: Snapshot, y: Snapshot)
    requires x.createdAt == y.createdAt
    ensures KeepsBy(all, key, max, x) == KeepsBy(all, key, max, y)
  {
    assert NewerKeys(all, key, x) == NewerKeys(all, key, y);
  }

  lemma LedIsOnePerBucket(e: seq<Snapshot>, keep: Keep, key: int -> string, max: int, c: Class)
    requires LedBy(e, keep, key, max, c)
    ensures OnePerBucket(ToSet(e), keep, key, max, c)
  {
    var all := ToSet(e);
    forall x | x in all && KeepsBy(all, key, max, x) ensures SomeHas(all, keep, x.createdAt, c) {
      var i :| 0 <= i < |e| && e[i] == x;
      var k := FirstOfMoment(e, i);
      SameRule(all, key, max, x, e[k]);
      assert e[k] in all;
    }
    forall x, y | Both(all, keep, x, y, c) && key(x.createdAt) == key(y.createdAt) ensures x == y {
      var i :| 0 <= i < |e| && e[i] == x;
      var j :| 0 <= j < |e| && e[j] == y;
      OneLeader(e, key, max, i, j);
    }
  }

  /** Two leaders that one rule keeps have different buckets. */
  lemma OneLeader(e: seq<Snapshot>, key: int -> string, max: int, i: nat, j: nat)
    requires i < |e| && j < |e| && Leads(e, i) && Leads(e, j) && key(e[i].createdAt) == key(e[j].createdAt)
    requires KeepsBy(ToSet(e), key, max, e[i]) && KeepsBy(ToSet(e), key, max, e[j])
    ensures i == j
  {
    NewerHasKey(ToSet(e), key, e[i], e[j]);
    NewerHasKey(ToSet(e), key, e[j], e[i]);
  }

  lemma NewerHasKey(all: set<Snapshot>, key: int -> string, x: Snapshot, y: Snapshot)
    requires x in all
    ensures x.createdAt > y.createdAt ==> key(x.createdAt) in NewerKeys(all, key, y)
  {
  }

  /** The snapshots that have a class. */
  ghost function Having(all: set<Snapshot>, keep: Keep, c: Class): set<Snapshot> {
    set x | x in all && c in Get(keep, x.id)
  }

  /** Why a committed or protected snapshot has each of the classes that are not of buckets. Where creation times tie,
      a class by rank is certain for those ahead of every tie and denied to those behind it. */
  ghost predicate OwnReasons(p: Policy, all: set<Snapshot>, keep: Keep, s: Snapshot) {
    var newer, others, classes := |Newer(all, s)|, |NotOlder(all, s) - {s}|, Get(keep, s.id);
    && (ProtectedClass in classes <==> s.status == Protected)
    && (RestoreTest in classes <==> s.restoreTested && p.keepLatestRestoreTested)
    && (others < p.keepLast ==> Recent in classes) && (Recent in classes ==> newer < p.keepLast)
    && (others == 0 ==> Latest in classes) && (Latest in classes ==> newer == 0)
  }

  /** What Plan promises of its result, for any snapshot s it was given and whatever order the sort left. A protected
      snapshot is kept; a committed or protected one is kept or tombstoned and never both; one with any other status is
      neither, and nothing else is named. A snapshot is kept with the classes it has a reason for and none else, of
      which ProtectedClass, RestoreTest, Recent and Latest are its own; exactly `keepLast` snapshots are Recent and one
      is Latest, as far as there are any; and each bucket class is given to exactly one newest snapshot of each
      counted bucket. */
  lemma PlanPromise(p: Policy, b: Buckets, snaps: seq<Snapshot>, d: Decision, s: Snapshot)
    requires UniqueIds(snaps) && s in snaps
    requires exists e :: OrderOf(e, snaps) && d == PlanOf(p, b, e)
    ensures s.status == Protected ==> s.id in d.keep
    ensures s.status in {Committed, Protected} ==> (s.id in d.keep <==> s.id !in d.tombstone)
    ensures s.status !in {Committed, Protected} ==> s.id !in d.keep && s.id !in d.tombstone
    ensures forall id :: id in d.keep || id in d.tombstone ==> id in IdsOf(EligibleSet(snaps))
    ensures s.status in {Committed, Protected} ==>
              (s.id in d.keep <==> Get(d.keep, s.id) != []) && OwnReasons(p, EligibleSet(snaps), d.keep, s)
    ensures var all := EligibleSet(snaps);
            && |Having(all, d.keep, Recent)| == AtMost(p.keepLast, |all|)
            && |Having(all, d.keep, Latest)| == AtMost(1, |all|)
    ensures OnePerBucket(EligibleSet(snaps), d.keep, b.day, p.daily, Daily)
    ensures OnePerBucket(EligibleSet(snaps), d.keep, b.week, p.weekly, Weekly)
    ensures OnePerBucket(EligibleSet(snaps), d.keep, b.month, p.monthly, Monthly)
  {
    var e: seq<Snapshot> :| OrderOf(e, snaps) && d == PlanOf(p, b, e);
    OrderFacts(e, snaps);
    if s.status in {Committed, Protected} {
      assert s in ToSet(e);
      var i :| 0 <= i < |e| && e[i] == s;
      PromiseAt(p, b, e, i);
    }
    NamesEligible(p, b, e);
    OneId(snaps, s);
    RanksCounted(p, b, e);
    BucketsLed(p, b, e);
    LedIsOnePerBucket(e, d.keep, b.day, p.daily, Daily);
    LedIsOnePerBucket(e, d.keep, b.week, p.weekly, Weekly);
    LedIsOnePerBucket(e, d.keep, b.month, p.monthly, Monthly);
  }

  lemma OneId(snaps: seq<Snapshot>, s: Snapshot)
    requires UniqueIds(snaps) && s in snaps
    ensures s.id in IdsOf(EligibleSet(snaps)) ==> s.status in {Committed, Protected}
  {
    if s.id in IdsOf(EligibleSet(snaps)) {
      var x :| x in EligibleSet(snaps) && x.id == s.id;
      var i :| 0 <= i < |snaps| && snaps[i] == s;
      var j :| 0 <= j < |snaps| && snaps[j] == x;
      assert i == j;
    }
  }

  function AtMost(max: int, n: nat): nat {
    if max < 0 then 0 else if max < n then max else n
  }

  /** The first places have the classes by rank. */
  lemma RanksCounted(p: Policy, b: Buckets, e: seq<Snapshot>)
    requires NewestFirst(e) && UniqueIds(e)
    ensures var all, keep := ToSet(e), PlanOf(p, b, e).keep;
            |Having(all, keep, Recent)| == AtMost(p.keepLast, |all|) && |Having(all, keep, Latest)| == AtMost(1, |all|)
  {
    var all, keep := ToSet(e), PlanOf(p, b, e).keep;
    CountBefore(e, |e|);
    assert all == Before(e, |e|);
    forall i | 0 <= i < |e|
      ensures Recent in Get(keep, e[i].id) <==> i < p.keepLast
      ensures Latest in Get(keep, e[i].id) <==> i == 0
    {
      PlanDecides(p, b, e, i);
      PlaceHas(p, b, e, i);
      assert HasReason(p, b, e, i, Recent) <==> i < p.keepLast;
      assert HasReason(p, b, e, i, Latest) <==> i == 0;
    }
    HavingFirst(e, keep, Recent, p.keepLast);
    HavingFirst(e, keep, Latest, 1);
  }

  lemma HavingFirst(e: seq<Snapshot>, keep: Keep, c: Class, max: int)
    requires UniqueIds(e) && forall i :: 0 <= i < |e| ==> (c in Get(keep, e[i].id) <==> i < max)
    ensures |Having(ToSet(e), keep, c)| == AtMost(max, |e|)
  {
    CountBefore(e, AtMost(max, |e|));
    assert Having(ToSet(e), keep, c) == Before(e, AtMost(max, |e|));
  }

  lemma NamesEligible(p: Policy, b: Buckets, e: seq<Snapshot>)
    ensures var d := PlanOf(p, b, e); forall id :: id in d.keep || id in d.tombstone ==> id in IdsOf(ToSet(e))
  {
    assert IdsOf(ToSet(e)) == Ids(e) by {
      assert forall j :: 0 <= j < |e| ==> e[j] in ToSet(e);
    }
    forall id | id in PlanOf(p, b, e).keep || id in PlanOf(p, b, e).tombstone ensures id in Ids(e) {
      NamesOnly(p, b, e, id);
    }
  }

  lemma InEither<T>(a: seq<T>, b: seq<T>, x: T)
    ensures x in a + b <==> x in a || x in b
  {
  }

  lemma SevenGivens(g: seq<bool>, c: Class)
    requires |g| == 7
    ensures var cs := Given(g[0], Recent) + Given(g[1], Latest) + Given(g[2], ProtectedClass) + Given(g[3], RestoreTest)
                      + Given(g[4], Daily) + Given(g[5], Weekly) + Given(g[6], Monthly);
            c in cs <==> match c
                         case Recent => g[0]
                         case Latest => g[1]
                         case ProtectedClass => g[2]
                         case RestoreTest => g[3]
                         case Daily => g[4]
                         case Weekly => g[5]
                         case Monthly => g[6]
  {
    var s2 := Given(g[0], Recent) + Given(g[1], Latest);
    var s3 := s2 + Given(g[2], ProtectedClass);
    var s4 := s3 + Given(g[3], RestoreTest);
    var s5 := s4 + Given(g[4], Daily);
    var s6 := s5 + Given(g[5], Weekly);
    InEither(Given(g[0], Recent), Given(g[1], Latest), c);
    InEither(s2, Given(g[2], ProtectedClass), c);
    InEither(s3, Given(g[3], RestoreTest), c);
    InEither(s4, Given(g[4], Daily), c);
    InEither(s5, Given(g[5], Weekly), c);
    InEither(s6, Given(g[6], Monthly), c);
  }

  /** Why the snapshot in place i has a class. */
  ghost predicate HasReason(p: Policy, b: Buckets, e: seq<Snapshot>, i: nat, c: Class)
    requires i < |e|
  {
    match c
    case Recent => i < p.keepLast
    case Latest => i == 0
    case ProtectedClass => e[i].status == Protected
    case RestoreTest => e[i].restoreTested && p.keepLatestRestoreTested
    case Daily => Leads(e, i) && KeepsBy(ToSet(e), b.day, p.daily, e[i])
    case Weekly => Leads(e, i) && KeepsBy(ToSet(e), b.week, p.weekly, e[i])
    case Monthly => Leads(e, i) && KeepsBy(ToSet(e), b.month, p.monthly, e[i])
  }

  lemma PlaceHas(p: Policy, b: Buckets, e: seq<Snapshot>, i: nat)
    requires i < |e|
    ensures forall c :: c in PlaceClasses(p, b, e, i) <==> HasReason(p, b, e, i, c)
  {
    var g := [i < p.keepLast, i == 0, e[i].status == Protected, e[i].restoreTested && p.keepLatestRestoreTested,
              Leads(e, i) && KeepsBy(ToSet(e), b.day, p.daily, e[i]),
              Leads(e, i) && KeepsBy(ToSet(e), b.week, p.weekly, e[i]),
              Leads(e, i) && KeepsBy(ToSet(e), b.month, p.monthly, e[i])];
    forall c ensures c in PlaceClasses(p, b, e, i) <==> HasReason(p, b, e, i, c) {
      SevenGivens(g, c);
    }
  }

  // ----- distinct creation times

  lemma {:induction false} MomentsBefore(e: seq<Snapshot>, i: nat)
    requires DistinctTimes(e) && i <= |e|
    ensures |KeysBefore(e, Moment, i)| == i
  {
    if i > 0 {
      MomentsBefore(e, i - 1);
      assert KeysBefore(e, Moment, i) == KeysBefore(e, Moment, i - 1) + {e[i - 1].createdAt};
      assert e[i - 1].createdAt !in KeysBefore(e, Moment, i - 1);
    }
  }

  lemma IndexIsRank(e: seq<Snapshot>, max: int, i: nat)
    requires NewestFirst(e) && DistinctTimes(e) && i < |e|
    ensures KeepsBy(ToSet(e), Moment, max, e[i]) <==> i < max
  {
    NewerAreBefore(e, Moment, i);
    MomentsBefore(e, i);
  }

  /** With distinct creation times the classes depend on the set of snapshots alone. */
  lemma ProperDecides(p: Policy, b: Buckets, e: seq<Snapshot>, i: nat)
    requires Proper(e) && i < |e|
    ensures var d := PlanOf(p, b, e);
            var classes := ClassesOf(p, b, ToSet(e), e[i]);
            && (e[i].id in d.keep <==> classes != [])
            && (e[i].id in d.keep ==> d.keep[e[i].id] == classes)
            && (e[i].id in d.tombstone <==> e[i].id !in d.keep)
  {
    PlanDecides(p, b, e, i);
    IndexIsRank(e, p.keepLast, i);
    IndexIsRank(e, 1, i);
  }

  // ----- pruning now or later

  /** The newest snapshot of x's bucket. */
  lemma LeaderOf<K>(all: set<Snapshot>, key: int -> K, x: Snapshot) returns (z: Snapshot)
    requires x in all
    ensures z in all && key(z.createdAt) == key(x.createdAt) && z.createdAt >= x.createdAt
    ensures key(z.createdAt) !in NewerKeys(all, key, z)
    decreases |Newer(all, x)|
  {
    if key(x.createdAt) !in NewerKeys(all, key, x) {
      z := x;
    } else {
      var y :| y in all && y.createdAt > x.createdAt && key(y.createdAt) == key(x.createdAt);
      SmallerSet(Newer(all, y), Newer(all, x), y);
      z := LeaderOf(all, key, y);
    }
  }

  lemma SmallerSet<T>(a: set<T>, b: set<T>, x: T)
    requires a <= b && x in b && x !in a
    ensures |a| < |b|
  {
    SubsetSize(a, b - {x});
  }

  /** A pruned snapshot that led its bucket has `max` kept buckets newer than it. */
  lemma PrunedLeader<K>(all: set<Snapshot>, kept: set<Snapshot>, key: int -> K, max: int, y: Snapshot)
    requires kept <= all && (forall z :: z in all && KeepsBy(all, key, max, z) ==> z in kept)
    requires y in all && y !in kept && key(y.createdAt) !in NewerKeys(all, key, y)
    ensures |NewerKeys(kept, key, y)| >= max
    decreases |Newer(all, y)|
  {
    if z :| z in all && z !in kept && z.createdAt > y.createdAt && key(z.createdAt) !in NewerKeys(all, key, z) {
      SmallerSet(Newer(all, z), Newer(all, y), z);
      PrunedLeader(all, kept, key, max, z);
      SubsetSize(NewerKeys(kept, key, z), NewerKeys(kept, key, y));
    } else {
      forall k | k in NewerKeys(all, key, y) ensures k in NewerKeys(kept, key, y) {
        var w :| w in all && w.createdAt > y.createdAt && key(w.createdAt) == k;
        var z := LeaderOf(all, key, w);
        assert z in kept;
      }
      assert NewerKeys(all, key, y) <= NewerKeys(kept, key, y);
      SubsetSize(NewerKeys(all, key, y), NewerKeys(kept, key, y));
    }
  }

  /** One rule decides alike for a surviving snapshot whether or not the others were pruned first. */
  lemma RuleStable<K>(all: set<Snapshot>, kept: set<Snapshot>, more: set<Snapshot>, key: int -> K, max: int,
                      x: Snapshot)
    requires kept <= all && (forall z :: z in all && KeepsBy(all, key, max, z) ==> z in kept)
    ensures KeepsBy(kept + more, key, max, x) <==> KeepsBy(all + more, key, max, x)
  {
    var few, many := NewerKeys(kept + more, key, x), NewerKeys(all + more, key, x);
    assert few <= many;
    SubsetSize(few, many);
    if |few| < max {
      forall k | k in many ensures k in few {
        var y :| y in all + more && y.createdAt > x.createdAt && key(y.createdAt) == k;
        if y in all {
          var z := LeaderOf(all, key, y);
          if z !in kept {
            PrunedLeader(all, kept, key, max, z);
            SubsetSize(NewerKeys(kept, key, z), few);
          }
        }
      }
      assert few == many;
    }
  }

  /** More snapshots never save one that a rule gives up. */
  lemma RuleMonotone<K>(all: set<Snapshot>, more: set<Snapshot>, key: int -> K, max: int, x: Snapshot)
    requires KeepsBy(all + more, key, max, x)
    ensures KeepsBy(all, key, max, x)
  {
    SubsetSize(NewerKeys(all, key, x), NewerKeys(all + more, key, x));
  }

  /** The committed and the protected snapshots. */
  ghost function EligibleSet(snaps: seq<Snapshot>): set<Snapshot> {
    set s | s in snaps && s.status in {Committed, Protected}
  }

  lemma {:induction false} EligibleFacts(snaps: seq<Snapshot>)
    requires UniqueIds(snaps)
    ensures UniqueIds(EligibleOf(snaps)) && (DistinctTimes(snaps) ==> DistinctTimes(EligibleOf(snaps)))
    ensures forall s :: s in EligibleOf(snaps) <==> s in snaps && Eligible(s)
  {
    if snaps != [] {
      var front := snaps[..|snaps| - 1];
      EligibleFacts(front);
      assert snaps == front + [snaps[|snaps| - 1]];
      assert forall i :: 0 <= i < |EligibleOf(front)| ==> EligibleOf(front)[i] in front;
    }
  }

  lemma {:induction false} OccursOnce(e: seq<Snapshot>, x: Snapshot)
    requires UniqueIds(e)
    ensures multiset(e)[x] <= 1
  {
    if e != [] {
      var front := e[..|e| - 1];
      assert e == front + [e[|e| - 1]];
      OccursOnce(front, x);
    }
  }

  lemma SameMembers(e: seq<Snapshot>, f: seq<Snapshot>, s: Snapshot)
    requires multiset(e) == multiset(f)
    ensures s in e <==> s in f
  {
    assert s in e <==> s in multiset(e);
    assert s in f <==> s in multiset(f);
  }

  lemma OrderSet(e: seq<Snapshot>, snaps: seq<Snapshot>)
    requires OrderOf(e, snaps) && UniqueIds(snaps)
    ensures ToSet(e) == EligibleSet(snaps)
  {
    EligibleFacts(snaps);
    forall s ensures s in ToSet(e) <==> s in EligibleSet(snaps) {
      SameMembers(e, EligibleOf(snaps), s);
    }
  }

  /** Two places of a list are two places of any list with the same members. */
  lemma OrderPair(e: seq<Snapshot>, f: seq<Snapshot>, i: nat, j: nat)
    requires multiset(e) == multiset(f) && UniqueIds(f) && i < j < |e|
    ensures e[i].id != e[j].id && (DistinctTimes(f) ==> e[i].createdAt != e[j].createdAt)
  {
    SameMembers(e, f, e[i]);
    SameMembers(e, f, e[j]);
    var a :| 0 <= a < |f| && f[a] == e[i];
    var b :| 0 <= b < |f| && f[b] == e[j];
    if a == b {
      OccursTwice(e, i, j);
      OccursOnce(f, e[i]);
    }
  }

  lemma OrderFacts(e: seq<Snapshot>, snaps: seq<Snapshot>)
    requires OrderOf(e, snaps) && UniqueIds(snaps)
    ensures UniqueIds(e) && ToSet(e) == EligibleSet(snaps) && (DistinctTimes(snaps) ==> DistinctTimes(e))
  {
    OrderSet(e, snaps);
    EligibleFacts(snaps);
    forall i, j | 0 <= i < j < |e|
      ensures e[i].id != e[j].id && (DistinctTimes(snaps) ==> e[i].createdAt != e[j].createdAt)
    {
      OrderPair(e, EligibleOf(snaps), i, j);
    }
  }

  /** The snapshots a decision does not tombstone. */
  function Prune(snaps: seq<Snapshot>, d: Decision): (r: seq<Snapshot>) {
    if snaps == [] then []
    else
      var last := snaps[|snaps| - 1];
      Prune(snaps[..|snaps| - 1], d) + if last.id in d.tombstone then [] else [last]
  }

  lemma {:induction false} PruneFacts(snaps: seq<Snapshot>, d: Decision, more: seq<Snapshot>)
    requires DistinctTimes(snaps + more) && UniqueIds(snaps + more)
    ensures forall s :: s in Prune(snaps, d) <==> s in snaps && s.id !in d.tombstone
    ensures DistinctTimes(Prune(snaps, d) + more) && UniqueIds(Prune(snaps, d) + more)
  {
    if snaps == [] {
      assert snaps + more == Prune(snaps, d) + more;
    } else {
      var front, last := snaps[..|snaps| - 1], snaps[|snaps| - 1];
      assert snaps + more == front + ([last] + more);
      PruneFacts(front, d, [last] + more);
      assert snaps == front + [last];
      var kept := Prune(front, d);
      if last.id in d.tombstone {
        assert kept + more == Prune(snaps, d) + more;
        Without(kept, last, more);
      } else {
        assert kept + ([last] + more) == Prune(snaps, d) + more;
      }
    }
  }

  lemma Without(a: seq<Snapshot>, x: Snapshot, b: seq<Snapshot>)
    requires DistinctTimes(a + ([x] + b)) && UniqueIds(a + ([x] + b))
    ensures DistinctTimes(a + b) && UniqueIds(a + b)
  {
    var long, short := a + ([x] + b), a + b;
    forall i, j | 0 <= i < j < |short| ensures short[i].createdAt != short[j].createdAt && short[i].id != short[j].id {
      var i' := if i < |a| then i else i + 1;
      var j' := if j < |a| then j else j + 1;
      assert short[i] == long[i'] && short[j] == long[j'] && i' < j';
    }
  }

  lemma ClassesStable(p: Policy, b: Buckets, all: set<Snapshot>, kept: set<Snapshot>, more: set<Snapshot>, x: Snapshot)
    requires kept <= all && forall z :: z in all && ClassesOf(p, b, all, z) != [] ==> z in kept
    ensures ClassesOf(p, b, kept + more, x) == ClassesOf(p, b, all + more, x)
  {
    RuleStable(all, kept, more, Moment, p.keepLast, x);
    RuleStable(all, kept, more, Moment, 1, x);
    RuleStable(all, kept, more, b.day, p.daily, x);
    RuleStable(all, kept, more, b.week, p.weekly, x);
    RuleStable(all, kept, more, b.month, p.monthly, x);
  }

  lemma ClassesMonotone(p: Policy, b: Buckets, all: set<Snapshot>, more: set<Snapshot>, x: Snapshot)
    requires ClassesOf(p, b, all, x) == []
    ensures ClassesOf(p, b, all + more, x) == []
  {
    if KeepsBy(all + more, Moment, p.keepLast, x) { RuleMonotone(all, more, Moment, p.keepLast, x); }
    if KeepsBy(all + more, Moment, 1, x) { RuleMonotone(all, more, Moment, 1, x); }
    if KeepsBy(all + more, b.day, p.daily, x) { RuleMonotone(all, more, b.day, p.daily, x); }
    if KeepsBy(all + more, b.week, p.weekly, x) { RuleMonotone(all, more, b.week, p.weekly, x); }
    if KeepsBy(all + more, b.month, p.monthly, x) { RuleMonotone(all, more, b.month, p.monthly, x); }
  }

  lemma SameKeep(p: Policy, b: Buckets, e1: seq<Snapshot>, e2: seq<Snapshot>)
    requires Proper(e1) && Proper(e2)
    requires forall x :: x in e1 && ClassesOf(p, b, ToSet(e1), x) != [] ==>
               x in e2 && ClassesOf(p, b, ToSet(e2), x) == ClassesOf(p, b, ToSet(e1), x)
    ensures var k1, k2 := PlanOf(p, b, e1).keep, PlanOf(p, b, e2).keep;
            forall id :: id in k1 ==> id in k2 && k2[id] == k1[id]
  {
    var k1, k2 := PlanOf(p, b, e1).keep, PlanOf(p, b, e2).keep;
    PlanTidy(p, b, e1);
    forall id | id in k1 ensures id in k2 && k2[id] == k1[id] {
      var i :| 0 <= i < |e1| && e1[i].id == id;
      ProperDecides(p, b, e1, i);
      var j :| 0 <= j < |e2| && e2[j] == e1[i];
      ProperDecides(p, b, e2, j);
    }
  }

  /** The members of the three lists that are planned. */
  lemma PlannedSets(d: Decision, snaps: seq<Snapshot>, more: seq<Snapshot>,
                    first: seq<Snapshot>, later: seq<Snapshot>, atOnce: seq<Snapshot>)
    requires DistinctTimes(snaps + more) && UniqueIds(snaps + more)
    requires OrderOf(first, snaps) && OrderOf(atOnce, snaps + more) && OrderOf(later, Prune(snaps, d) + more)
    ensures Proper(first) && Proper(later) && Proper(atOnce)
    ensures ToSet(first) == EligibleSet(snaps)
    ensures ToSet(atOnce) == EligibleSet(snaps) + EligibleSet(more)
    ensures ToSet(later) == (set x | x in EligibleSet(snaps) && x.id !in d.tombstone) + EligibleSet(more)
  {
    PrefixDistinct(snaps, more);
    OrderFacts(first, snaps);
    OrderFacts(atOnce, snaps + more);
    PruneFacts(snaps, d, more);
    OrderFacts(later, Prune(snaps, d) + more);
    EligibleSetConcat(snaps, more);
    EligibleSetConcat(Prune(snaps, d), more);
    assert EligibleSet(Prune(snaps, d)) == set x | x in EligibleSet(snaps) && x.id !in d.tombstone;
  }

  lemma PrefixDistinct(a: seq<Snapshot>, b: seq<Snapshot>)
    requires DistinctTimes(a + b) && UniqueIds(a + b)
    ensures DistinctTimes(a) && UniqueIds(a)
  {
    assert forall i :: 0 <= i < |a| ==> a[i] == (a + b)[i];
  }

  lemma EligibleSetConcat(a: seq<Snapshot>, b: seq<Snapshot>)
    ensures EligibleSet(a + b) == EligibleSet(a) + EligibleSet(b)
  {
  }

  /** Dropping what the plan of `first` tombstones changes no class of any snapshot. */
  lemma PrunedClasses(p: Policy, b: Buckets, first: seq<Snapshot>, kept: set<Snapshot>, added: set<Snapshot>,
                      x: Snapshot)
    requires Proper(first) && kept == set y | y in ToSet(first) && y.id !in PlanOf(p, b, first).tombstone
    ensures ClassesOf(p, b, kept + added, x) == ClassesOf(p, b, ToSet(first) + added, x)
    ensures x in first && x !in kept ==> ClassesOf(p, b, ToSet(first) + added, x) == []
  {
    var all := ToSet(first);
    forall y | y in all ensures y in kept <==> ClassesOf(p, b, all, y) != [] {
      var i :| 0 <= i < |first| && first[i] == y;
      ProperDecides(p, b, first, i);
    }
    ClassesStable(p, b, all, kept, added, x);
    if x in all && x !in kept {
      ClassesMonotone(p, b, all, added, x);
    }
  }

  lemma KeepAgrees(p: Policy, b: Buckets, first: seq<Snapshot>, later: seq<Snapshot>, atOnce: seq<Snapshot>,
                   added: set<Snapshot>)
    requires Proper(first) && Proper(later) && Proper(atOnce)
    requires ToSet(atOnce) == ToSet(first) + added
    requires ToSet(later) == (set x | x in ToSet(first) && x.id !in PlanOf(p, b, first).tombstone) + added
    ensures PlanOf(p, b, later).keep == PlanOf(p, b, atOnce).keep
  {
    var kept := set x | x in ToSet(first) && x.id !in PlanOf(p, b, first).tombstone;
    forall x | x in later
      ensures x in atOnce && ClassesOf(p, b, ToSet(atOnce), x) == ClassesOf(p, b, ToSet(later), x)
    {
      assert x in ToSet(later) && x in ToSet(atOnce);
      PrunedClasses(p, b, first, kept, added, x);
    }
    SameKeep(p, b, later, atOnce);
    forall x | x in atOnce && ClassesOf(p, b, ToSet(atOnce), x) != []
      ensures x in later && ClassesOf(p, b, ToSet(later), x) == ClassesOf(p, b, ToSet(atOnce), x)
    {
      assert x in ToSet(atOnce);
      PrunedClasses(p, b, first, kept, added, x);
      assert x in ToSet(later);
    }
    SameKeep(p, b, atOnce, later);
  }

  /** Path independence. Plan the snapshots `snaps`, drop what is tombstoned, let any snapshots
      `more` arrive and plan again: the second plan keeps the same snapshots, each with the same
      classes, as planning everything at once; and nothing tombstoned comes back. */
  lemma PathIndependence(p: Policy, b: Buckets, snaps: seq<Snapshot>, more: seq<Snapshot>,
                         first: seq<Snapshot>, later: seq<Snapshot>, atOnce: seq<Snapshot>)
    requires DistinctTimes(snaps + more) && UniqueIds(snaps + more)
    requires OrderOf(first, snaps) && OrderOf(atOnce, snaps + more)
    requires OrderOf(later, Prune(snaps, PlanOf(p, b, first)) + more)
    ensures PlanOf(p, b, later).keep == PlanOf(p, b, atOnce).keep
    ensures forall id :: id in PlanOf(p, b, first).tombstone ==> id !in PlanOf(p, b, atOnce).keep
  {
    var d := PlanOf(p, b, first);
    PlannedSets(d, snaps, more, first, later, atOnce);
    KeepAgrees(p, b, first, later, atOnce, EligibleSet(more));
    forall id | id in d.tombstone ensures id !in PlanOf(p, b, atOnce).keep {
      StaysTombstoned(p, b, first, atOnce, id);
    }
  }

  lemma StaysTombstoned(p: Policy, b: Buckets, first: seq<Snapshot>, atOnce: seq<Snapshot>, id: string)
    requires Proper(first) && Proper(atOnce) && ToSet(first) <= ToSet(atOnce)
    requires id in PlanOf(p, b, first).tombstone
    ensures id !in PlanOf(p, b, atOnce).keep
  {
    UnkeptIds(first, PlanOf(p, b, first).keep, id);
    var i :| 0 <= i < |first| && first[i].id == id;
    ProperDecides(p, b, first, i);
    assert first[i] in ToSet(first);
    var j :| 0 <= j < |atOnce| && atOnce[j] == first[i];
    ProperDecides(p, b, atOnce, j);
    ClassesMonotone(p, b, ToSet(first), ToSet(atOnce), first[i]);
    assert ToSet(first) + ToSet(atOnce) == ToSet(atOnce);
  }

  // ----- equal creation times

  ghost predicate Tied(all: set<Snapshot>, x: Snapshot) {
    exists y :: y in all && y != x && y.createdAt == x.createdAt
  }

  /** The order of the snapshots of x's moment makes no difference: another moment is the newest,
      the keepLast first places hold all of them or none, and none leads a counted bucket. */
  ghost predicate Settled(p: Policy, b: Buckets, all: set<Snapshot>, x: Snapshot) {
    && Newer(all, x) != {}
    && (|NotOlder(all, x)| <= p.keepLast || p.keepLast <= |Newer(all, x)|)
    && !KeepsBy(all, b.day, p.daily, x) && !KeepsBy(all, b.week, p.weekly, x) && !KeepsBy(all, b.month, p.monthly, x)
  }

  lemma SettledClasses(p: Policy, b: Buckets, e: seq<Snapshot>, i: nat, f: seq<Snapshot>, j: nat)
    requires NewestFirst(e) && UniqueIds(e) && NewestFirst(f) && UniqueIds(f) && ToSet(e) == ToSet(f)
    requires i < |e| && j < |f| && e[i] == f[j]
    requires Tied(ToSet(e), e[i]) ==> Settled(p, b, ToSet(e), e[i])
    ensures PlaceClasses(p, b, e, i) == PlaceClasses(p, b, f, j)
  {
    var all, x := ToSet(e), e[i];
    PlaceIsRank(e, i);
    PlaceIsRank(f, j);
    if !Tied(all, x) {
      assert NotOlder(all, x) == Newer(all, x) + {x};
      assert i == j;
      Untied(e, i);
      Untied(f, j);
    }
  }

  lemma Untied(e: seq<Snapshot>, i: nat)
    requires UniqueIds(e) && i < |e| && !Tied(ToSet(e), e[i])
    ensures Leads(e, i)
  {
    forall j | 0 <= j < i ensures e[j].createdAt != e[i].createdAt {
      assert e[j] in ToSet(e) && e[j].id != e[i].id;
    }
  }

  lemma SameClassesSameKeep(p: Policy, b: Buckets, e: seq<Snapshot>, f: seq<Snapshot>)
    requires NewestFirst(e) && UniqueIds(e) && NewestFirst(f) && UniqueIds(f) && ToSet(e) == ToSet(f)
    requires forall i, j :: 0 <= i < |e| && 0 <= j < |f| && e[i] == f[j] ==>
               PlaceClasses(p, b, e, i) == PlaceClasses(p, b, f, j)
    ensures forall id :: id in PlanOf(p, b, e).keep ==>
              id in PlanOf(p, b, f).keep && PlanOf(p, b, f).keep[id] == PlanOf(p, b, e).keep[id]
  {
    PlanTidy(p, b, e);
    forall id | id in PlanOf(p, b, e).keep
      ensures id in PlanOf(p, b, f).keep && PlanOf(p, b, f).keep[id] == PlanOf(p, b, e).keep[id]
    {
      var i :| 0 <= i < |e| && e[i].id == id;
      assert e[i] in ToSet(f);
      var j :| 0 <= j < |f| && f[j] == e[i];
      PlanDecides(p, b, e, i);
      PlanDecides(p, b, f, j);
    }
  }

  /** Two neighbours changed places. */
  function Swapped(e: seq<Snapshot>, k: nat): seq<Snapshot>
    requires k + 1 < |e|
  {
    e[k := e[k + 1]][k + 1 := e[k]]
  }

  lemma SwappedOrder(e: seq<Snapshot>, k: nat, snaps: seq<Snapshot>)
    requires k + 1 < |e| && OrderOf(e, snaps) && e[k].createdAt == e[k + 1].createdAt
    ensures OrderOf(Swapped(e, k), snaps)
  {
    SwappedMembers(e, k);
    assert forall i :: 0 <= i < |e| ==> Swapped(e, k)[i].createdAt == e[i].createdAt;
  }

  lemma SwappedMembers(e: seq<Snapshot>, k: nat)
    requires k + 1 < |e|
    ensures multiset(Swapped(e, k)) == multiset(e)
  {
    assert e == e[..k] + [e[k], e[k + 1]] + e[k + 2..];
    assert Swapped(e, k) == e[..k] + [e[k + 1], e[k]] + e[k + 2..];
  }

  /** The first of two neighbours of one moment has a class that depends on being first. */
  ghost predicate Depends(p: Policy, b: Buckets, e: seq<Snapshot>, k: nat, c: Class) {
    && k + 1 < |e| && e[k].createdAt == e[k + 1].createdAt && HasReason(p, b, e, k, c)
    && (c == Latest || (c == Recent && k + 1 == p.keepLast) || c == Daily || c == Weekly || c == Monthly)
  }

  /** It loses that class when the two change places. */
  lemma LosesClass(p: Policy, b: Buckets, e: seq<Snapshot>, k: nat, c: Class)
    requires Depends(p, b, e, k, c)
    ensures c in PlaceClasses(p, b, e, k) && c !in PlaceClasses(p, b, Swapped(e, k), k + 1)
  {
    var f := Swapped(e, k);
    PlaceHas(p, b, e, k);
    PlaceHas(p, b, f, k + 1);
    assert f[k].createdAt == f[k + 1].createdAt;
  }

  /** In a tie that is not settled there are two such neighbours. */
  lemma Contested(p: Policy, b: Buckets, e: seq<Snapshot>, x: Snapshot) returns (k: nat, c: Class)
    requires NewestFirst(e) && UniqueIds(e) && x in ToSet(e) && Tied(ToSet(e), x) && !Settled(p, b, ToSet(e), x)
    ensures Depends(p, b, e, k, c)
  {
    var all := ToSet(e);
    var r, g := |Newer(all, x)|, |NotOlder(all, x)|;
    TwoAtLeast(all, x);
    NoMore(e, x);
    if r > 0 && r < p.keepLast < g {
      k, c := p.keepLast - 1, Recent;
      TimeAtRank(e, x, k);
      TimeAtRank(e, x, k + 1);
    } else {
      k := r;
      c := if r == 0 then Latest else if KeepsBy(all, b.day, p.daily, x) then Daily
           else if KeepsBy(all, b.week, p.weekly, x) then Weekly else Monthly;
      FirstOfTie(p, b, e, x);
    }
  }

  lemma FirstOfTie(p: Policy, b: Buckets, e: seq<Snapshot>, x: Snapshot)
    requires NewestFirst(e) && UniqueIds(e) && x in ToSet(e)
    requires |Newer(ToSet(e), x)| + 2 <= |NotOlder(ToSet(e), x)| <= |e|
    ensures var r, all := |Newer(ToSet(e), x)|, ToSet(e);
            && e[r].createdAt == e[r + 1].createdAt && Leads(e, r)
            && KeepsBy(all, b.day, p.daily, x) == KeepsBy(all, b.day, p.daily, e[r])
            && KeepsBy(all, b.week, p.weekly, x) == KeepsBy(all, b.week, p.weekly, e[r])
            && KeepsBy(all, b.month, p.monthly, x) == KeepsBy(all, b.month, p.monthly, e[r])
  {
    var r := |Newer(ToSet(e), x)|;
    TimeAtRank(e, x, r);
    TimeAtRank(e, x, r + 1);
    SameRules(p, b, ToSet(e), x, e[r]);
    RankLeads(e, x);
  }

  lemma NoMore(e: seq<Snapshot>, x: Snapshot)
    requires UniqueIds(e)
    ensures |NotOlder(ToSet(e), x)| <= |e|
  {
    CountBefore(e, |e|);
    assert Before(e, |e|) == ToSet(e);
    SubsetSize(NotOlder(ToSet(e), x), ToSet(e));
  }

  lemma TwoAtLeast(all: set<Snapshot>, x: Snapshot)
    requires x in all && Tied(all, x)
    ensures |NotOlder(all, x)| >= |Newer(all, x)| + 2
  {
    var y :| y in all && y != x && y.createdAt == x.createdAt;
    SubsetSize(Newer(all, x) + {x, y}, NotOlder(all, x));
    assert |Newer(all, x) + {x} + {y}| == |Newer(all, x)| + 2;
    assert Newer(all, x) + {x} + {y} == Newer(all, x) + {x, y};
  }

  lemma SameRules(p: Policy, b: Buckets, all: set<Snapshot>, x: Snapshot, y: Snapshot)
    requires x.createdAt == y.createdAt
    ensures KeepsBy(all, b.day, p.daily, x) == KeepsBy(all, b.day, p.daily, y)
    ensures KeepsBy(all, b.week, p.weekly, x) == KeepsBy(all, b.week, p.weekly, y)
    ensures KeepsBy(all, b.month, p.monthly, x) == KeepsBy(all, b.month, p.monthly, y)
  {
    SameRule(all, b.day, p.daily, x, y);
    SameRule(all, b.week, p.weekly, x, y);
    SameRule(all, b.month, p.monthly, x, y);
  }

  lemma RankLeads(e: seq<Snapshot>, x: Snapshot)
    requires NewestFirst(e) && UniqueIds(e) && |Newer(ToSet(e), x)| < |e|
    requires e[|Newer(ToSet(e), x)|].createdAt == x.createdAt
    ensures Leads(e, |Newer(ToSet(e), x)|)
  {
    var all, r := ToSet(e), |Newer(ToSet(e), x)|;
    forall j | 0 <= j < r ensures e[j].createdAt != e[r].createdAt {
      if e[j].createdAt == x.createdAt {
        forall y | y in Newer(all, x) ensures y in Before(e, j) {
          var m :| 0 <= m < |e| && e[m] == y;
          assert m < j;
        }
        CountBefore(e, j);
        SubsetSize(Newer(all, x), Before(e, j));
      }
    }
  }

  ghost predicate AllSettled(p: Policy, b: Buckets, all: set<Snapshot>) {
    forall x :: x in all && Tied(all, x) ==> Settled(p, b, all, x)
  }

  /** The plan is the same whatever order the sort leaves if and only if every tie is settled. */
  lemma OrderMattersExactly(p: Policy, b: Buckets, snaps: seq<Snapshot>, e: seq<Snapshot>)
    requires UniqueIds(snaps) && OrderOf(e, snaps)
    ensures (forall f :: OrderOf(f, snaps) ==> PlanOf(p, b, f).keep == PlanOf(p, b, e).keep)
       <==> AllSettled(p, b, EligibleSet(snaps))
  {
    if AllSettled(p, b, EligibleSet(snaps)) {
      forall f | OrderOf(f, snaps) ensures PlanOf(p, b, f).keep == PlanOf(p, b, e).keep {
        SettledOrders(p, b, snaps, e, f);
      }
    } else {
      var f := ContestedOrders(p, b, snaps, e);
    }
  }

  lemma ContestedOrders(p: Policy, b: Buckets, snaps: seq<Snapshot>, e: seq<Snapshot>) returns (f: seq<Snapshot>)
    requires UniqueIds(snaps) && OrderOf(e, snaps) && !AllSettled(p, b, EligibleSet(snaps))
    ensures OrderOf(f, snaps) && PlanOf(p, b, f).keep != PlanOf(p, b, e).keep
  {
    var all := EligibleSet(snaps);
    OrderFacts(e, snaps);
    var x :| x in all && Tied(all, x) && !Settled(p, b, all, x);
    var k, c := Contested(p, b, e, x);
    f := Swapped(e, k);
    SwappedOrder(e, k, snaps);
    OrderFacts(f, snaps);
    DifferentKeep(p, b, e, k, c);
  }

  lemma DifferentKeep(p: Policy, b: Buckets, e: seq<Snapshot>, k: nat, c: Class)
    requires Depends(p, b, e, k, c)
    requires NewestFirst(e) && UniqueIds(e) && NewestFirst(Swapped(e, k)) && UniqueIds(Swapped(e, k))
    ensures PlanOf(p, b, Swapped(e, k)).keep != PlanOf(p, b, e).keep
  {
    LosesClass(p, b, e, k, c);
    PlanClasses(p, b, e, k);
    PlanClasses(p, b, Swapped(e, k), k + 1);
  }

  lemma SettledOrders(p: Policy, b: Buckets, snaps: seq<Snapshot>, e: seq<Snapshot>, f: seq<Snapshot>)
    requires UniqueIds(snaps) && OrderOf(e, snaps) && OrderOf(f, snaps) && AllSettled(p, b, EligibleSet(snaps))
    ensures PlanOf(p, b, f).keep == PlanOf(p, b, e).keep
  {
    OrderFacts(e, snaps);
    OrderFacts(f, snaps);
    forall i, j | 0 <= i < |e| && 0 <= j < |f| && e[i] == f[j]
      ensures PlaceClasses(p, b, e, i) == PlaceClasses(p, b, f, j)
    {
      assert e[i] in ToSet(e);
      SettledClasses(p, b, e, i, f, j);
    }
    SameClassesSameKeep(p, b, e, f);
    SameClassesSameKeep(p, b, f, e);
  }

  /** With two snapshots of one moment and one to keep, the plan keeps the one the sort put first. */
  lemma TiesMatter(b: Buckets)
    ensures var p := Policy(1, 0, 0, 0, false);
            var x, y := Snapshot("x", Committed, 0, false), Snapshot("y", Committed, 0, false);
            && OrderOf([x, y], [x, y]) && OrderOf([y, x], [x, y])
            && "x" in PlanOf(p, b, [x, y]).keep && "x" !in PlanOf(p, b, [y, x]).keep
  {
    var p := Policy(1, 0, 0, 0, false);
    var x, y := Snapshot("x", Committed, 0, false), Snapshot("y", Committed, 0, false);
    assert [x, y][..1] == [x] && [x][..0] == [];
    assert EligibleOf([x]) == [x];
    assert EligibleOf([x, y]) == [x, y];
    assert multiset([y, x]) == multiset([x, y]);
    FirstKept(p, b, x, y);
    FirstKept(p, b, y, x);
  }

  lemma FirstKept(p: Policy, b: Buckets, x: Snapshot, y: Snapshot)
    requires p == Policy(1, 0, 0, 0, false) && x.id != y.id && x.status == y.status == Committed
    ensures x.id in PlanOf(p, b, [x, y]).keep && y.id !in PlanOf(p, b, [x, y]).keep
  {
    var e := [x, y];
    OwnKeepClasses(p, e, 2, 0);
    OwnKeepClasses(p, e, 2, 1);
    var own := OwnKeep(p, e, 2);
    OwnTidy(p, e, 2);
    BucketKeepStops(e, b.day, 0, Daily, own, 0, 2);
    BucketKeepStops(e, b.week, 0, Weekly, own, 0, 2);
    BucketKeepStops(e, b.month, 0, Monthly, own, 0, 2);
  }
}
