/** The object store and the catalogue as the services see them (ports/object_store.go,
    ports/catalogue.go). Every operation may fail, and a failed write may still have taken effect.
    Ghost counters say how many operations failed. */
module Storage {
  import opened Wrappers
  import opened Repository

  datatype HeadResult = Found | NotFound | HeadFailed

  /** Some outcome the caller does not control. */
  method Outcome() returns (b: bool) {
    b := *;
  }

  /** An object store. `failures` counts the failed Gets, Puts and Deletes, `headFailures` the failed Heads. */
  class Bucket {
    var objects: Store
    ghost var failures: nat
    ghost var headFailures: nat

    constructor ()
      ensures objects == map[]
    {
      objects := map[];
    }

    /** Failures of any kind. */
    ghost function Faults(): nat
      reads this
    {
      failures + headFailures
    }

    method Head(key: string) returns (r: HeadResult)
      modifies this`headFailures
      ensures r.Found? ==> key in objects
      ensures r.NotFound? ==> key !in objects
      ensures headFailures == old(headFailures) + if r.HeadFailed? then 1 else 0
    {
      var fails := Outcome();
      r := if fails then HeadFailed else if key in objects then Found else NotFound;
      headFailures := headFailures + if fails then 1 else 0;
    }

    /** None is a missing object or a failure. */
    method Get(key: string) returns (r: Option<string>, failed: bool)
      modifies this`failures
      ensures r == if failed || key !in objects then None else Some(objects[key])
      ensures failures == old(failures) + if failed then 1 else 0
    {
      failed := Outcome();
      r := if !failed && key in objects then Some(objects[key]) else None;
      failures := failures + if failed then 1 else 0;
    }

    /** Put with IfNotExists. */
    method Put(key: string, body: string) returns (ok: bool, ghost lands: bool)
      modifies this`objects, this`failures
      ensures objects == PutInto(old(objects), key, body, ok, lands)
      ensures failures == old(failures) + if ok then 0 else 1
    {
      ok := Outcome();
      var l := Outcome();
      lands := l;
      if key !in objects && (ok || l) {
        objects := objects[key := body];
      }
      failures := failures + if ok then 0 else 1;
    }

    method Delete(key: string) returns (ok: bool, ghost lands: bool)
      modifies this`objects, this`failures
      ensures objects == if ok || lands then old(objects) - {key} else old(objects)
      ensures failures == old(failures) + if ok then 0 else 1
    {
      ok := Outcome();
      var l := Outcome();
      lands := l;
      if ok || l {
        objects := objects - {key};
      }
      failures := failures + if ok then 0 else 1;
    }
  }

  /** The catalogue. `failures` counts the failed reads and writes of one snapshot, `searchFailures` the failed
      searches by root. */
  class Catalogue {
    var entries: map<string, Entry>
    ghost var failures: nat
    ghost var searchFailures: nat

    constructor ()
      ensures entries == map[]
    {
      entries := map[];
    }

    /** None is an unknown snapshot or a failure. */
    method GetSnapshot(snap: string) returns (r: Option<Entry>)
      modifies this`failures
      ensures old(failures) <= failures
      ensures r == if failures > old(failures) || snap !in entries then None else Some(entries[snap])
    {
      var fails := Outcome();
      r := if !fails && snap in entries then Some(entries[snap]) else None;
      failures := failures + if fails then 1 else 0;
    }

    method FindSnapshotByRoot(source: string, root: string) returns (r: Option<Entry>, failed: bool)
      modifies this`searchFailures
      ensures r.Some? ==>
                r.value in entries.Values && r.value.source == source && r.value.root == root && r.value.committed
      ensures !failed ==> (r.Some? <==> HasRoot(entries, source, root))
      ensures failed ==> r.None?
      ensures searchFailures == old(searchFailures) + if failed then 1 else 0
    {
      failed := Outcome();
      searchFailures := searchFailures + if failed then 1 else 0;
      r := None;
      if !failed && HasRoot(entries, source, root) {
        var n :| n in entries && entries[n].source == source && entries[n].root == root && entries[n].committed;
        r := Some(entries[n]);
      }
    }

    /** A failure may come after the entry was recorded. */
    method CreateSnapshot(e: Entry) returns (ok: bool, ghost lands: bool)
      modifies this`entries, this`failures
      ensures entries == if ok || lands then old(entries)[e.snap := e] else old(entries)
      ensures failures == old(failures) + if ok then 0 else 1
    {
      ok := Outcome();
      var l := Outcome();
      lands := l;
      if ok || l {
        entries := entries[e.snap := e];
      }
      failures := failures + if ok then 0 else 1;
    }
  }
}
