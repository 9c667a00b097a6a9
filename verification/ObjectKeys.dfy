/** The object keys of a repository (backup/service.go, replication/service.go,
    restore/service.go) and how they relate to the prefixes that garbage collection lists. */
module ObjectKeys {
  import opened Text

  const CHUNKS_PREFIX: string := "chunks/"
  const SNAPSHOTS_PREFIX: string := "snapshots/"

  predicate HasPrefix(s: string, p: string) {
    p <= s
  }

  predicate HasSuffix(s: string, x: string) {
    |x| <= |s| && s[|s| - |x|..] == x
  }

  function TrimSuffix(s: string, x: string): string {
    if HasSuffix(s, x) then s[..|s| - |x|] else s
  }

  function Pad4(id: string): (p: string)
    ensures |p| >= 4
  {
    if |id| < 4 then seq(4 - |id|, i => '0') + id else id
  }

  function ChunkDir(source: string, keyVersion: string, id: string): string {
    (if source != "" then source + "/chunks/" else "chunks/") + keyVersion + "/" + Pad4(id)[..2] + "/" + Pad4(id)[2..4]
  }

  /** chunkObjectKey */
  function ChunkKey(source: string, keyVersion: string, id: string): string {
    ChunkDir(source, keyVersion, id) + "/" + (id + ".dvchunk")
  }

  function SnapshotDir(source: string, snap: string): string {
    source + "/snapshots" + "/" + snap
  }

  function ManifestKey(source: string, snap: string): string {
    SnapshotDir(source, snap) + "/" + "manifest.json"
  }

  function SigKey(source: string, snap: string): string {
    SnapshotDir(source, snap) + "/" + "manifest.sig"
  }

  function CompleteKey(source: string, snap: string): string {
    SnapshotDir(source, snap) + "/" + "complete.json"
  }

  /** How restore and replication find the signature of a manifest. */
  function SigKeyFor(manifestKey: string, source: string, snap: string): string {
    var k := TrimSuffix(manifestKey, ".json") + ".sig";
    if k == "" || k == ".sig" then SigKey(source, snap) else k
  }

  lemma SigKeyForManifest(source: string, snap: string)
    ensures SigKeyFor(ManifestKey(source, snap), source, snap) == SigKey(source, snap)
  {
    var d := SnapshotDir(source, snap);
    var k := ManifestKey(source, snap);
    assert k == (d + "/manifest") + ".json";
    assert SigKey(source, snap) == (d + "/manifest") + ".sig";
    assert k[..|k| - 5] == d + "/manifest";
  }

  // ----- reading a key back

  function AfterLast(s: string, c: char): (x: string) {
    if s == "" || s[|s| - 1] == c then "" else AfterLast(s[..|s| - 1], c) + [s[|s| - 1]]
  }

  function BeforeLast(s: string, c: char): (x: string) {
    if s == "" then "" else if s[|s| - 1] == c then s[..|s| - 1] else BeforeLast(s[..|s| - 1], c)
  }

  lemma {:induction false} LastOf(a: string, x: string, c: char)
    requires Free(x, c)
    ensures AfterLast(a + [c] + x, c) == x && BeforeLast(a + [c] + x, c) == a
  {
    var s := a + [c] + x;
    if x == "" {
      assert s[..|s| - 1] == a;
    } else {
      LastOf(a, x[..|x| - 1], c);
      assert s[..|s| - 1] == a + [c] + x[..|x| - 1];
    }
  }

  /** What kind of object a key names. */
  datatype Kind = ChunkObject(id: string) | ManifestObject(snap: string) | SigObject(snap: string)
                | CompleteObject(snap: string) | OtherObject

  function KindOf(key: string): Kind {
    var name := AfterLast(key, '/');
    var dir := AfterLast(BeforeLast(key, '/'), '/');
    if name == "manifest.json" then ManifestObject(dir)
    else if name == "manifest.sig" then SigObject(dir)
    else if name == "complete.json" then CompleteObject(dir)
    else if HasSuffix(name, ".dvchunk") then ChunkObject(TrimSuffix(name, ".dvchunk"))
    else OtherObject
  }

  lemma KindOfChunkKey(source: string, keyVersion: string, id: string)
    requires IsHex(id)
    ensures KindOf(ChunkKey(source, keyVersion, id)) == ChunkObject(id)
  {
    var name := id + ".dvchunk";
    LastOf(ChunkDir(source, keyVersion, id), name, '/');
    assert name[|name| - 8..] == ".dvchunk" && name[..|name| - 8] == id;
    assert name[|name| - 1] == 'k';
  }

  lemma KindOfSnapshotKeys(source: string, snap: string)
    requires Free(snap, '/')
    ensures KindOf(ManifestKey(source, snap)) == ManifestObject(snap)
    ensures KindOf(SigKey(source, snap)) == SigObject(snap)
    ensures KindOf(CompleteKey(source, snap)) == CompleteObject(snap)
  {
    var d := SnapshotDir(source, snap);
    LastOf(source + "/snapshots", snap, '/');
    LastOf(d, "manifest.json", '/');
    LastOf(d, "manifest.sig", '/');
    LastOf(d, "complete.json", '/');
  }

  /** The sources whose keys garbage collection never lists as chunks. */
  predicate GoodSource(source: string) {
    source != "" && source != "chunks" && !HasPrefix(source, CHUNKS_PREFIX)
  }

  lemma UnderChunks(source: string, rest: string)
    ensures HasPrefix(source + "/" + rest, CHUNKS_PREFIX) <==> source == "chunks" || HasPrefix(source, CHUNKS_PREFIX)
  {
    var k := source + "/" + rest;
    assert k[|source|] == '/';
    if HasPrefix(k, CHUNKS_PREFIX) {
      assert k[..7] == CHUNKS_PREFIX;
      assert forall i :: 0 <= i < 7 ==> k[i] == CHUNKS_PREFIX[i];
      if |source| >= 7 {
        assert source[..7] == k[..7];
      } else {
        assert |source| == 6;
        assert source == k[..6] == CHUNKS_PREFIX[..6];
      }
    }
    assert source == "chunks" ==> k[..7] == source + "/";
  }

  /** Exactly the chunks of the other sources lie under the prefix that is swept. */
  lemma SweptChunkKeys(source: string, keyVersion: string, id: string)
    ensures HasPrefix(ChunkKey(source, keyVersion, id), CHUNKS_PREFIX) <==> !GoodSource(source)
  {
    var rest := ChunkRest(keyVersion, id);
    ChunkKeyText(source, keyVersion, id);
    if source == "" {
      assert (CHUNKS_PREFIX + rest)[..7] == CHUNKS_PREFIX;
    } else {
      UnderChunks(source, CHUNKS_PREFIX + rest);
    }
  }

  /** A chunk's key after `chunks/`. */
  function ChunkRest(keyVersion: string, id: string): string {
    keyVersion + ("/" + Pad4(id)[..2]) + ("/" + Pad4(id)[2..4]) + ("/" + (id + ".dvchunk"))
  }

  lemma ChunkKeyText(source: string, keyVersion: string, id: string)
    ensures ChunkKey(source, keyVersion, id)
         == (if source == "" then "" else source + "/") + (CHUNKS_PREFIX + ChunkRest(keyVersion, id))
  {
  }

  lemma UnsweptSnapshotKeys(source: string, snap: string)
    requires GoodSource(source)
    ensures !HasPrefix(ManifestKey(source, snap), CHUNKS_PREFIX)
    ensures !HasPrefix(SigKey(source, snap), CHUNKS_PREFIX)
    ensures !HasPrefix(CompleteKey(source, snap), CHUNKS_PREFIX)
  {
    UnsweptSnapshotKey(source, snap, "manifest.json");
    UnsweptSnapshotKey(source, snap, "manifest.sig");
    UnsweptSnapshotKey(source, snap, "complete.json");
  }

  lemma UnsweptSnapshotKey(source: string, snap: string, name: string)
    requires GoodSource(source)
    ensures !HasPrefix(SnapshotDir(source, snap) + "/" + name, CHUNKS_PREFIX)
  {
    var rest := "snapshots/" + snap + "/" + name;
    assert SnapshotDir(source, snap) + "/" + name == source + "/" + rest;
    UnderChunks(source, rest);
  }
}
