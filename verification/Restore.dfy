/** What a restore makes of the objects in a store (restore/service.go): the checks on the
    manifest, then the file content assembled from the chunks. */
module Restore {
  import opened Text
  import opened Hashing
  import opened Merkle
  import opened Chunking
  import opened Digest
  import opened ObjectKeys
  import opened Snapshots
  import opened Repository
  import opened CommitOrder

  datatype Refusal = MissingManifest | MissingSignature | BadSignature | MissingCompletion | BadCompletion
                   | BadManifest | SnapshotMismatch | MissingRoot | RootMismatch
                   | MissingChunk | ChunkAuthentication | BadOffset | NotSqlite | TargetExists | UnknownSnapshot | Fault

  datatype Outcome<+T> = Ok(value: T) | Err(reason: Refusal)

  const SQLITE_HEADER: string := "SQLite format 3\U{0000}"

  function ManifestIds(man: Manifest): (ids: seq<string>)
    ensures |ids| == |man.chunks|
    ensures forall i :: 0 <= i < |ids| ==> ids[i] == man.chunks[i].chunkId
  {
    seq(|man.chunks|, i requires 0 <= i < |man.chunks| => man.chunks[i].chunkId)
  }

  function ManifestSizes(man: Manifest): (sizes: seq<int>)
    ensures |sizes| == |man.chunks|
    ensures forall i :: 0 <= i < |sizes| ==> sizes[i] == man.chunks[i].plaintextSize
  {
    seq(|man.chunks|, i requires 0 <= i < |man.chunks| => man.chunks[i].plaintextSize)
  }

  /** The root check: the Merkle root of the chunk ids or their root digest is the expected one. */
  predicate RootMatches(c: Codec, man: Manifest, expected: string)
    requires Laws(c)
  {
    |c.dedupKey| > 0 && |man.chunks| > 0 ==>
      var treeRoot := RfcTree(c.hash, c.dedupKey, LeafNodes(ManifestIds(man))).hash;
      var digest := MacHex(c.hash, c.dedupKey,
                           RootMessage(man.pageSize, man.logicalSize, ManifestIds(man), ManifestSizes(man)));
      treeRoot != "" && (treeRoot == expected || digest == expected)
  }

  function CheckCompletion(c: Codec, st: Store, key: string, payload: string): (r: Outcome<()>)
    requires Laws(c)
  {
    if key == "" then Ok(())
    else if key !in st then Err(MissingCompletion)
    else
      var comp := c.decodeCompletion(st[key]);
      if comp.None? || comp.value.manifestDigest == "" || comp.value.manifestDigest != ShaHex(c, payload)
      then Err(BadCompletion) else Ok(())
  }

  function ParseManifest(c: Codec, e: Entry, payload: string): (r: Outcome<Manifest>)
    requires Laws(c)
  {
    var m := c.decodeManifest(payload);
    if m.None? then Err(BadManifest)
    else
      var man := m.value;
      if e.snap != "" && man.snapshotId != e.snap then Err(SnapshotMismatch)
      else
        var expected := if man.rootDigest == "" then man.legacyRoot else man.rootDigest;
        if expected == "" then Err(MissingRoot)
        else if !RootMatches(c, man, expected) then Err(RootMismatch)
        else Ok(man)
  }

  /** readAndVerifyManifest */
  function ReadManifest(c: Codec, st: Store, e: Entry): (r: Outcome<Manifest>)
    requires Laws(c)
  {
    if e.manifestKey !in st then Err(MissingManifest)
    else
      var payload := st[e.manifestKey];
      var sigKey := SigKeyFor(e.manifestKey, e.source, e.snap);
      if sigKey !in st then Err(MissingSignature)
      else if !c.verify(payload, st[sigKey]) then Err(BadSignature)
      else
        var comp := CheckCompletion(c, st, e.completionKey, payload);
        if comp.Err? then Err(comp.reason) else ParseManifest(c, e, payload)
  }

  /** The plaintext of one chunk the manifest names. */
  function ReadChunk(c: Codec, st: Store, man: Manifest, ch: ChunkInfo): (r: Outcome<string>)
    requires Laws(c)
  {
    if ch.objectKey !in st then Err(MissingChunk)
    else
      var plain := OpenChunk(c, ch.chunkId, st[ch.objectKey]);
      if plain.None? then Err(ChunkAuthentication)
      else if |c.dedupKey| > 0 && man.pageSize > 0
              && ChunkID(c.hash, c.dedupKey, man.pageSize, plain.value) != ch.chunkId
      then Err(ChunkAuthentication)
      else if ch.pageStart * man.pageSize < 0 then Err(BadOffset)
      else Ok(plain.value)
  }

  /** The file after the chunks from index i on are written. */
  function WriteFrom(c: Codec, st: Store, man: Manifest, file: string, i: nat): (r: Outcome<string>)
    requires Laws(c) && i <= |man.chunks|
    decreases |man.chunks| - i
  {
    if i == |man.chunks| then Ok(file)
    else
      var plain := ReadChunk(c, st, man, man.chunks[i]);
      if plain.Err? then plain
      else WriteFrom(c, st, man, WriteAt(file, man.chunks[i].pageStart * man.pageSize, plain.value), i + 1)
  }

  function InitialFile(man: Manifest): string {
    if man.logicalSize > 0 then Zeros(man.logicalSize) else ""
  }

  predicate HeaderOk(engine: string, file: string) {
    engine == "" || engine == "sqlite" ==> SQLITE_HEADER <= file
  }

  function RestoredFile(c: Codec, st: Store, man: Manifest): (r: Outcome<string>)
    requires Laws(c)
  {
    var f := WriteFrom(c, st, man, InitialFile(man), 0);
    if f.Ok? && !HeaderOk(man.engine, f.value) then Err(NotSqlite) else f
  }

  /** What a restore of the catalogued snapshot yields. */
  function RestoreOutcome(c: Codec, st: Store, e: Entry): (r: Outcome<string>)
    requires Laws(c)
  {
    var man := ReadManifest(c, st, e);
    if man.Err? then Err(man.reason) else RestoredFile(c, st, man.value)
  }

  // ----- what a restore insists on

  /** The manifest object and its signature are there, and the one verifies the other. */
  predicate Signed(c: Codec, st: Store, e: Entry) {
    var sigKey := SigKeyFor(e.manifestKey, e.source, e.snap);
    e.manifestKey in st && sigKey in st && c.verify(st[e.manifestKey], st[sigKey])
  }

  /** A completion record that the catalogue tracks is there, decodes, and holds the digest of the manifest object. */
  predicate Completed(c: Codec, st: Store, e: Entry)
    requires Laws(c) && e.manifestKey in st
  {
    e.completionKey != "" ==>
      && e.completionKey in st
      && c.decodeCompletion(st[e.completionKey]).Some?
      && c.decodeCompletion(st[e.completionKey]).value.manifestDigest == Hex(c.hash.sha(st[e.manifestKey]))
  }

  /** The manifest names a root digest, and with a dedup key and chunks it is the Merkle root of the chunk ids listed
      or the keyed hash of the sizes and ids listed. */
  predicate Rooted(c: Codec, man: Manifest)
    requires Laws(c)
  {
    var named := if man.rootDigest != "" then man.rootDigest else man.legacyRoot;
    && named != ""
    && (|c.dedupKey| > 0 && |man.chunks| > 0 ==>
          var ids, sizes := ManifestIds(man), ManifestSizes(man);
          var root := RfcTree(c.hash, c.dedupKey, LeafNodes(ids)).hash;
          && root != ""
          && named in {root, Hex(c.hash.mac(c.dedupKey, RootMessage(man.pageSize, man.logicalSize, ids, sizes)))})
  }

  /** Everything a store must hold for its manifest to be used. */
  predicate Genuine(c: Codec, st: Store, e: Entry)
    requires Laws(c)
  {
    && Signed(c, st, e)
    && Completed(c, st, e)
    && var man := c.decodeManifest(st[e.manifestKey]);
       man.Some? && (e.snap != "" ==> man.value.snapshotId == e.snap)
       && Rooted(c, man.value)
  }

  /** The chunk object is there, opens, belongs at no negative offset, and with a dedup key and a page size its
      plaintext has the id listed. */
  predicate GenuineChunk(c: Codec, st: Store, man: Manifest, ch: ChunkInfo)
    requires Laws(c)
  {
    && ch.objectKey in st
    && ch.pageStart * man.pageSize >= 0
    && var plain := OpenChunk(c, ch.chunkId, st[ch.objectKey]);
       && plain.Some?
       && (|c.dedupKey| > 0 && man.pageSize > 0 ==>
             Hex(c.hash.mac(c.dedupKey, ChunkMessage(man.pageSize, plain.value))) == ch.chunkId)
  }

  ghost predicate GenuineChunks(c: Codec, st: Store, man: Manifest)
    requires Laws(c)
  {
    forall j :: 0 <= j < |man.chunks| ==> GenuineChunk(c, st, man, man.chunks[j])
  }

  /** The file begins with the sixteen bytes of a SQLite database, when the engine is SQLite or not named. */
  predicate Headed(engine: string, file: string) {
    engine in {"", "sqlite"} ==> |file| >= 16 && file[..15] == "SQLite format 3" && file[15] as int == 0
  }

  lemma GenuineIsRead(c: Codec, st: Store, e: Entry)
    requires Laws(c)
    ensures ReadManifest(c, st, e).Ok? <==> Genuine(c, st, e)
    ensures Genuine(c, st, e) ==> ReadManifest(c, st, e) == Ok(c.decodeManifest(st[e.manifestKey]).value)
  {
    if Signed(c, st, e) {
      var payload := st[e.manifestKey];
      assert CheckCompletion(c, st, e.completionKey, payload).Ok? <==> Completed(c, st, e);
      ParsedIsRooted(c, e, payload);
    }
  }

  lemma ParsedIsRooted(c: Codec, e: Entry, payload: string)
    requires Laws(c)
    ensures var man := c.decodeManifest(payload);
            && (ParseManifest(c, e, payload).Ok? <==>
                  man.Some? && (e.snap != "" ==> man.value.snapshotId == e.snap) && Rooted(c, man.value))
            && (ParseManifest(c, e, payload).Ok? ==> ParseManifest(c, e, payload) == Ok(man.value))
  {
  }

  lemma HeaderMeans(engine: string, file: string)
    ensures HeaderOk(engine, file) <==> Headed(engine, file)
  {
    if |file| >= 16 {
      assert file[..16] == file[..15] + [file[15]];
    }
  }

  lemma {:induction false} AllRead(c: Codec, st: Store, man: Manifest, file: string, i: nat)
    requires Laws(c) && i <= |man.chunks|
    ensures WriteFrom(c, st, man, file, i).Ok?
       <==> forall j :: i <= j < |man.chunks| ==> GenuineChunk(c, st, man, man.chunks[j])
    ensures WriteFrom(c, st, man, file, i) != Err(NotSqlite)
    decreases |man.chunks| - i
  {
    if i < |man.chunks| {
      var plain := ReadChunk(c, st, man, man.chunks[i]);
      assert plain.Ok? <==> GenuineChunk(c, st, man, man.chunks[i]);
      if plain.Ok? {
        AllRead(c, st, man, WriteAt(file, man.chunks[i].pageStart * man.pageSize, plain.value), i + 1);
      }
    }
  }

  /** Over any store whatever: a restore yields a file only if the manifest is genuine, every chunk it lists is, and
      the file has the header its engine asks for; if the manifest or a chunk is not, it is refused; and if all are,
      only the header can be missing. */
  lemma AcceptedIsGenuine(c: Codec, st: Store, e: Entry)
    requires Laws(c)
    ensures var r := RestoreOutcome(c, st, e);
            && (r.Ok? ==> Genuine(c, st, e)
                          && var man := c.decodeManifest(st[e.manifestKey]).value;
                             GenuineChunks(c, st, man) && Headed(man.engine, r.value))
            && (Genuine(c, st, e) && GenuineChunks(c, st, c.decodeManifest(st[e.manifestKey]).value) ==>
                  r.Ok? || r == Err(NotSqlite))
            && (r == Err(NotSqlite) ==>
                  Genuine(c, st, e) && c.decodeManifest(st[e.manifestKey]).value.engine in {"", "sqlite"})
  {
    GenuineIsRead(c, st, e);
    if Genuine(c, st, e) {
      var man := c.decodeManifest(st[e.manifestKey]).value;
      var f := WriteFrom(c, st, man, InitialFile(man), 0);
      AllRead(c, st, man, InitialFile(man), 0);
      if f.Ok? {
        HeaderMeans(man.engine, f.value);
      }
    }
  }
}
