/** What a backup makes of an artifact: chunk ids, root digest, manifest and the
    objects that are published (backup/service.go, manifest/types.go). */
module Snapshots {
  import opened Wrappers
  import opened Text
  import opened Hashing
  import opened Chunking
  import opened Digest
  import opened ObjectKeys

  const DEFAULT_TARGET: int := 4 * 1024 * 1024

  /** A snapshot artifact: its bytes, the page size its metadata reports, the service's
      target chunk size (0 for the default) and the database engine. */
  datatype Artifact = Artifact(data: string, pageSize: nat, target: int, engine: string)

  datatype ChunkInfo = ChunkInfo(sequence: int, chunkId: string, objectKey: string,
                                 pageStart: int, pageCount: int, plaintextSize: int)

  /** The manifest fields that are read again; `rest` stands for the others. */
  datatype Manifest = Manifest(snapshotId: string, sourceId: string, legacyRoot: string, engine: string,
                               pageSize: int, logicalSize: int, rootDigest: string, chunks: seq<ChunkInfo>,
                               rest: string)

  datatype Completion = Completion(snapshotId: string, manifestDigest: string, committedAt: string)

  /** The repository's configuration and the library functions it uses, as function values.
      Encryption takes a nonce, so one plaintext has many ciphertexts. */
  datatype Codec = Codec(hash: Hash, dedupKey: string, keyVersion: string,
                         compress: string -> string, decompress: string -> Option<string>,
                         encrypt: (string, string, string) -> string, decrypt: (string, string) -> Option<string>,
                         encodeManifest: Manifest -> string, decodeManifest: string -> Option<Manifest>,
                         encodeCompletion: Completion -> string, decodeCompletion: string -> Option<Completion>,
                         sign: string -> string, verify: (string, string) -> bool)

  /** The laws of the libraries: what is written can be read back. */
  ghost predicate Laws(c: Codec) {
    && Lawful(c.hash)
    && (forall x :: c.decompress(c.compress(x)) == Some(x))
    && (forall id, x, nonce :: c.decrypt(id, c.encrypt(id, x, nonce)) == Some(x))
    && (forall m :: c.decodeManifest(c.encodeManifest(m)) == Some(m))
    && (forall m :: c.decodeCompletion(c.encodeCompletion(m)) == Some(m))
    && (forall p :: c.verify(p, c.sign(p)))
  }

  function ArtifactChunks(a: Artifact): seq<PlainChunk> {
    ChunksOf(a.data, a.pageSize, if a.target == 0 then DEFAULT_TARGET else a.target)
  }

  function ChunkIdAt(c: Codec, a: Artifact, i: nat): (id: string)
    requires Laws(c) && i < |ArtifactChunks(a)|
    ensures |id| == 64 && IsHex(id)
  {
    ChunkID(c.hash, c.dedupKey, a.pageSize, ArtifactChunks(a)[i].data)
  }

  function IdsOf(c: Codec, a: Artifact): (ids: seq<string>)
    requires Laws(c)
    ensures |ids| == |ArtifactChunks(a)| && AllHex(ids)
    ensures forall i :: 0 <= i < |ids| ==> ids[i] == ChunkIdAt(c, a, i)
  {
    seq(|ArtifactChunks(a)|, i requires 0 <= i < |ArtifactChunks(a)| => ChunkIdAt(c, a, i))
  }

  function SizesOf(a: Artifact): (sizes: seq<int>)
    ensures |sizes| == |ArtifactChunks(a)|
    ensures forall i :: 0 <= i < |sizes| ==> sizes[i] == |ArtifactChunks(a)[i].data|
  {
    seq(|ArtifactChunks(a)|, i requires 0 <= i < |ArtifactChunks(a)| => |ArtifactChunks(a)[i].data|)
  }

  function RootMessageOf(c: Codec, a: Artifact): string
    requires Laws(c)
  {
    RootMessage(a.pageSize, |a.data|, IdsOf(c, a), SizesOf(a))
  }

  function RootOf(c: Codec, a: Artifact): (root: string)
    requires Laws(c)
    ensures |root| == 64
  {
    MacHex(c.hash, c.dedupKey, RootMessageOf(c, a))
  }

  // ----- equal roots, equal content

  /** The messages hashed while backing up an artifact. */
  ghost function Messages(c: Codec, a: Artifact): set<string>
    requires Laws(c)
  {
    {RootMessageOf(c, a)} + set i | 0 <= i < |ArtifactChunks(a)| :: ChunkMessage(a.pageSize, ArtifactChunks(a)[i].data)
  }

  ghost predicate Collides(c: Codec, a: set<string>, b: set<string>) {
    exists x, y :: x in a && y in b && MacCollision(c.hash, c.dedupKey, x, y)
  }

  lemma SameIdSameChunk(c: Codec, a: Artifact, i: nat, b: Artifact, j: nat)
    requires Laws(c) && i < |ArtifactChunks(a)| && j < |ArtifactChunks(b)|
    requires ChunkIdAt(c, a, i) == ChunkIdAt(c, b, j)
    ensures (a.pageSize == b.pageSize && ArtifactChunks(a)[i].data == ArtifactChunks(b)[j].data)
         || Collides(c, Messages(c, a), Messages(c, b))
  {
    var x := ChunkMessage(a.pageSize, ArtifactChunks(a)[i].data);
    var y := ChunkMessage(b.pageSize, ArtifactChunks(b)[j].data);
    assert x in Messages(c, a) && y in Messages(c, b);
    MacHexEqual(c.hash, c.dedupKey, x, y);
    if x == y {
      ChunkMessageInjective(a.pageSize, ArtifactChunks(a)[i].data, b.pageSize, ArtifactChunks(b)[j].data);
    }
  }

  lemma {:induction false} JoinedSame(a: seq<PlainChunk>, b: seq<PlainChunk>)
    requires |a| == |b| && forall i :: 0 <= i < |a| ==> a[i].data == b[i].data
    ensures Joined(a) == Joined(b)
    decreases |a|
  {
    if a != [] {
      JoinedSame(a[1..], b[1..]);
    }
  }

  lemma JoinedArtifact(a: Artifact)
    requires a.pageSize > 0
    ensures Joined(ArtifactChunks(a)) == a.data
  {
    JoinedChunksFrom(a.data, 0, BufferSize(a.pageSize, if a.target == 0 then DEFAULT_TARGET else a.target), a.pageSize,
                     0, 0);
  }

  /** What a root digest stands for: the page size and the bytes, or only their number when the page size is 0. */
  predicate SameContent(a: Artifact, b: Artifact) {
    a.pageSize == b.pageSize && |a.data| == |b.data| && (a.pageSize > 0 ==> a.data == b.data)
  }

  /** Two artifacts with one root digest have the same page size and the same bytes, whatever
      target chunk sizes they were cut with, or two of the messages hashed for them collide.
      With page size 0 the bytes are not in the digest; see PagelessRoots. */
  lemma SameRootSameContent(c: Codec, a: Artifact, b: Artifact)
    requires Laws(c) && RootOf(c, a) == RootOf(c, b)
    ensures SameContent(a, b) || Collides(c, Messages(c, a), Messages(c, b))
  {
    MacHexEqual(c.hash, c.dedupKey, RootMessageOf(c, a), RootMessageOf(c, b));
    if !Collides(c, Messages(c, a), Messages(c, b)) {
      RootMessageInjective(a.pageSize, |a.data|, IdsOf(c, a), SizesOf(a), b.pageSize, |b.data|, IdsOf(c, b),
                           SizesOf(b));
      forall i | 0 <= i < |ArtifactChunks(a)|
        ensures ArtifactChunks(a)[i].data == ArtifactChunks(b)[i].data
      {
        assert IdsOf(c, a)[i] == IdsOf(c, b)[i];
        SameIdSameChunk(c, a, i, b, i);
      }
      JoinedSame(ArtifactChunks(a), ArtifactChunks(b));
      if a.pageSize > 0 {
        JoinedArtifact(a);
        JoinedArtifact(b);
      }
    }
  }

  /** With page size 0 any two artifacts of one length have one root digest. */
  lemma PagelessRoots(c: Codec, a: Artifact, b: Artifact)
    requires Laws(c) && a.pageSize == b.pageSize == 0 && |a.data| == |b.data|
    ensures RootOf(c, a) == RootOf(c, b)
  {
    assert IdsOf(c, a) == IdsOf(c, b) && SizesOf(a) == SizesOf(b);
  }

  // ----- the published objects

  /** One backup: where it goes, whose it is, and what it was taken from. */
  datatype Info = Info(home: nat, source: string, snap: string, art: Artifact, rest: string)

  function ChunkInfoAt(c: Codec, source: string, a: Artifact, i: nat): ChunkInfo
    requires Laws(c) && i < |ArtifactChunks(a)|
  {
    var ch := ArtifactChunks(a)[i];
    var id := ChunkIdAt(c, a, i);
    ChunkInfo(ch.sequence, id, ChunkKey(source, c.keyVersion, id), ch.pageStart, ch.pageCount, |ch.data|)
  }

  function ChunkInfos(c: Codec, source: string, a: Artifact): (cs: seq<ChunkInfo>)
    requires Laws(c)
    ensures |cs| == |ArtifactChunks(a)|
    ensures forall i :: 0 <= i < |cs| ==> cs[i] == ChunkInfoAt(c, source, a, i)
  {
    seq(|ArtifactChunks(a)|, i requires 0 <= i < |ArtifactChunks(a)| => ChunkInfoAt(c, source, a, i))
  }

  function ManifestOf(c: Codec, info: Info): Manifest
    requires Laws(c)
  {
    Manifest(info.snap, info.source, "", info.art.engine, info.art.pageSize, |info.art.data|,
             RootOf(c, info.art), ChunkInfos(c, info.source, info.art), info.rest)
  }

  function Payload(c: Codec, info: Info): string
    requires Laws(c)
  {
    c.encodeManifest(ManifestOf(c, info))
  }

  function ShaHex(c: Codec, payload: string): (t: string)
    requires Laws(c)
    ensures |t| == 64
  {
    Hex(c.hash.sha(payload))
  }

  function ChunkKeys(chunks: seq<ChunkInfo>): (keys: seq<string>)
    ensures |keys| == |chunks|
    ensures forall i :: 0 <= i < |keys| ==> keys[i] == chunks[i].objectKey
  {
    seq(|chunks|, i requires 0 <= i < |chunks| => chunks[i].objectKey)
  }

  /** The keys a backup writes, in the order it writes them. */
  function KeysOf(c: Codec, info: Info): (keys: seq<string>)
    requires Laws(c)
    ensures |keys| == |ArtifactChunks(info.art)| + 3
  {
    ChunkKeys(ChunkInfos(c, info.source, info.art))
    + [ManifestKey(info.source, info.snap), SigKey(info.source, info.snap), CompleteKey(info.source, info.snap)]
  }

  lemma KeyKinds(c: Codec, info: Info, i: nat)
    requires Laws(c) && Free(info.snap, '/') && i < |KeysOf(c, info)|
    ensures var n := |ArtifactChunks(info.art)|;
            KindOf(KeysOf(c, info)[i])
            == if i < n then ChunkObject(ChunkIdAt(c, info.art, i))
               else if i == n then ManifestObject(info.snap)
               else if i == n + 1 then SigObject(info.snap)
               else CompleteObject(info.snap)
  {
    KindOfSnapshotKeys(info.source, info.snap);
    if i < |ArtifactChunks(info.art)| {
      KindOfChunkKey(info.source, c.keyVersion, ChunkIdAt(c, info.art, i));
    }
  }
}
