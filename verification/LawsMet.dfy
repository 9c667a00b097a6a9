/** The laws asked of the hash, compression, encryption, signing and encoding libraries can all be met at once, so
    that nothing proved from them is empty. */
module LawsMet {
  import opened Wrappers
  import opened Text
  import opened Hashing
  import opened Digest
  import opened Snapshots

  // ----- an encoding of lists of strings

  function Field(s: string): string {
    FormatInt(|s|) + ":" + s
  }

  function Fields(fs: seq<string>): string {
    if fs == [] then "" else Field(fs[0]) + Fields(fs[1..])
  }

  lemma FieldSplits(a: string, x: string, b: string, y: string)
    requires Field(a) + x == Field(b) + y
    ensures a == b && x == y
  {
    Regrouped(FormatInt(|a|), a, x);
    Regrouped(FormatInt(|b|), b, y);
    NumberField(|a|, a + x, |b|, b + y, ':');
    SplitAtLength(a, x, b, y);
  }

  lemma Regrouped(n: string, a: string, x: string)
    ensures n + ":" + a + x == n + ":" + (a + x)
  {
  }

  lemma {:induction false} FieldsInjective(f: seq<string>, g: seq<string>)
    requires Fields(f) == Fields(g)
    ensures f == g
  {
    if f != [] && g != [] {
      FieldSplits(f[0], Fields(f[1..]), g[0], Fields(g[1..]));
      FieldsInjective(f[1..], g[1..]);
      assert f == [f[0]] + f[1..] && g == [g[0]] + g[1..];
    }
  }

  // ----- manifests and completion records

  function ChunkFields(ch: ChunkInfo): seq<string> {
    [FormatInt(ch.sequence), ch.chunkId, ch.objectKey, FormatInt(ch.pageStart),
     FormatInt(ch.pageCount), FormatInt(ch.plaintextSize)]
  }

  function ChunksFields(cs: seq<ChunkInfo>): seq<string> {
    if cs == [] then [] else [Fields(ChunkFields(cs[0]))] + ChunksFields(cs[1..])
  }

  function EncodeManifest(m: Manifest): string {
    Fields([m.snapshotId, m.sourceId, m.legacyRoot, m.engine, FormatInt(m.pageSize),
            FormatInt(m.logicalSize), m.rootDigest,
            Fields(ChunksFields(m.chunks)), m.rest])
  }

  function EncodeCompletion(x: Completion): string {
    Fields([x.snapshotId, x.manifestDigest, x.committedAt])
  }

  lemma ChunkFieldsInjective(a: ChunkInfo, b: ChunkInfo)
    requires ChunkFields(a) == ChunkFields(b)
    ensures a == b
  {
    var f, g := ChunkFields(a), ChunkFields(b);
    assert f[0] == g[0] && f[1] == g[1] && f[2] == g[2] && f[3] == g[3] && f[4] == g[4] && f[5] == g[5];
    FormatIntInjective(a.sequence, b.sequence);
    FormatIntInjective(a.pageStart, b.pageStart);
    FormatIntInjective(a.pageCount, b.pageCount);
    FormatIntInjective(a.plaintextSize, b.plaintextSize);
  }

  lemma {:induction false} ChunksFieldsInjective(a: seq<ChunkInfo>, b: seq<ChunkInfo>)
    requires ChunksFields(a) == ChunksFields(b)
    ensures a == b
  {
    if a != [] && b != [] {
      var f, g := ChunksFields(a), ChunksFields(b);
      assert f[0] == g[0] && f[1..] == ChunksFields(a[1..]) && g[1..] == ChunksFields(b[1..]);
      FieldsInjective(ChunkFields(a[0]), ChunkFields(b[0]));
      ChunkFieldsInjective(a[0], b[0]);
      ChunksFieldsInjective(a[1..], b[1..]);
      assert a == [a[0]] + a[1..] && b == [b[0]] + b[1..];
    }
  }

  lemma ManifestInjective(a: Manifest, b: Manifest)
    requires EncodeManifest(a) == EncodeManifest(b)
    ensures a == b
  {
    var f := [a.snapshotId, a.sourceId, a.legacyRoot, a.engine, FormatInt(a.pageSize),
              FormatInt(a.logicalSize), a.rootDigest,
              Fields(ChunksFields(a.chunks)), a.rest];
    var g := [b.snapshotId, b.sourceId, b.legacyRoot, b.engine, FormatInt(b.pageSize),
              FormatInt(b.logicalSize), b.rootDigest,
              Fields(ChunksFields(b.chunks)), b.rest];
    FieldsInjective(f, g);
    assert f[0] == g[0] && f[1] == g[1] && f[2] == g[2] && f[3] == g[3] && f[4] == g[4];
    assert f[5] == g[5] && f[6] == g[6] && f[7] == g[7] && f[8] == g[8];
    FormatIntInjective(a.pageSize, b.pageSize);
    FormatIntInjective(a.logicalSize, b.logicalSize);
    FieldsInjective(ChunksFields(a.chunks), ChunksFields(b.chunks));
    ChunksFieldsInjective(a.chunks, b.chunks);
  }

  lemma CompletionInjective(a: Completion, b: Completion)
    requires EncodeCompletion(a) == EncodeCompletion(b)
    ensures a == b
  {
    var f, g := [a.snapshotId, a.manifestDigest, a.committedAt], [b.snapshotId, b.manifestDigest, b.committedAt];
    FieldsInjective(f, g);
    assert f[0] == g[0] && f[1] == g[1] && f[2] == g[2];
  }

  ghost function DecodeManifest(s: string): (r: Option<Manifest>) {
    if exists m :: EncodeManifest(m) == s then
      var m :| EncodeManifest(m) == s;
      Some(m)
    else None
  }

  ghost function DecodeCompletion(s: string): (r: Option<Completion>) {
    if exists m :: EncodeCompletion(m) == s then
      var m :| EncodeCompletion(m) == s;
      Some(m)
    else None
  }

  /** A codec that meets all laws: it neither compresses nor encrypts, and hashes everything to one value. */
  lemma Met() returns (c: Codec)
    ensures Laws(c)
  {
    var zeros := seq(32, i => '\U{0000}');
    c := Codec(Hash((k, m) => zeros, m => zeros), "", "",
               x => x, x => Some(x), (id, x, nonce) => x, (id, x) => Some(x),
               EncodeManifest, DecodeManifest, EncodeCompletion, DecodeCompletion, p => "", (p, s) => true);
    forall m ensures DecodeManifest(EncodeManifest(m)) == Some(m) {
      var d := DecodeManifest(EncodeManifest(m)).value;
      ManifestInjective(d, m);
    }
    forall m ensures DecodeCompletion(EncodeCompletion(m)) == Some(m) {
      var d := DecodeCompletion(EncodeCompletion(m)).value;
      CompletionInjective(d, m);
    }
  }
}
