/** The content digests of internal/application/digest/digest.go. */
module Digest {
  import opened Text
  import opened Hashing

  /** The bytes ChunkID feeds to the keyed hash. */
  function ChunkMessage(pageSize: int, data: string): string {
    "dbvault-chunk-v1:" + FormatInt(pageSize) + ":" + data
  }

  function ChunkID(h: Hash, key: string, pageSize: int, data: string): (id: string)
    requires Lawful(h)
    ensures |id| == 64 && IsHex(id)
  {
    MacHex(h, key, ChunkMessage(pageSize, data))
  }

  function EntryText(i: int, id: string, size: int): string {
    FormatInt(i) + ":" + id + ":" + FormatInt(size) + ";"
  }

  /** The entries from index i on. */
  function EntriesText(ids: seq<string>, sizes: seq<int>, i: nat): string
    requires |ids| == |sizes| && i <= |ids|
    decreases |ids| - i
  {
    if i == |ids| then "" else EntryText(i, ids[i], sizes[i]) + EntriesText(ids, sizes, i + 1)
  }

  /** The bytes RootDigest feeds to the keyed hash. */
  function RootMessage(pageSize: int, logicalSize: int, ids: seq<string>, sizes: seq<int>): string
    requires |ids| == |sizes|
  {
    "dbvault-root-v1:" + FormatInt(pageSize) + ":" + FormatInt(logicalSize) + ":" + EntriesText(ids, sizes, 0)
  }

  /** RootDigest: the writes of the loop make up RootMessage. */
  method RootDigest(h: Hash, key: string, sizes: seq<int>, ids: seq<string>, logicalSize: int, pageSize: int)
    returns (root: string)
    requires Lawful(h)
    requires |ids| == |sizes|
    ensures root == MacHex(h, key, RootMessage(pageSize, logicalSize, ids, sizes))
  {
    var written := "dbvault-root-v1:" + FormatInt(pageSize) + ":" + FormatInt(logicalSize) + ":";
    for i := 0 to |ids|
      invariant written + EntriesText(ids, sizes, i) == RootMessage(pageSize, logicalSize, ids, sizes)
    {
      assert written + (EntryText(i, ids[i], sizes[i]) + EntriesText(ids, sizes, i + 1))
          == written + EntryText(i, ids[i], sizes[i]) + EntriesText(ids, sizes, i + 1);
      written := written + EntryText(i, ids[i], sizes[i]);
    }
    assert written + "" == written;
    root := MacHex(h, key, written);
  }

  // ----- the encodings are unambiguous

  lemma NumberField(m: int, x: string, n: int, y: string, c: char)
    requires c == ':' || c == ';'
    requires FormatInt(m) + [c] + x == FormatInt(n) + [c] + y
    ensures m == n && x == y
  {
    SplitAtDelimiter(FormatInt(m), x, FormatInt(n), y, c);
    FormatIntInjective(m, n);
  }

  lemma ChunkMessageInjective(ps1: int, d1: string, ps2: int, d2: string)
    requires ChunkMessage(ps1, d1) == ChunkMessage(ps2, d2)
    ensures ps1 == ps2 && d1 == d2
  {
    var p := "dbvault-chunk-v1:";
    RegroupChunk(p, FormatInt(ps1), d1);
    RegroupChunk(p, FormatInt(ps2), d2);
    SplitAtLength(p, FormatInt(ps1) + ":" + d1, p, FormatInt(ps2) + ":" + d2);
    NumberField(ps1, d1, ps2, d2, ':');
  }

  predicate AllHex(ids: seq<string>) {
    forall i :: 0 <= i < |ids| ==> IsHex(ids[i])
  }

  lemma EntryInjective(i: int, id1: string, n1: int, x: string, id2: string, n2: int, y: string)
    requires IsHex(id1) && IsHex(id2)
    requires EntryText(i, id1, n1) + x == EntryText(i, id2, n2) + y
    ensures id1 == id2 && n1 == n2 && x == y
  {
    var r1, r2 := FormatInt(n1) + ";" + x, FormatInt(n2) + ";" + y;
    RegroupEntry(FormatInt(i), id1, FormatInt(n1), x);
    RegroupEntry(FormatInt(i), id2, FormatInt(n2), y);
    NumberField(i, id1 + ":" + r1, i, id2 + ":" + r2, ':');
    SplitAtDelimiter(id1, r1, id2, r2, ':');
    NumberField(n1, x, n2, y, ';');
  }

  lemma RegroupEntry(a: string, b: string, c: string, x: string)
    ensures a + ":" + b + ":" + c + ";" + x == a + ":" + (b + ":" + (c + ";" + x))
  {
  }

  lemma RegroupChunk(p: string, a: string, b: string)
    ensures p + a + ":" + b == p + (a + ":" + b)
  {
  }

  lemma {:induction false} EntriesInjective(ids1: seq<string>, n1: seq<int>, ids2: seq<string>, n2: seq<int>, i: nat)
    requires |ids1| == |n1| && |ids2| == |n2| && i <= |ids1| && i <= |ids2|
    requires AllHex(ids1) && AllHex(ids2)
    requires EntriesText(ids1, n1, i) == EntriesText(ids2, n2, i)
    ensures ids1[i..] == ids2[i..] && n1[i..] == n2[i..]
    decreases |ids1| - i
  {
    if i < |ids1| && i < |ids2| {
      EntryInjective(i, ids1[i], n1[i], EntriesText(ids1, n1, i + 1), ids2[i], n2[i], EntriesText(ids2, n2, i + 1));
      EntriesInjective(ids1, n1, ids2, n2, i + 1);
      assert ids1[i..] == [ids1[i]] + ids1[i + 1..] && ids2[i..] == [ids2[i]] + ids2[i + 1..];
      assert n1[i..] == [n1[i]] + n1[i + 1..] && n2[i..] == [n2[i]] + n2[i + 1..];
    }
  }

  lemma RootMessageInjective(ps1: int, ls1: int, ids1: seq<string>, n1: seq<int>, ps2: int, ls2: int, ids2: seq<string>,
                             n2: seq<int>)
    requires |ids1| == |n1| && |ids2| == |n2| && AllHex(ids1) && AllHex(ids2)
    requires RootMessage(ps1, ls1, ids1, n1) == RootMessage(ps2, ls2, ids2, n2)
    ensures ps1 == ps2 && ls1 == ls2 && ids1 == ids2 && n1 == n2
  {
    RootHeader(ps1, ls1, EntriesText(ids1, n1, 0), ps2, ls2, EntriesText(ids2, n2, 0));
    EntriesInjective(ids1, n1, ids2, n2, 0);
    assert ids1[0..] == ids1 && ids2[0..] == ids2 && n1[0..] == n1 && n2[0..] == n2;
  }

  lemma RootHeader(ps1: int, ls1: int, e1: string, ps2: int, ls2: int, e2: string)
    requires "dbvault-root-v1:" + FormatInt(ps1) + ":" + FormatInt(ls1) + ":" + e1
          == "dbvault-root-v1:" + FormatInt(ps2) + ":" + FormatInt(ls2) + ":" + e2
    ensures ps1 == ps2 && ls1 == ls2 && e1 == e2
  {
    var p := "dbvault-root-v1:";
    var r1, r2 := FormatInt(ls1) + ":" + e1, FormatInt(ls2) + ":" + e2;
    Regroup(p, FormatInt(ps1), FormatInt(ls1), e1);
    Regroup(p, FormatInt(ps2), FormatInt(ls2), e2);
    SplitAtLength(p, FormatInt(ps1) + ":" + r1, p, FormatInt(ps2) + ":" + r2);
    NumberField(ps1, r1, ps2, r2, ':');
    NumberField(ls1, e1, ls2, e2, ':');
  }

  lemma Regroup(p: string, a: string, b: string, c: string)
    ensures p + a + ":" + b + ":" + c == p + (a + ":" + (b + ":" + c))
  {
  }
}
