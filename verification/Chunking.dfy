/** The page chunker of internal/application/chunking/page_chunker.go, and the file
    writes by which a restore puts chunks back. */
module Chunking {

  /** A chunk of the artifact; Index equals Sequence and PlaintextSize is the length of `data`. */
  datatype PlainChunk = PlainChunk(sequence: nat, pageStart: nat, pageCount: nat, data: string)

  /** PagesPerChunk: at least one page. For a negative target Go's quotient is at most
      zero, and so is the one below. */
  function PagesPerChunk(pageSize: int, targetBytes: int): (p: int)
    ensures p >= 1
  {
    if pageSize <= 0 then 1
    else
      var p := targetBytes / pageSize;
      if p < 1 then 1 else p
  }

  /** The size of the read buffer; 0 exactly for page size 0. */
  function BufferSize(pageSize: nat, targetBytes: int): (n: nat)
    ensures n > 0 <==> pageSize > 0
  {
    MulMonotone(1, PagesPerChunk(pageSize, targetBytes), pageSize);
    PagesPerChunk(pageSize, targetBytes) * pageSize
  }

  /** The number of pages that n bytes begin. */
  function PagesIn(n: nat, pageSize: nat): (pc: nat)
    requires pageSize > 0
  {
    if n == 0 then 0 else if n <= pageSize then 1 else 1 + PagesIn(n - pageSize, pageSize)
  }

  function Min(a: nat, b: nat): nat {
    if a < b then a else b
  }

  /** The chunks of the file from byte `pos` on when each full one has `size` bytes, numbered from
      `sequence` and starting at page `pageStart`. */
  function ChunksFrom(file: string, pos: nat, size: nat, pageSize: nat,
                      sequence: nat, pageStart: nat): (cs: seq<PlainChunk>)
    requires pageSize > 0 && size > 0 && pos <= |file|
    decreases |file| - pos
  {
    if pos == |file| then []
    else
      var n := Min(|file| - pos, size);
      var pc := PagesIn(n, pageSize);
      [PlainChunk(sequence, pageStart, pc, file[pos..pos + n])]
      + ChunksFrom(file, pos + n, size, pageSize, sequence + 1, pageStart + pc)
  }

  /** What the chunker returns. With page size 0 it reads into an empty buffer and stops at once. */
  function ChunksOf(file: string, pageSize: nat, targetBytes: int): (cs: seq<PlainChunk>) {
    if pageSize == 0 then [] else ChunksFrom(file, 0, BufferSize(pageSize, targetBytes), pageSize, 0, 0)
  }

  lemma MulMonotone(a: int, b: int, c: nat)
    requires a <= b
    ensures a * c <= b * c
  {
  }

  lemma {:induction false} PagesOfWhole(k: nat, pageSize: nat)
    requires pageSize > 0
    ensures PagesIn(k * pageSize, pageSize) == k
  {
    if k > 1 {
      MulMonotone(2, k, pageSize);
      assert k * pageSize - pageSize == (k - 1) * pageSize;
      PagesOfWhole(k - 1, pageSize);
    }
  }

  /** A full buffer is a whole number of pages. */
  lemma FullBufferPages(pageSize: nat, targetBytes: int)
    requires pageSize > 0
    ensures PagesIn(BufferSize(pageSize, targetBytes), pageSize) * pageSize == BufferSize(pageSize, targetBytes)
  {
    PagesOfWhole(PagesPerChunk(pageSize, targetBytes), pageSize);
  }

  lemma DivideStep(n: nat, m: nat)
    requires 0 < m <= n
    ensures (n - m) / m == n / m - 1 && (n - m) % m == n % m
  {
    var q, r := n / m, n % m;
    var q', r' := (n - m) / m, (n - m) % m;
    assert (q - 1 - q') * m == r' - r;
    if q - 1 > q' {
      MulMonotone(1, q - 1 - q', m);
    } else if q - 1 < q' {
      MulMonotone(q - 1 - q', -1, m);
    }
  }

  lemma {:induction false} PagesByDivision(n: nat, pageSize: nat)
    requires pageSize > 0
    ensures PagesIn(n, pageSize) == n / pageSize + if n % pageSize != 0 then 1 else 0
    decreases n
  {
    if n >= pageSize {
      DivideStep(n, pageSize);
      PagesByDivision(n - pageSize, pageSize);
    }
  }

  /** A full buffer is the most whole pages within the target, and at least one. */
  lemma FullBuffer(pageSize: nat, targetBytes: int) returns (pages: nat)
    requires pageSize > 0
    ensures pages >= 1 && BufferSize(pageSize, targetBytes) == pages * pageSize
    ensures pages == PagesIn(pages * pageSize, pageSize)
    ensures pages == 1 || pages * pageSize <= targetBytes
    ensures targetBytes < (pages + 1) * pageSize
  {
    pages := PagesPerChunk(pageSize, targetBytes);
    PagesOfWhole(pages, pageSize);
    var q := targetBytes / pageSize;
    assert q * pageSize <= targetBytes < (q + 1) * pageSize;
    MulMonotone(q + 1, pages + 1, pageSize);
  }

  lemma {:induction false} FromSizes(file: string, pos: nat, size: nat, pageSize: nat, sequence: nat, pageStart: nat,
                                     i: nat)
    requires pageSize > 0 && size > 0 && pos <= |file|
    requires i < |ChunksFrom(file, pos, size, pageSize, sequence, pageStart)|
    ensures var cs := ChunksFrom(file, pos, size, pageSize, sequence, pageStart);
            && 0 < |cs[i].data| <= size && (i + 1 < |cs| ==> |cs[i].data| == size)
            && cs[i].sequence == sequence + i && cs[i].pageCount == PagesIn(|cs[i].data|, pageSize)
    decreases |file| - pos
  {
    var n := Min(|file| - pos, size);
    var rest := ChunksFrom(file, pos + n, size, pageSize, sequence + 1, pageStart + PagesIn(n, pageSize));
    if i > 0 {
      FromSizes(file, pos + n, size, pageSize, sequence + 1, pageStart + PagesIn(n, pageSize), i - 1);
    } else if rest != [] {
      assert pos + n < |file|;
    }
  }

  /** Every chunk but the last has the most whole pages that fit in the target, and at least one; the last is not
      empty and no longer. They are numbered in order. */
  lemma ChunkSizes(file: string, pageSize: nat, targetBytes: int, i: nat) returns (pages: nat)
    requires pageSize > 0 && i < |ChunksOf(file, pageSize, targetBytes)|
    ensures pages >= 1 && (pages == 1 || pages * pageSize <= targetBytes) && targetBytes < (pages + 1) * pageSize
    ensures var cs := ChunksOf(file, pageSize, targetBytes);
            && cs[i].sequence == i && 0 < |cs[i].data| <= pages * pageSize
            && (i + 1 < |cs| ==> |cs[i].data| == pages * pageSize && cs[i].pageCount == pages)
  {
    pages := FullBuffer(pageSize, targetBytes);
    FromSizes(file, 0, BufferSize(pageSize, targetBytes), pageSize, 0, 0, i);
  }

  /** The chunker's page count: a division, and one more page for a remainder. */
  method CountPages(n: nat, pageSize: nat) returns (pc: nat)
    requires pageSize > 0
    ensures pc == PagesIn(n, pageSize)
  {
    pc := n / pageSize;
    if n % pageSize != 0 {
      pc := pc + 1;
    }
    PagesByDivision(n, pageSize);
  }

  /** ChunksFrom with the chunks collected so far in `out`. */
  function Collected(file: string, pos: nat, size: nat, pageSize: nat, sequence: nat, pageStart: nat,
                     out: seq<PlainChunk>): seq<PlainChunk>
    requires pageSize > 0 && size > 0 && pos <= |file|
    decreases |file| - pos
  {
    if pos == |file| then out
    else
      var n := Min(|file| - pos, size);
      var pc := PagesIn(n, pageSize);
      Collected(file, pos + n, size, pageSize, sequence + 1, pageStart + pc,
                out + [PlainChunk(sequence, pageStart, pc, file[pos..pos + n])])
  }

  lemma {:induction false} CollectedIsChunks(file: string, pos: nat, size: nat, pageSize: nat, sequence: nat,
                                             pageStart: nat, out: seq<PlainChunk>)
    requires pageSize > 0 && size > 0 && pos <= |file|
    ensures Collected(file, pos, size, pageSize, sequence, pageStart, out)
         == out + ChunksFrom(file, pos, size, pageSize, sequence, pageStart)
    decreases |file| - pos
  {
    if pos < |file| {
      var n := Min(|file| - pos, size);
      var pc := PagesIn(n, pageSize);
      CollectedIsChunks(file, pos + n, size, pageSize, sequence + 1, pageStart + pc,
                        out + [PlainChunk(sequence, pageStart, pc, file[pos..pos + n])]);
    }
  }

  /** The read loop of PageChunker.Chunks over a file whose content is `file`. */
  method ReadChunks(file: string, pageSize: nat, bufSize: nat) returns (out: seq<PlainChunk>)
    requires pageSize > 0 <==> bufSize > 0
    ensures out == if pageSize == 0 then [] else Collected(file, 0, bufSize, pageSize, 0, 0, [])
  {
    out := [];
    var sequence, pageStart, pos := 0, 0, 0;
    while true
      invariant 0 <= pos <= |file| && pageStart >= 0 && sequence >= 0
      invariant pageSize == 0 ==> out == []
      invariant pageSize > 0 ==>
                  Collected(file, pos, bufSize, pageSize, sequence, pageStart, out)
                  == Collected(file, 0, bufSize, pageSize, 0, 0, [])
      decreases |file| - pos
    {
      // io.ReadFull: fills the buffer, or stops at the end of the file
      var n := Min(|file| - pos, bufSize);
      if n == 0 {
        break;
      }
      var buf := file[pos..pos + n];
      var pc := CountPages(n, pageSize);
      out := out + [PlainChunk(sequence, pageStart, pc, buf)];
      sequence := sequence + 1;
      pageStart := pageStart + pc;
      pos := pos + n;
      if n < bufSize {
        break;
      }
    }
  }

  /** PageChunker.Chunks. */
  method Chunks(file: string, pageSize: nat, targetBytes: int) returns (out: seq<PlainChunk>)
    ensures out == ChunksOf(file, pageSize, targetBytes)
  {
    var bufSize := BufferSize(pageSize, targetBytes);
    out := ReadChunks(file, pageSize, bufSize);
    if pageSize > 0 {
      CollectedIsChunks(file, 0, bufSize, pageSize, 0, 0, []);
    }
  }

  // ----- putting the chunks back

  function Zeros(n: nat): (z: string)
    ensures |z| == n
  {
    seq(n, i => '\U{0000}')
  }

  /** File.WriteAt: overwrites in place, and pads with zeros beyond the end. */
  function WriteAt(file: string, offset: nat, data: string): (f: string) {
    if data == "" then file
    else if offset > |file| then file + Zeros(offset - |file|) + data
    else file[..offset] + data + if offset + |data| < |file| then file[offset + |data|..] else ""
  }

  /** Writing every chunk at its page offset. */
  function WriteChunks(file: string, cs: seq<PlainChunk>, pageSize: nat): (f: string)
    decreases |cs|
  {
    if cs == [] then file
    else WriteChunks(WriteAt(file, cs[0].pageStart * pageSize, cs[0].data), cs[1..], pageSize)
  }

  /** The chunks hold the file from byte `pos` on, each at its page offset. */
  predicate Placed(cs: seq<PlainChunk>, pageSize: nat, file: string, pos: nat)
    requires pos <= |file|
    decreases |cs|
  {
    if cs == [] then pos == |file|
    else
      var n := |cs[0].data|;
      && 0 < n && pos + n <= |file| && cs[0].pageStart * pageSize == pos && cs[0].data == file[pos..pos + n]
      && Placed(cs[1..], pageSize, file, pos + n)
  }

  /** Writing placed chunks into the zeros left after the first `pos` bytes gives the file. */
  lemma {:induction false} WritePlaced(cs: seq<PlainChunk>, pageSize: nat, file: string, pos: nat)
    requires pos <= |file| && Placed(cs, pageSize, file, pos)
    ensures WriteChunks(file[..pos] + Zeros(|file| - pos), cs, pageSize) == file
    decreases |cs|
  {
    if cs == [] {
      NothingLeft(file);
    } else {
      var n := |cs[0].data|;
      WriteIntoZeros(file, pos, n);
      WritePlaced(cs[1..], pageSize, file, pos + n);
    }
  }

  /** What the chunker cuts is placed. */
  lemma {:induction false} ChunksPlaced(file: string, pos: nat, size: nat, pageSize: nat, sequence: nat, pageStart: nat)
    requires pageSize > 0 && size > 0 && PagesIn(size, pageSize) * pageSize == size
    requires pos <= |file| && (pos < |file| ==> pageStart * pageSize == pos)
    ensures Placed(ChunksFrom(file, pos, size, pageSize, sequence, pageStart), pageSize, file, pos)
    decreases |file| - pos
  {
    if pos < |file| {
      var n := Min(|file| - pos, size);
      var pc := PagesIn(n, pageSize);
      NextPage(pageStart, pageSize, size, pos, n, pc);
      ChunksPlaced(file, pos + n, size, pageSize, sequence + 1, pageStart + pc);
      PlacedFirst(PlainChunk(sequence, pageStart, pc, file[pos..pos + n]),
                  ChunksFrom(file, pos + n, size, pageSize, sequence + 1, pageStart + pc), pageSize, file, pos);
    }
  }

  lemma PlacedFirst(ch: PlainChunk, tail: seq<PlainChunk>, pageSize: nat, file: string, pos: nat)
    requires ch.data != "" && pos + |ch.data| <= |file| && ch.pageStart * pageSize == pos
    requires ch.data == file[pos..pos + |ch.data|]
    requires Placed(tail, pageSize, file, pos + |ch.data|)
    ensures Placed([ch] + tail, pageSize, file, pos)
  {
    assert ([ch] + tail)[1..] == tail;
  }

  lemma NothingLeft(file: string)
    ensures file[..|file|] + Zeros(0) == file
  {
  }

  lemma NextPage(pageStart: nat, pageSize: nat, size: nat, pos: nat, n: nat, pc: nat)
    requires pageSize > 0 && pageStart * pageSize == pos && pc == PagesIn(n, pageSize)
    requires PagesIn(size, pageSize) * pageSize == size
    ensures n == size ==> (pageStart + pc) * pageSize == pos + n
  {
    assert (pageStart + pc) * pageSize == pageStart * pageSize + pc * pageSize;
  }

  lemma WriteIntoZeros(file: string, pos: nat, n: nat)
    requires 0 < n && pos + n <= |file|
    ensures WriteAt(file[..pos] + Zeros(|file| - pos), pos, file[pos..pos + n])
         == file[..pos + n] + Zeros(|file| - (pos + n))
  {
  }

  /** Chunking and writing back is the identity exactly when there is a page size or
      nothing but zeros to restore: with page size 0 the restored file is all zeros. */
  lemma ChunkRoundTrip(data: string, pageSize: nat, targetBytes: int)
    ensures WriteChunks(Zeros(|data|), ChunksOf(data, pageSize, targetBytes), pageSize) == data
            <==> pageSize > 0 || data == Zeros(|data|)
  {
    if pageSize > 0 {
      FullBufferPages(pageSize, targetBytes);
      ChunksPlaced(data, 0, BufferSize(pageSize, targetBytes), pageSize, 0, 0);
      WritePlaced(ChunksOf(data, pageSize, targetBytes), pageSize, data, 0);
      assert data[..0] + Zeros(|data|) == Zeros(|data|);
    }
  }

  /** The pieces of a chunk list, joined. */
  function Joined(cs: seq<PlainChunk>): (d: string) {
    if cs == [] then "" else cs[0].data + Joined(cs[1..])
  }

  lemma {:induction false} JoinedChunksFrom(file: string, pos: nat, size: nat, pageSize: nat, sequence: nat,
                                            pageStart: nat)
    requires pageSize > 0 && size > 0 && pos <= |file|
    ensures Joined(ChunksFrom(file, pos, size, pageSize, sequence, pageStart)) == file[pos..]
    decreases |file| - pos
  {
    if pos < |file| {
      var n := Min(|file| - pos, size);
      var pc := PagesIn(n, pageSize);
      var cs := ChunksFrom(file, pos, size, pageSize, sequence, pageStart);
      JoinedChunksFrom(file, pos + n, size, pageSize, sequence + 1, pageStart + pc);
      assert cs[1..] == ChunksFrom(file, pos + n, size, pageSize, sequence + 1, pageStart + pc);
      assert file[pos..pos + n] + file[pos + n..] == file[pos..];
    }
  }
}
