/** A file as a sequence of bytes, and the progress of writei towards it. */
module FileContents {
  import opened FileBlocks

  /** Every block below the size is there. */
  ghost predicate Mapped(f: Fs, i: int)
    requires Sized(f) && 0 <= i < |f.ino|
  {
    && 0 <= f.ino[i].size <= MAXFILE * BSIZE
    && forall n :: 0 <= n < MAXFILE && n * BSIZE < f.ino[i].size ==> BlockOf(f, i, n) != 0
  }

  ghost predicate FsOk(f: Fs) {
    Wf(f) && NoBusy(f) && forall i :: 0 <= i < |f.ino| ==> Mapped(f, i)
  }

  /** Byte k of block n of file i; 0 where there is no block. */
  ghost function Cell(f: Fs, i: int, n: int, k: int): int
    requires Sized(f) && 0 <= i < |f.ino| && 0 <= n < MAXFILE && 0 <= k < BSIZE
  {
    var b := BlockOf(f, i, n);
    if 0 < b < |f.data| then f.data[b][k] else 0
  }

  ghost function Contents(f: Fs, i: int): (s: seq<int>)
    requires Sized(f) && 0 <= i < |f.ino| && Mapped(f, i)
    ensures |s| == f.ino[i].size
  {
    seq(f.ino[i].size, o requires 0 <= o < f.ino[i].size => Cell(f, i, o / BSIZE, o % BSIZE))
  }

  /** c with s written at off; off may be the end but not past it. */
  function Splice(c: seq<int>, off: nat, s: seq<int>): (r: seq<int>)
    requires off <= |c|
    ensures |r| == if off + |s| > |c| then off + |s| else |c|
    ensures forall o :: 0 <= o < |r| ==> r[o] == if off <= o < off + |s| then s[o - off] else c[o]
  {
    c[..off] + s + (if off + |s| < |c| then c[off + |s|..] else [])
  }

  /** What was written reads back, from a file that reaches as far. */
  lemma SplicedBack(c: seq<int>, off: nat, s: seq<int>, c': seq<int>)
    requires off <= |c| && off + |s| <= |c'| <= |Splice(c, off, s)| && c' == Splice(c, off, s)[..|c'|]
    ensures c'[off..off + |s|] == s
  {}

  /** Another file: not one block or byte changed. */
  ghost predicate SameFile(f: Fs, f': Fs, j: int)
    requires Sized(f) && Sized(f') && 0 <= j < |f.ino| == |f'.ino|
  {
    && f'.ino[j].size == f.ino[j].size
    && forall n :: 0 <= n < MAXFILE ==> SameBlock(f, f', j, n)
  }

  ghost predicate SameBlock(f: Fs, f': Fs, j: int, n: int)
    requires Sized(f) && Sized(f') && 0 <= j < |f.ino| == |f'.ino| && 0 <= n < MAXFILE
  {
    && BlockOf(f', j, n) == BlockOf(f, j, n)
    && forall k :: 0 <= k < BSIZE ==> Cell(f', j, n, k) == Cell(f, j, n, k)
  }

  /** Byte k of block n after the first tot bytes of s went in at off. */
  ghost predicate CellOk(f0: Fs, f: Fs, i: int, off: int, s: seq<int>, tot: int, n: int, k: int)
    requires Sized(f0) && Sized(f) && 0 <= i < |f.ino| == |f0.ino| && 0 <= n < MAXFILE && 0 <= k < BSIZE && 0 <= tot <= |s|
  {
    var o := n * BSIZE + k;
    Cell(f, i, n, k) == if off <= o < off + tot then s[o - off] else Cell(f0, i, n, k)
  }

  /** Block n of the file being written. */
  ghost predicate PlaceOk(f0: Fs, f: Fs, i: int, off: int, tot: int, n: int)
    requires Sized(f0) && Sized(f) && 0 <= i < |f.ino| == |f0.ino| && 0 <= n < MAXFILE
  {
    && (BlockOf(f0, i, n) != 0 ==> BlockOf(f, i, n) == BlockOf(f0, i, n))
    && (n * BSIZE < off + tot && off < n * BSIZE + BSIZE ==> BlockOf(f, i, n) != 0)
  }

  /** writei takes free blocks only, for the blocks that it writes and for the indirect block. */
  ghost predicate OwnOk(f0: Fs, f: Fs, i: int, off: int, len: int, b: int)
    requires 0 <= b < |f0.own| == |f.own|
  {
    || f.own[b] == f0.own[b]
    || (f0.own[b] == Free && f.own[b] == Ref(Slot(i, NDIRECT)))
    || (f0.own[b] == Free && f.own[b].Ref? && exists n :: Takes(f.own[b].loc, i, off, len, n))
  }

  ghost predicate Takes(l: Loc, i: int, off: int, len: int, n: int) {
    0 <= n < MAXFILE && n * BSIZE < off + len && off < n * BSIZE + BSIZE && l == LocOf(i, n)
  }

  ghost predicate Written(f0: Fs, f: Fs, i: int, off: int, s: seq<int>, tot: int)
    requires Sized(f0) && Sized(f) && 0 <= i < |f0.ino|
  {
    && |f.ino| == |f0.ino| && |f.own| == |f0.own| && 0 <= tot <= |s|
    && f.ino[i].size == f0.ino[i].size
    && (forall j :: 0 <= j < |f.ino| && j != i ==> SameFile(f0, f, j))
    && (forall b :: 0 <= b < |f0.own| ==> OwnOk(f0, f, i, off, |s|, b))
    && (forall n :: 0 <= n < MAXFILE ==> PlaceOk(f0, f, i, off, tot, n))
    && (forall n, k :: 0 <= n < MAXFILE && 0 <= k < BSIZE ==> CellOk(f0, f, i, off, s, tot, n, k))
  }

  lemma WrittenNone(f: Fs, i: int, off: int, s: seq<int>)
    requires Sized(f) && 0 <= i < |f.ino| && Mapped(f, i) && off <= f.ino[i].size
    ensures Written(f, f, i, off, s, 0)
  {
    forall j | 0 <= j < |f.ino| ensures SameFile(f, f, j) {
      forall n | 0 <= n < MAXFILE ensures SameBlock(f, f, j, n) {}
    }
    forall n | 0 <= n < MAXFILE ensures PlaceOk(f, f, i, off, 0, n) {}
    forall n, k | 0 <= n < MAXFILE && 0 <= k < BSIZE ensures CellOk(f, f, i, off, s, 0, n, k) {}
    forall b | 0 <= b < |f.own| ensures OwnOk(f, f, i, off, |s|, b) {}
  }

  // ---------- one chunk ----------

  lemma BmappedCells(f: Fs, f': Fs, i: int, bn: int, j: int, n: int)
    requires Wf(f) && Wf(f') && 0 <= i < |f.ino| && 0 <= bn < MAXFILE && Bmapped(f, f', i, bn)
    requires 0 <= j < |f.ino| && 0 <= n < MAXFILE
    ensures j != i || n != bn ==> SameBlock(f, f', j, n)
    ensures forall k :: 0 <= k < BSIZE ==> Cell(f', j, n, k) == Cell(f, j, n, k)
    ensures BlockOf(f, j, n) != 0 ==> BlockOf(f', j, n) == BlockOf(f, j, n)
  {
    BlockOfOk(f, j, n);
    BlockOfOk(f', j, n);
  }

  /** The block that gets the bytes belongs to no other place. */
  lemma PutCells(f: Fs, i: int, bn: int, k0: int, s: seq<int>, j: int, n: int, k: int)
    requires Wf(f) && 0 <= i < |f.ino| && 0 <= bn < MAXFILE && 0 < BlockOf(f, i, bn) < |f.data|
    requires 0 <= k0 <= k0 + |s| <= BSIZE && 0 <= j < |f.ino| && 0 <= n < MAXFILE && 0 <= k < BSIZE
    ensures var f' := PutBytes(f, BlockOf(f, i, bn), k0, s);
            && Wf(f') && BlockOf(f', j, n) == BlockOf(f, j, n)
            && Cell(f', j, n, k) == if j == i && n == bn && k0 <= k < k0 + |s| then s[k - k0] else Cell(f, j, n, k)
  {
    BlockOfOk(f, i, bn);
    PutBytesOk(f, BlockOf(f, i, bn), k0, s);
    BlockOfOk(f, j, n);
  }

  /** Step from f by bmap to f1 and by the copy to f2. */
  ghost predicate Chunk(f: Fs, f1: Fs, f2: Fs, i: int, bn: int, k0: int, part: seq<int>) {
    && Wf(f) && Wf(f1) && 0 <= i < |f.ino| && 0 <= bn < MAXFILE
    && Bmapped(f, f1, i, bn) && 0 < BlockOf(f1, i, bn) < |f1.data|
    && 0 <= k0 <= k0 + |part| <= BSIZE
    && f2 == PutBytes(f1, BlockOf(f1, i, bn), k0, part) && Wf(f2)
  }

  lemma ChunkCell(f: Fs, f1: Fs, f2: Fs, i: int, bn: int, k0: int, part: seq<int>, j: int, n: int, k: int)
    requires Chunk(f, f1, f2, i, bn, k0, part) && 0 <= j < |f.ino| && 0 <= n < MAXFILE && 0 <= k < BSIZE
    ensures BlockOf(f2, j, n) == BlockOf(f1, j, n)
    ensures j != i || n != bn ==> BlockOf(f2, j, n) == BlockOf(f, j, n)
    ensures BlockOf(f, j, n) != 0 ==> BlockOf(f2, j, n) == BlockOf(f, j, n)
    ensures Cell(f2, j, n, k) == if j == i && n == bn && k0 <= k < k0 + |part| then part[k - k0] else Cell(f, j, n, k)
  {
    BmappedCells(f, f1, i, bn, j, n);
    PutCells(f1, i, bn, k0, part, j, n, k);
  }

  lemma ChunkOther(f: Fs, f1: Fs, f2: Fs, i: int, bn: int, k0: int, part: seq<int>, j: int)
    requires Chunk(f, f1, f2, i, bn, k0, part) && 0 <= j < |f.ino| && j != i
    ensures SameFile(f, f2, j)
  {
    forall n | 0 <= n < MAXFILE ensures SameBlock(f, f2, j, n) {
      ChunkCell(f, f1, f2, i, bn, k0, part, j, n, 0);
      forall k | 0 <= k < BSIZE ensures Cell(f2, j, n, k) == Cell(f, j, n, k) { ChunkCell(f, f1, f2, i, bn, k0, part, j, n, k); }
    }
  }

  lemma SameFileTransitive(f0: Fs, f: Fs, f2: Fs, j: int)
    requires Sized(f0) && Sized(f) && Sized(f2) && 0 <= j < |f0.ino| == |f.ino| == |f2.ino|
    requires SameFile(f0, f, j) && SameFile(f, f2, j)
    ensures SameFile(f0, f2, j)
  {
    forall n | 0 <= n < MAXFILE ensures SameBlock(f0, f2, j, n) { assert SameBlock(f0, f, j, n) && SameBlock(f, f2, j, n); }
  }

  lemma ChunkOwn(f0: Fs, f: Fs, f1: Fs, f2: Fs, i: int, off: int, len: int, bn: int, k0: int, part: seq<int>, b: int)
    requires Chunk(f, f1, f2, i, bn, k0, part) && 0 <= b < |f0.own| == |f.own| && OwnOk(f0, f, i, off, len, b)
    requires off <= bn * BSIZE + k0 < off + len && k0 < BSIZE
    ensures OwnOk(f0, f2, i, off, len, b)
  {
    assert BmappedOwn(f, f1, i, bn, b);
    if f1.own[b] != f.own[b] { assert Takes(LocOf(i, bn), i, off, len, bn); }
  }

  /** bmap and copy: the next |part| bytes are in place. */
  lemma WrittenNext(f0: Fs, f: Fs, f1: Fs, f2: Fs, i: int, off: int, s: seq<int>, tot: int, bn: int, k0: int, part: seq<int>)
    requires Wf(f0) && Wf(f) && 0 <= i < |f0.ino| && Written(f0, f, i, off, s, tot) && 0 <= off
    requires Chunk(f, f1, f2, i, bn, k0, part) && off + tot == bn * BSIZE + k0 && k0 < BSIZE
    requires tot < |s| && tot + |part| <= |s| && part == s[tot..tot + |part|]
    ensures Written(f0, f2, i, off, s, tot + |part|)
  {
    var all := tot + |part|;
    forall j | 0 <= j < |f2.ino| && j != i ensures SameFile(f0, f2, j) {
      ChunkOther(f, f1, f2, i, bn, k0, part, j);
      SameFileTransitive(f0, f, f2, j);
    }
    forall b | 0 <= b < |f0.own| ensures OwnOk(f0, f2, i, off, |s|, b) { ChunkOwn(f0, f, f1, f2, i, off, |s|, bn, k0, part, b); }
    forall n | 0 <= n < MAXFILE ensures PlaceOk(f0, f2, i, off, all, n) {
      assert PlaceOk(f0, f, i, off, tot, n);
      ChunkCell(f, f1, f2, i, bn, k0, part, i, n, 0);
    }
    forall n, k | 0 <= n < MAXFILE && 0 <= k < BSIZE ensures CellOk(f0, f2, i, off, s, all, n, k) {
      assert CellOk(f0, f, i, off, s, tot, n, k);
      ChunkCell(f, f1, f2, i, bn, k0, part, i, n, k);
    }
  }

  /** bmap has made the indirect block and then found no block for the data. */
  lemma WrittenStill(f0: Fs, f: Fs, f1: Fs, i: int, off: int, s: seq<int>, tot: int)
    requires Wf(f0) && Wf(f) && 0 <= i < |f0.ino| && Written(f0, f, i, off, s, tot) && IndirectReady(f, f1, i)
    ensures Written(f0, f1, i, off, s, tot)
  {
    forall j, n, k | 0 <= j < |f.ino| && 0 <= n < MAXFILE && 0 <= k < BSIZE ensures Cell(f1, j, n, k) == Cell(f, j, n, k) { BlockOfOk(f, j, n); }
    forall j | 0 <= j < |f.ino| && j != i ensures SameFile(f0, f1, j) {
      forall n | 0 <= n < MAXFILE ensures SameBlock(f, f1, j, n) {}
      SameFileTransitive(f0, f, f1, j);
    }
    forall b | 0 <= b < |f0.own| ensures OwnOk(f0, f1, i, off, |s|, b) { assert OwnOk(f0, f, i, off, |s|, b); }
    forall n | 0 <= n < MAXFILE ensures PlaceOk(f0, f1, i, off, tot, n) { assert PlaceOk(f0, f, i, off, tot, n); }
    forall n, k | 0 <= n < MAXFILE && 0 <= k < BSIZE ensures CellOk(f0, f1, i, off, s, tot, n, k) { assert CellOk(f0, f, i, off, s, tot, n, k); }
  }

  lemma WrittenNoBusy(f0: Fs, f: Fs, i: int, off: int, s: seq<int>, tot: int)
    requires Sized(f0) && Sized(f) && 0 <= i < |f0.ino| && NoBusy(f0) && Written(f0, f, i, off, s, tot)
    ensures NoBusy(f)
  {
    forall b | 0 <= b < |f.own| ensures f.own[b] != Busy { assert OwnOk(f0, f, i, off, |s|, b); }
  }

  // ---------- the end of a write ----------

  function SetSize(f: Fs, i: int, size: int): Fs
    requires 0 <= i < |f.ino|
  { f.(ino := f.ino[i := f.ino[i].(size := size)]) }

  lemma SetSizeOk(f: Fs, i: int, size: int)
    requires Wf(f) && 0 <= i < |f.ino|
    ensures Wf(SetSize(f, i, size))
    ensures forall j, n :: 0 <= j < |f.ino| && 0 <= n < MAXFILE ==> BlockOf(SetSize(f, i, size), j, n) == BlockOf(f, j, n)
  {
    var f' := SetSize(f, i, size);
    forall l | Place(f, l) ensures At(f', l) == At(f, l) && LocOk(f', l) { assert LocOk(f, l); }
    forall x | 0 <= x < |f'.own| ensures BlockOk(f', x) { assert BlockOk(f, x); }
  }

  lemma SameFileContents(f0: Fs, f: Fs, j: int)
    requires Sized(f0) && Sized(f) && 0 <= j < |f0.ino| == |f.ino| && Mapped(f0, j) && SameFile(f0, f, j)
    ensures Mapped(f, j) && Contents(f, j) == Contents(f0, j)
  {
    forall n | 0 <= n < MAXFILE && n * BSIZE < f0.ino[j].size ensures BlockOf(f, j, n) != 0 { assert SameBlock(f0, f, j, n); }
    forall o | 0 <= o < f0.ino[j].size ensures Contents(f, j)[o] == Contents(f0, j)[o] {
      assert SameBlock(f0, f, j, o / BSIZE);
    }
  }

  /** Of s, tot bytes are in and `done` of them count. */
  ghost predicate Ends(f0: Fs, f: Fs, i: int, off: int, s: seq<int>, tot: int, done: int, size: int)
    requires Sized(f0) && Sized(f) && 0 <= i < |f0.ino|
  {
    && Written(f0, f, i, off, s, tot) && 0 <= off <= f0.ino[i].size && 0 <= done <= tot && off + done <= MAXFILE * BSIZE
    && size == if off + done > f0.ino[i].size then off + done else f0.ino[i].size
  }

  lemma WrittenMapped(f0: Fs, f: Fs, i: int, off: int, s: seq<int>, tot: int, done: int, size: int)
    requires Sized(f0) && Sized(f) && 0 <= i < |f0.ino| && Mapped(f0, i) && Ends(f0, f, i, off, s, tot, done, size)
    ensures forall n :: 0 <= n < MAXFILE && n * BSIZE < size ==> BlockOf(f, i, n) != 0
  {
    forall n | 0 <= n < MAXFILE && n * BSIZE < size ensures BlockOf(f, i, n) != 0 { assert PlaceOk(f0, f, i, off, tot, n); }
  }

  lemma WrittenContents(f0: Fs, f: Fs, f': Fs, i: int, off: int, s: seq<int>, tot: int, done: int)
    requires Sized(f0) && Sized(f) && Sized(f') && 0 <= i < |f0.ino| == |f'.ino| && Mapped(f0, i) && Mapped(f', i)
    requires Ends(f0, f, i, off, s, tot, done, f'.ino[i].size) && f'.data == f.data
    requires forall n :: 0 <= n < MAXFILE ==> BlockOf(f', i, n) == BlockOf(f, i, n)
    ensures Contents(f', i) == Splice(Contents(f0, i), off, s[..tot])[..f'.ino[i].size]
  {
    var c, r := Contents(f', i), Splice(Contents(f0, i), off, s[..tot]);
    forall o | 0 <= o < |c| ensures c[o] == r[o] {
      var n, k := o / BSIZE, o % BSIZE;
      assert CellOk(f0, f, i, off, s, tot, n, k) && Cell(f', i, n, k) == Cell(f, i, n, k);
    }
  }

  /** The size is set: file i is spliced, every other file as it was. */
  lemma WrittenAll(f0: Fs, f: Fs, f': Fs, i: int, off: int, s: seq<int>, tot: int, done: int)
    requires FsOk(f0) && Wf(f) && 0 <= i < |f0.ino| == |f'.ino| && Ends(f0, f, i, off, s, tot, done, f'.ino[i].size)
    requires f' == SetSize(f, i, f'.ino[i].size)
    ensures FsOk(f') && Contents(f', i) == Splice(Contents(f0, i), off, s[..tot])[..f'.ino[i].size]
    ensures forall j :: 0 <= j < |f0.ino| && j != i ==> Contents(f', j) == Contents(f0, j)
  {
    assert Mapped(f0, i);
    SetSizeOk(f, i, f'.ino[i].size);
    WrittenNoBusy(f0, f, i, off, s, tot);
    WrittenMapped(f0, f, i, off, s, tot, done, f'.ino[i].size);
    assert Mapped(f', i);
    WrittenContents(f0, f, f', i, off, s, tot, done);
    forall j | 0 <= j < |f0.ino| && j != i ensures Mapped(f', j) && Contents(f', j) == Contents(f0, j) {
      WrittenOther(f0, f, f', i, off, s, tot, j);
    }
  }

  lemma WrittenOther(f0: Fs, f: Fs, f': Fs, i: int, off: int, s: seq<int>, tot: int, j: int)
    requires Sized(f0) && Sized(f) && Sized(f') && 0 <= i < |f0.ino| == |f'.ino| && 0 <= j < |f0.ino| && j != i
    requires Mapped(f0, j) && Written(f0, f, i, off, s, tot) && f'.data == f.data && f'.ino[j] == f.ino[j]
    ensures Mapped(f', j) && Contents(f', j) == Contents(f0, j)
  {
    assert SameFile(f0, f, j);
    forall n | 0 <= n < MAXFILE ensures SameBlock(f0, f', j, n) { assert SameBlock(f0, f, j, n); }
    SameFileContents(f0, f', j);
  }
}
