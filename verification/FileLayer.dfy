/** balloc, bfree, bmap, itrunc, readi and writei of kernel/fs.c.

    A panic is a returned flag.  Every bread sees the last contents written (module
    Bcache), so a block is changed in place here. */
module FileLayer {
  import opened FileBlocks
  import opened FileContents
  import opened FileTrunc
  import opened Machine

  const BPB := 8192             // bitmap bits per block

  /** Addition of two C uints. */
  function Add32(a: int, b: int): int { (a + b) % TWO32 }

  function Min(a: int, b: int): int { if a < b then a else b }

  /** Nothing left to allocate. */
  ghost predicate Full(f: Fs) { forall b :: 0 <= b < |f.bit| ==> f.bit[b] }

  class FileSystem {
    var bit: seq<bool>
    var data: seq<Block>
    var ino: seq<Inode>
    ghost var own: seq<Owner>

    ghost function M(): Fs
      reads this
    { Fs(bit, own, data, ino) }

    /** A file system with nmeta blocks of metadata and nino inodes, all empty. */
    constructor (nblocks: int, nmeta: int, nino: nat)
      requires 0 < nmeta <= nblocks < TWO32
      ensures FsOk(M()) && |own| == nblocks && |ino| == nino
      ensures forall b :: 0 <= b < nblocks ==> own[b] == if b < nmeta then Meta else Free
    {
      bit := seq(nblocks, b => b < nmeta);
      own := seq(nblocks, b => if b < nmeta then Meta else Free);
      data := seq(nblocks, _ => ZeroBlock());
      ino := seq(nino, _ => Inode(seq(NDIRECT + 1, _ => 0), 0));
      new;
      var f := M();
      forall l | Place(f, l) ensures LocOk(f, l) { assert At(f, l) == 0; }
      forall b | 0 <= b < |f.own| ensures BlockOk(f, b) {}
    }

    /** The first block whose bit is clear, zeroed; 0 stands for the panic. */
    method Balloc() returns (r: int)
      requires Wf(M())
      modifies this
      ensures r == 0 <==> Full(old(M()))
      ensures r == 0 ==> M() == old(M())
      ensures r != 0 ==> 0 < r < |old(own)| && old(own)[r] == Free && M() == Allocate(old(M()), r)
      ensures r != 0 ==> bit == old(bit)[r := true] && data == old(data)[r := seq(BSIZE, _ => 0)]
      ensures forall b :: 0 <= b < r ==> old(bit)[b]
    {
      assert BlockOk(M(), 0);
      var b := 0;
      while b < |bit|
        invariant 0 <= b && M() == old(M())
        invariant forall x :: 0 <= x < b && x < |bit| ==> bit[x]
      {
        var bi := 0;
        while bi < BPB && b + bi < |bit|
          invariant 0 <= bi <= BPB && b + bi <= |bit| && M() == old(M())
          invariant forall x :: 0 <= x < b + bi ==> bit[x]
        {
          if !bit[b + bi] {
            r := b + bi;
            assert BlockOk(M(), r);
            bit := bit[r := true];
            own := own[r := Busy];
            data := data[r := ZeroBlock()];
            assert M() == Allocate(old(M()), r);
            return;
          }
          bi := bi + 1;
        }
        b := b + BPB;
      }
      r := 0;
    }

    /** The requires is the condition under which "freeing free block" is not reached. */
    method Bfree(b: int)
      requires 0 <= b < |bit| == |own| && bit[b]
      modifies `bit, `own
      ensures M() == Release(old(M()), b) && bit == old(bit)[b := false]
    {
      bit := bit[b := false];
      own := own[b := Free];
    }

    /** The block for block index bn of inode i, allocated if need be; 0 stands for balloc's panic. */
    method Bmap(i: int, bn: int) returns (addr: int)
      requires Wf(M()) && 0 <= i < |ino| && 0 <= bn < MAXFILE
      modifies this
      ensures addr != 0 ==> Wf(M()) && Bmapped(old(M()), M(), i, bn) && 0 < addr < |data| && addr == BlockOf(M(), i, bn)
      ensures BlockOf(old(M()), i, bn) != 0 ==> addr != 0 && M() == old(M())
      ensures addr == 0 ==> Full(M()) && (M() == old(M()) || IndirectReady(old(M()), M(), i))
      ensures addr != 0 ==> addr == if bn < NDIRECT then ino[i].addrs[bn] else Word(data[ino[i].addrs[NDIRECT]], bn - NDIRECT)
    {
      BlockOfOk(M(), i, bn);
      if bn < NDIRECT {
        addr := ino[i].addrs[bn];
        if addr == 0 {
          addr := Balloc();
          if addr == 0 { return; }
          NewDirect(old(M()), i, bn, addr);
          ino := ino[i := ino[i].(addrs := ino[i].addrs[bn := addr])];
          own := own[addr := Ref(Slot(i, bn))];
          assert M() == New(old(M()), LocOf(i, bn), addr);
        }
        return;
      }
      var q := Indirect(i);
      if q == 0 { return 0; }
      ghost var f1 := M();
      addr := Entry(i, bn, q);
      if addr != 0 { BmappedAfter(old(M()), f1, M(), i, bn); }
    }

    /** Entry bn - NDIRECT of the indirect block q. */
    method Entry(i: int, bn: int, q: int) returns (addr: int)
      requires Wf(M()) && 0 <= i < |ino| && NDIRECT <= bn < MAXFILE && q == Ind(M(), i) && 0 < q < |data|
      modifies this
      ensures addr != 0 ==> Wf(M()) && Bmapped(old(M()), M(), i, bn) && 0 < addr < |data| && addr == BlockOf(M(), i, bn)
      ensures BlockOf(old(M()), i, bn) != 0 ==> addr != 0 && M() == old(M())
      ensures addr == 0 ==> Full(M()) && M() == old(M())
    {
      ghost var f := M();
      BlockOfOk(f, i, bn);
      addr := Word(data[q], bn - NDIRECT);
      if addr == 0 {
        addr := Balloc();
        if addr == 0 { return; }
        NewDirect(f, i, bn, addr);
        data := data[q := PutWord(data[q], bn - NDIRECT, addr)];
        own := own[addr := Ref(Ent(i, bn - NDIRECT))];
        assert M() == New(f, LocOf(i, bn), addr);
      }
    }

    /** bmap's indirect block. */
    method Indirect(i: int) returns (q: int)
      requires Wf(M()) && 0 <= i < |ino|
      modifies this
      ensures q != 0 ==> IndirectReady(old(M()), M(), i) && q == Ind(M(), i)
      ensures Ind(old(M()), i) != 0 ==> q != 0 && M() == old(M())
      ensures q == 0 ==> Full(M()) && M() == old(M())
    {
      assert LocOk(M(), Slot(i, NDIRECT));
      q := ino[i].addrs[NDIRECT];
      if q == 0 {
        q := Balloc();
        if q == 0 { return; }
        NewIndirect(old(M()), i, q);
        ino := ino[i := ino[i].(addrs := ino[i].addrs[NDIRECT := q])];
        own := own[q := Ref(Slot(i, NDIRECT))];
        assert M() == New(old(M()), Slot(i, NDIRECT), q);
      }
    }

    /** Gives back slot k's block and clears the slot. */
    method FreeSlot(i: int, k: int, ghost f0: Fs, ghost e: int)
      requires Wf(f0) && 0 <= i < |f0.ino| && Cleared(f0, M(), i, k, e) && 0 <= k <= NDIRECT
      modifies `bit, `own, `ino
      ensures Cleared(f0, M(), i, k + 1, e) && ino[i].size == old(ino)[i].size
    {
      ClearSlot(f0, M(), i, k, e);
      if ino[i].addrs[k] != 0 {
        Bfree(ino[i].addrs[k]);
        ino := ino[i := ino[i].(addrs := ino[i].addrs[k := 0])];
        assert M() == Store(Release(old(M()), f0.ino[i].addrs[k]), Slot(i, k), 0);
      }
    }

    /** Gives back every block of inode i and no other. */
    method Itrunc(i: int)
      requires FsOk(M()) && 0 <= i < |ino|
      modifies this
      ensures FsOk(M()) && |ino| == |old(ino)| && Contents(M(), i) == []
      ensures forall n :: 0 <= n < MAXFILE ==> BlockOf(M(), i, n) == 0
      ensures forall j :: 0 <= j < |ino| && j != i ==> Contents(M(), j) == Contents(old(M()), j)
      ensures |own| == |old(own)|
      ensures forall b :: 0 <= b < |own| ==> own[b] == if old(own)[b].Ref? && old(own)[b].loc.i == i then Free else old(own)[b]
    {
      ghost var f0 := M();
      forall b | 0 <= b < |f0.own| ensures BlockGone(f0, f0, i, 0, 0, b) { assert BlockOk(f0, b); }
      var k := 0;
      while k < NDIRECT
        invariant 0 <= k <= NDIRECT && Cleared(f0, M(), i, k, 0)
      {
        FreeSlot(i, k, f0, 0);
        k := k + 1;
      }
      var q := ino[i].addrs[NDIRECT];
      assert LocOk(f0, Slot(i, NDIRECT));
      if q != 0 {
        var j := 0;
        while j < NINDIRECT
          invariant 0 <= j <= NINDIRECT && Cleared(f0, M(), i, NDIRECT, j)
        {
          ClearEntry(f0, M(), i, j);
          if Word(data[q], j) != 0 { Bfree(Word(data[q], j)); }
          j := j + 1;
        }
        FreeSlot(i, NDIRECT, f0, NINDIRECT);
      } else {
        NoEntries(f0, M(), i, NDIRECT);
        ClearSlot(f0, M(), i, NDIRECT, NINDIRECT);
      }
      ghost var f := M();
      ino := ino[i := ino[i].(size := 0)];
      Truncated(f0, f, M(), i);
    }

    /** One turn of readi's loop. */
    method ReadChunk(i: int, off: int, m: int) returns (part: seq<int>)
      requires Wf(M()) && 0 <= i < |ino| && Mapped(M(), i) && 0 < m && off % BSIZE + m <= BSIZE
      requires 0 <= off && off + m <= ino[i].size
      modifies this
      ensures M() == old(M()) && part == Contents(M(), i)[off..off + m]
    {
      var bn, k := off / BSIZE, off % BSIZE;
      ReadPart(M(), i, bn, k, off, m);
      var b := Bmap(i, bn);
      part := data[b][k..k + m];
    }

    /** readi's loop; the destination can take `room` bytes. */
    method ReadAll(i: int, off0: int, n: int, room: nat) returns (ok: bool, dst: seq<int>)
      requires Wf(M()) && 0 <= i < |ino| && Mapped(M(), i) && 0 <= off0 <= off0 + n <= ino[i].size
      modifies this
      ensures M() == old(M()) && (ok <==> n <= room)
      ensures dst == Contents(M(), i)[off0..off0 + if ok then n else room]
    {
      ghost var f := M();
      ghost var c := Contents(f, i);
      var off, tot := off0, 0;
      dst := [];
      while tot < n
        invariant M() == f && 0 <= tot <= n && tot <= room && off == off0 + tot && dst == c[off0..off]
      {
        var m := Min(n - tot, BSIZE - off % BSIZE);
        var part := ReadChunk(i, off, m);
        if tot + m > room {
          Join(c, off0, off, off0 + room);
          assert part[..room - tot] == c[off..off0 + room];
          return false, dst + part[..room - tot];
        }
        Join(c, off0, off, off + m);
        dst := dst + part;
        tot, off := tot + m, off + m;
      }
      ok := true;
    }

    /** Up to n bytes from off, clipped to the size; nothing is allocated.  The destination can take
        `room` bytes; tot is -1 when the copy runs past them, and dst is what has arrived. */
    method Readi(i: int, off: int, n0: int, room: nat) returns (tot: int, dst: seq<int>)
      requires FsOk(M()) && 0 <= i < |ino| && 0 <= off < TWO32 && 0 <= n0 < TWO32
      modifies this
      ensures M() == old(M())
      ensures off > ino[i].size || off + n0 >= TWO32 ==> tot == 0 && dst == []
      ensures off <= ino[i].size && off + n0 < TWO32 ==>
                var want := Contents(M(), i)[off..Min(off + n0, ino[i].size)];
                if |want| <= room then tot == |want| && dst == want else tot == -1 && dst == want[..room]
    {
      assert Mapped(M(), i);
      var n := n0;
      if off > ino[i].size || Add32(off, n) < off { return 0, []; }
      if off + n > ino[i].size { n := ino[i].size - off; }
      var ok;
      ok, dst := ReadAll(i, off, n, room);
      tot := if ok then |dst| else -1;
    }

    /** src is written at off.  Of src, `avail` bytes can be read; of the piece whose copy fails, `left`
        bytes stay in the buffer.  r is the bytes of the complete pieces, or -1 for a bad range;
        `put` counts the bytes that are in the file's blocks at the end. */
    method Writei(i: int, off0: int, src: seq<int>, avail: nat, left: nat) returns (r: int, panicked: bool, ghost put: int)
      requires FsOk(M()) && 0 <= i < |ino| && 0 <= off0 < TWO32 && |src| < TWO32 && avail <= |src|
      modifies this
      ensures |own| == |old(own)| && |ino| == |old(ino)| && Wf(M()) && NoBusy(M())
      ensures off0 > old(ino)[i].size || off0 + |src| > MAXFILE * BSIZE ==> r == -1 && !panicked && M() == old(M())
      ensures panicked ==> Full(M()) && Written(old(M()), M(), i, off0, src, put) && put <= avail
      ensures off0 <= old(ino)[i].size && off0 + |src| <= MAXFILE * BSIZE && !panicked ==>
                && Pieces(off0, |src|, avail, r) && put == (if r == |src| then r else r + Min(left, avail - r)) && FsOk(M())
                && ino[i].size == (if off0 + r > old(ino)[i].size then off0 + r else old(ino)[i].size)
                && Contents(M(), i) == Splice(Contents(old(M()), i), off0, src[..put])[..ino[i].size]
                && forall j :: 0 <= j < |ino| && j != i ==> Contents(M(), j) == Contents(old(M()), j)
      ensures forall b :: 0 <= b < |own| ==> OwnOk(old(M()), M(), i, off0, |src|, b)
    {
      ghost var f0 := M();
      assert Mapped(f0, i);
      if off0 > ino[i].size || Add32(off0, |src|) < off0 { return -1, false, 0; }
      if off0 + |src| > MAXFILE * BSIZE { return -1, false, 0; }
      r, panicked, put := WriteAll(i, off0, src, avail, left);
      ghost var f := M();
      WrittenNoBusy(f0, f, i, off0, src, put);
      if panicked { return; }
      if off0 + r > ino[i].size { ino := ino[i := ino[i].(size := off0 + r)]; }
      else { SameSize(f, i); }
      WrittenAll(f0, f, M(), i, off0, src, put, r);
      forall b | 0 <= b < |own| ensures OwnOk(f0, M(), i, off0, |src|, b) { assert OwnOk(f0, f, i, off0, |src|, b); }
    }

    /** What writei stores, readi reads back. */
    method WriteThenRead(i: int, off: int, src: seq<int>) returns (r: int, panicked: bool, back: seq<int>)
      requires FsOk(M()) && 0 <= i < |ino| && 0 <= off < TWO32 && |src| < TWO32
      modifies this
      ensures |ino| == |old(ino)|
      ensures !panicked ==> (r == -1 <==> off > old(ino)[i].size || off + |src| > MAXFILE * BSIZE)
      ensures !panicked && r != -1 ==> r == |src| && back == src
    {
      ghost var put;
      r, panicked, put := Writei(i, off, src, |src|, 0);
      back := [];
      if panicked || r == -1 { return; }
      assert src[..put] == src;
      SplicedBack(Contents(old(M()), i), off, src, Contents(M(), i));
      var tot;
      tot, back := Readi(i, off, |src|, |src|);
    }

    /** writei's loop. */
    method WriteAll(i: int, off0: int, src: seq<int>, avail: nat, left: nat) returns (tot: int, panicked: bool, ghost put: int)
      requires Wf(M()) && 0 <= i < |ino| && Mapped(M(), i) && 0 <= off0 <= ino[i].size
      requires off0 + |src| <= MAXFILE * BSIZE && avail <= |src|
      modifies this
      ensures Wf(M()) && Written(old(M()), M(), i, off0, src, put) && put <= avail && (panicked ==> Full(M()))
      ensures !panicked ==> Pieces(off0, |src|, avail, tot) && put == if tot == |src| then tot else tot + Min(left, avail - tot)
    {
      ghost var f0 := M();
      WrittenNone(f0, i, off0, src);
      var off, n := off0, |src|;
      tot, put, panicked := 0, 0, false;
      while tot < n
        invariant 0 <= tot <= avail && off == off0 + tot && Wf(M()) && Written(f0, M(), i, off0, src, tot)
        invariant put == tot && !panicked && (tot == 0 || tot == n || off % BSIZE == 0)
      {
        var m := Min(n - tot, BSIZE - off % BSIZE);
        var copied := if tot + m <= avail then m else Min(left, avail - tot);
        panicked := WriteChunk(i, off, tot, src, copied, f0, off0);
        if panicked { return; }
        put := tot + copied;
        if tot + m > avail { return; }
        NextBoundary(off, m, n - tot);
        tot, off := tot + m, off + m;
      }
    }

    /** One turn of writei's loop; the copy puts `copied` bytes into the buffer. */
    method WriteChunk(i: int, off: int, tot: int, src: seq<int>, copied: nat, ghost f0: Fs, ghost off0: int) returns (panicked: bool)
      requires Wf(f0) && 0 <= i < |f0.ino| && Wf(M()) && Written(f0, M(), i, off0, src, tot)
      requires 0 <= off0 && off == off0 + tot && 0 <= tot < |src| && off0 + |src| <= MAXFILE * BSIZE
      requires copied <= Min(|src| - tot, BSIZE - off % BSIZE)
      modifies this
      ensures Wf(M()) && (panicked ==> Full(M()))
      ensures Written(f0, M(), i, off0, src, if panicked then tot else tot + copied)
    {
      var bn, k := off / BSIZE, off % BSIZE;
      ghost var f := M();
      var b := Bmap(i, bn);
      ghost var f1 := M();
      if b == 0 {
        if f1 != f { WrittenStill(f0, f, f1, i, off0, src, tot); }
        return true;
      }
      var part := src[tot..tot + copied];
      BlockOfOk(f1, i, bn);
      PutBytesOk(f1, b, k, part);
      data := data[b := data[b][..k] + part + data[b][k + copied..]];
      assert M() == PutBytes(f1, b, k, part);
      WrittenNext(f0, f, f1, M(), i, off0, src, tot, bn, k, part);
      return false;
    }
  }

  /** r is how many bytes the complete pieces have: the pieces end at block boundaries, and the
      next one cannot be read to its end. */
  ghost predicate Pieces(off: int, n: int, avail: int, r: int) {
    && 0 <= r <= avail
    && (r == n || (avail < r + Min(n - r, BSIZE - (off + r) % BSIZE) && (r == 0 || (off + r) % BSIZE == 0)))
  }

  lemma NextBoundary(off: int, m: int, rest: int)
    requires 0 <= off && m == Min(rest, BSIZE - off % BSIZE)
    ensures m == rest || (off + m) % BSIZE == 0
  {}

  lemma Join(c: seq<int>, a: int, b: int, d: int)
    requires 0 <= a <= b <= d <= |c|
    ensures c[a..b] + c[b..d] == c[a..d]
  {}

  lemma Within(bn: int, k: int)
    requires 0 <= k < BSIZE
    ensures (bn * BSIZE + k) / BSIZE == bn && (bn * BSIZE + k) % BSIZE == k
  {}

  /** What one block contributes to a read. */
  lemma ReadPart(f: Fs, i: int, bn: int, k: int, off: int, m: int)
    requires Wf(f) && 0 <= i < |f.ino| && Mapped(f, i) && 0 <= bn < MAXFILE && off == bn * BSIZE + k
    requires 0 <= k && 0 < m && k + m <= BSIZE && off + m <= f.ino[i].size
    ensures 0 < BlockOf(f, i, bn) < |f.data| && f.data[BlockOf(f, i, bn)][k..k + m] == Contents(f, i)[off..off + m]
  {
    BlockOfOk(f, i, bn);
    var bytes, c := f.data[BlockOf(f, i, bn)][k..k + m], Contents(f, i)[off..off + m];
    forall x | 0 <= x < m ensures bytes[x] == c[x] {
      Within(bn, k + x);
      assert off + x == bn * BSIZE + (k + x) && c[x] == Contents(f, i)[off + x] == Cell(f, i, bn, k + x);
    }
  }

  lemma SameSize(f: Fs, i: int)
    requires 0 <= i < |f.ino|
    ensures SetSize(f, i, f.ino[i].size) == f
  {}
}
