/** Inodes, indirect blocks and the free bitmap of kernel/fs.c as a value, and the
    updates that balloc, bfree, bmap, itrunc and writei make to it.

    A block is BSIZE bytes, whatever it is used for; an indirect block's entries are read
    from them four at a time, least significant byte first.  That a write to a file never
    lands in an indirect block, nor an entry in a file's block, follows from the ghost
    record of what every block is used for. */
module FileBlocks {
  import opened Machine

  const BSIZE := 1024
  const NDIRECT := 12
  const NINDIRECT := 256
  const MAXFILE := 268          // NDIRECT + NINDIRECT

  datatype Inode = Inode(addrs: seq<int>, size: int)

  type Block = b: seq<int> | |b| == BSIZE witness seq(BSIZE, _ => 0)

  function ZeroBlock(): (z: Block)
    ensures forall i :: 0 <= i < BSIZE ==> z[i] == 0
  { seq(BSIZE, _ => 0) }

  // ---------- the entries of an indirect block ----------

  /** Entry j of an indirect block. */
  function Word(b: Block, j: int): int
    requires 0 <= j < NINDIRECT
  { b[4 * j] + 0x100 * b[4 * j + 1] + 0x1_0000 * b[4 * j + 2] + 0x100_0000 * b[4 * j + 3] }

  function PutWord(b: Block, j: int, v: int): Block
    requires 0 <= j < NINDIRECT
  { b[4 * j := v % 0x100][4 * j + 1 := v / 0x100 % 0x100][4 * j + 2 := v / 0x1_0000 % 0x100][4 * j + 3 := v / 0x100_0000 % 0x100] }

  /** The four bytes of a number make up the number. */
  lemma FourBytes(v: int)
    requires 0 <= v < TWO32
    ensures v % 0x100 + 0x100 * (v / 0x100 % 0x100) + 0x1_0000 * (v / 0x1_0000 % 0x100) + 0x100_0000 * (v / 0x100_0000 % 0x100) == v
  {
    var a, b, c := v / 0x100, v / 0x1_0000, v / 0x100_0000;
    assert b == a / 0x100 && c == b / 0x100 && c < 0x100;
  }

  /** A stored entry reads back, and no other entry changes. */
  lemma WordOfPutWord(b: Block, j: int, v: int, k: int)
    requires 0 <= j < NINDIRECT && 0 <= k < NINDIRECT && 0 <= v < TWO32
    ensures Word(PutWord(b, j, v), k) == if k == j then v else Word(b, k)
  {
    FourBytes(v);
  }

  lemma WordOfZero(j: int)
    requires 0 <= j < NINDIRECT
    ensures Word(ZeroBlock(), j) == 0
  {}

  // ---------- what blocks are used for ----------

  /** A place that can hold a block number: slot k of inode i (slot NDIRECT leads to the
      indirect block), or entry j of inode i's indirect block. */
  datatype Loc = Slot(i: int, k: int) | Ent(i: int, j: int)

  /** What a block is used for.  Busy: allocated, not yet stored anywhere. */
  datatype Owner = Meta | Free | Busy | Ref(loc: Loc)

  datatype Fs = Fs(bit: seq<bool>, own: seq<Owner>, data: seq<Block>, ino: seq<Inode>)

  ghost predicate Sized(f: Fs) {
    && TWO32 > |f.bit| == |f.own| == |f.data| > 0
    && (forall i :: 0 <= i < |f.ino| ==> |f.ino[i].addrs| == NDIRECT + 1)
  }

  ghost predicate Place(f: Fs, loc: Loc) {
    match loc
    case Slot(i, k) => 0 <= i < |f.ino| && 0 <= k <= NDIRECT
    case Ent(i, j) => 0 <= i < |f.ino| && 0 <= j < NINDIRECT
  }

  /** The indirect block of inode i. */
  ghost function Ind(f: Fs, i: int): int
    requires Sized(f) && 0 <= i < |f.ino|
  { f.ino[i].addrs[NDIRECT] }

  /** The block number at loc; 0 for none. */
  ghost function At(f: Fs, loc: Loc): int
    requires Sized(f) && Place(f, loc)
  {
    match loc
    case Slot(i, k) => f.ino[i].addrs[k]
    case Ent(i, j) => if 0 < Ind(f, i) < |f.data| then Word(f.data[Ind(f, i)], j) else 0
  }

  ghost predicate LocOk(f: Fs, loc: Loc)
    requires Sized(f) && Place(f, loc)
  {
    At(f, loc) != 0 ==> 0 < At(f, loc) < |f.own| && f.own[At(f, loc)] == Ref(loc)
  }

  ghost predicate BlockOk(f: Fs, b: int)
    requires Sized(f) && 0 <= b < |f.own|
  {
    && (f.bit[b] <==> f.own[b] != Free)
    && (f.own[b].Ref? ==> Place(f, f.own[b].loc) && At(f, f.own[b].loc) == b)
  }

  /** Between two calls no block is in transit. */
  ghost predicate NoBusy(f: Fs) { forall b :: 0 <= b < |f.own| ==> f.own[b] != Busy }

  /** A place for the number of a block of file data, not of an indirect block. */
  predicate DataLoc(l: Loc) { l.Slot? ==> l.k != NDIRECT }

  /** Block b holds file data. */
  ghost predicate DataBlock(f: Fs, b: int) { 0 <= b < |f.own| && f.own[b].Ref? && DataLoc(f.own[b].loc) }

  /** A block of file data is nobody's indirect block. */
  lemma KindsApart(f: Fs, b: int, i: int)
    requires Wf(f) && DataBlock(f, b) && 0 <= i < |f.ino|
    ensures Ind(f, i) != b
  {
    assert LocOk(f, Slot(i, NDIRECT));
  }

  /** A block's bit is set exactly when it is metadata, in transit, or stored in
      exactly one place. */
  ghost predicate Wf(f: Fs) {
    && Sized(f) && f.own[0] == Meta
    && (forall b :: 0 <= b < |f.own| ==> BlockOk(f, b))
    && (forall loc :: Place(f, loc) ==> LocOk(f, loc))
  }

  // ---------- balloc and bfree ----------

  function Allocate(f: Fs, b: int): Fs
    requires 0 <= b < |f.bit| == |f.own| == |f.data|
  { f.(bit := f.bit[b := true], own := f.own[b := Busy], data := f.data[b := ZeroBlock()]) }

  /** No place holds a free block's number. */
  lemma AtNotFree(f: Fs, loc: Loc, b: int)
    requires Wf(f) && Place(f, loc) && 0 <= b < |f.own| && !f.own[b].Ref?
    ensures At(f, loc) == b ==> b == 0
  {
    assert LocOk(f, loc);
  }

  lemma AllocateAt(f: Fs, b: int, loc: Loc)
    requires Wf(f) && 0 < b < |f.own| && f.own[b] == Free && Place(f, loc)
    ensures Sized(Allocate(f, b)) && At(Allocate(f, b), loc) == At(f, loc)
  {
    if loc.Ent? { AtNotFree(f, Slot(loc.i, NDIRECT), b); }
  }

  lemma AllocateOk(f: Fs, b: int)
    requires Wf(f) && 0 < b < |f.own| && f.own[b] == Free
    ensures Wf(Allocate(f, b))
    ensures NoBusy(f) ==> forall x :: 0 <= x < |f.own| ==> (Allocate(f, b).own[x] == Busy <==> x == b)
  {
    var f' := Allocate(f, b);
    forall x | 0 <= x < |f'.own| ensures BlockOk(f', x) {
      assert BlockOk(f, x);
      if f.own[x].Ref? { AllocateAt(f, b, f.own[x].loc); }
    }
    forall loc | Place(f', loc) ensures LocOk(f', loc) {
      AllocateAt(f, b, loc);
      assert LocOk(f, loc);
      AtNotFree(f, loc, b);
    }
  }

  function Release(f: Fs, b: int): Fs
    requires 0 <= b < |f.bit| == |f.own|
  { f.(bit := f.bit[b := false], own := f.own[b := Free]) }

  lemma ReleaseOk(f: Fs, b: int)
    requires Wf(f) && 0 < b < |f.own| && f.own[b] == Busy
    ensures Wf(Release(f, b)) && f.bit[b]
    ensures (forall x :: 0 <= x < |f.own| && f.own[x] == Busy ==> x == b) ==> NoBusy(Release(f, b))
  {
    var f' := Release(f, b);
    assert BlockOk(f, b);
    forall x | 0 <= x < |f'.own| ensures BlockOk(f', x) {
      assert BlockOk(f, x);
      if f.own[x].Ref? { assert At(f', f.own[x].loc) == At(f, f.own[x].loc); }
    }
    forall loc | Place(f', loc) ensures LocOk(f', loc) {
      assert At(f', loc) == At(f, loc) && LocOk(f, loc);
      AtNotFree(f, loc, b);
    }
  }

  // ---------- storing and erasing a block number ----------

  /** Block number b is stored at loc. */
  function Store(f: Fs, loc: Loc, b: int): Fs
    requires match loc
             case Slot(i, k) => 0 <= i < |f.ino| && 0 <= k < |f.ino[i].addrs|
             case Ent(i, j) => 0 <= i < |f.ino| && |f.ino[i].addrs| > NDIRECT && 0 < f.ino[i].addrs[NDIRECT] < |f.data|
                               && 0 <= j < NINDIRECT
  {
    match loc
    case Slot(i, k) => f.(ino := f.ino[i := f.ino[i].(addrs := f.ino[i].addrs[k := b])])
    case Ent(i, j) =>
      var q := f.ino[i].addrs[NDIRECT];
      f.(data := f.data[q := PutWord(f.data[q], j, b)])
  }

  /** Busy block b gets its place. */
  function Link(f: Fs, loc: Loc, b: int): Fs
    requires Sized(f) && Place(f, loc) && (loc.Ent? ==> 0 < f.ino[loc.i].addrs[NDIRECT] < |f.data|) && 0 <= b < |f.own|
  { Store(f, loc, b).(own := f.own[b := Ref(loc)]) }

  lemma LinkAt(f: Fs, loc: Loc, b: int, l: Loc)
    requires Wf(f) && Place(f, loc) && 0 < b < |f.own| && f.own[b] == Busy && At(f, loc) == 0
    requires loc.Ent? ==> 0 < Ind(f, loc.i) < |f.data|
    requires loc == Slot(loc.i, NDIRECT) ==> f.data[b] == ZeroBlock()
    requires Place(f, l)
    ensures Sized(Link(f, loc, b)) && At(Link(f, loc, b), l) == if l == loc then b else At(f, l)
  {
    if l.Ent? {
      assert LocOk(f, Slot(l.i, NDIRECT)) && LocOk(f, Slot(loc.i, NDIRECT));
      WordOfZero(l.j);
      if loc.Ent? { WordOfPutWord(f.data[Ind(f, loc.i)], loc.j, b, l.j); }
    }
  }

  lemma LinkOk(f: Fs, loc: Loc, b: int)
    requires Wf(f) && Place(f, loc) && 0 < b < |f.own| && f.own[b] == Busy && At(f, loc) == 0
    requires loc.Ent? ==> 0 < Ind(f, loc.i) < |f.data|
    requires loc == Slot(loc.i, NDIRECT) ==> f.data[b] == ZeroBlock()
    ensures Wf(Link(f, loc, b))
  {
    var f' := Link(f, loc, b);
    LinkAt(f, loc, b, loc);
    forall x | 0 <= x < |f'.own| ensures BlockOk(f', x) {
      assert BlockOk(f, x);
      if f.own[x].Ref? { LinkAt(f, loc, b, f.own[x].loc); }
    }
    forall l | Place(f', l) ensures LocOk(f', l) {
      LinkAt(f, loc, b, l);
      assert LocOk(f, l);
      AtNotFree(f, l, b);
    }
  }

  // ---------- the file's view ----------

  /** Where the number of inode i's block bn is kept. */
  function LocOf(i: int, bn: int): Loc { if bn < NDIRECT then Slot(i, bn) else Ent(i, bn - NDIRECT) }

  ghost function BlockOf(f: Fs, i: int, bn: int): int
    requires Sized(f) && 0 <= i < |f.ino| && 0 <= bn < MAXFILE
  { At(f, LocOf(i, bn)) }

  lemma BlockOfOk(f: Fs, i: int, bn: int)
    requires Wf(f) && 0 <= i < |f.ino| && 0 <= bn < MAXFILE
    ensures BlockOf(f, i, bn) != 0 ==> 0 < BlockOf(f, i, bn) < |f.own| && f.own[BlockOf(f, i, bn)] == Ref(LocOf(i, bn))
  {
    assert LocOk(f, LocOf(i, bn));
  }

  /** What bmap may make of block b: leave it, or take a free one for block bn of inode i or
      for its indirect block. */
  ghost predicate BmappedOwn(f: Fs, f': Fs, i: int, bn: int, b: int)
    requires 0 <= b < |f.own| == |f'.own|
  {
    || f'.own[b] == f.own[b]
    || (f.own[b] == Free && (f'.own[b] == Ref(LocOf(i, bn)) || (bn >= NDIRECT && f'.own[b] == Ref(Slot(i, NDIRECT)))))
  }

  /** Only block bn of inode i may have got a block, a fresh zeroed one; no other block of any
      file, and no byte of one, changes. */
  ghost predicate Bmapped(f: Fs, f': Fs, i: int, bn: int)
    requires Sized(f) && Sized(f') && 0 <= i < |f.ino| && 0 <= bn < MAXFILE
  {
    && |f'.ino| == |f.ino| && |f'.own| == |f.own|
    && (forall j :: 0 <= j < |f.ino| ==> f'.ino[j].size == f.ino[j].size)
    && (forall j, n :: 0 <= j < |f.ino| && 0 <= n < MAXFILE && (j != i || n != bn) ==> BlockOf(f', j, n) == BlockOf(f, j, n))
    && BlockOf(f', i, bn) != 0
    && (BlockOf(f, i, bn) != 0 ==> BlockOf(f', i, bn) == BlockOf(f, i, bn))
    && (forall b :: 0 <= b < |f.own| ==> BmappedOwn(f, f', i, bn, b))
    && (forall b :: 0 <= b < |f.own| && DataBlock(f, b) ==> f'.data[b] == f.data[b])
    && (BlockOf(f, i, bn) == 0 && 0 <= BlockOf(f', i, bn) < |f'.data| ==> f'.data[BlockOf(f', i, bn)] == ZeroBlock())
  }

  /** From f to f' inode i has got an indirect block, if it had none, and nothing else has changed. */
  ghost predicate IndirectReady(f: Fs, f': Fs, i: int)
    requires Sized(f) && 0 <= i < |f.ino|
  {
    && Wf(f') && |f'.ino| == |f.ino| && |f'.own| == |f.own| && 0 < Ind(f', i) < |f'.data|
    && (forall j :: 0 <= j < |f.ino| ==> f'.ino[j].size == f.ino[j].size)
    && (forall j, n :: 0 <= j < |f.ino| && 0 <= n < MAXFILE ==> BlockOf(f', j, n) == BlockOf(f, j, n))
    && (forall b :: 0 <= b < |f.own| ==> f'.own[b] == f.own[b] || (f.own[b] == Free && f'.own[b] == Ref(Slot(i, NDIRECT))))
    && (forall b :: 0 <= b < |f.own| && DataBlock(f, b) ==> f'.data[b] == f.data[b])
  }

  /** balloc and then store at loc. */
  function New(f: Fs, loc: Loc, b: int): Fs
    requires Sized(f) && Place(f, loc) && 0 <= b < |f.own|
    requires Sized(Allocate(f, b)) && (loc.Ent? ==> 0 < f.ino[loc.i].addrs[NDIRECT] < |f.data|)
  { Link(Allocate(f, b), loc, b) }

  lemma NewOk(f: Fs, loc: Loc, b: int)
    requires Wf(f) && Place(f, loc) && 0 < b < |f.own| && f.own[b] == Free && At(f, loc) == 0
    requires loc.Ent? ==> 0 < Ind(f, loc.i) < |f.data|
    ensures Wf(Allocate(f, b)) && Wf(New(f, loc, b))
    ensures forall l :: Place(f, l) ==> At(New(f, loc, b), l) == if l == loc then b else At(f, l)
    ensures New(f, loc, b).own == f.own[b := Ref(loc)] && (NoBusy(f) ==> NoBusy(New(f, loc, b)))
    ensures forall x :: 0 <= x < |f.own| && x != b && !(loc.Ent? && x == Ind(f, loc.i)) ==> New(f, loc, b).data[x] == f.data[x]
    ensures New(f, loc, b).data[b] == ZeroBlock()
    ensures |New(f, loc, b).ino| == |f.ino| && forall j :: 0 <= j < |f.ino| ==> New(f, loc, b).ino[j].size == f.ino[j].size
  {
    AllocateOk(f, b);
    var f1 := Allocate(f, b);
    AllocateAt(f, b, loc);
    if loc.Ent? { AtNotFree(f, Slot(loc.i, NDIRECT), b); }
    LinkOk(f1, loc, b);
    forall l | Place(f, l) ensures At(New(f, loc, b), l) == if l == loc then b else At(f, l) {
      AllocateAt(f, b, l);
      LinkAt(f1, loc, b, l);
    }
  }

  lemma NewDirect(f: Fs, i: int, bn: int, b: int)
    requires Wf(f) && 0 <= i < |f.ino| && 0 <= bn < MAXFILE && 0 < b < |f.own| && f.own[b] == Free
    requires BlockOf(f, i, bn) == 0 && (bn >= NDIRECT ==> 0 < Ind(f, i) < |f.data|)
    ensures Wf(Allocate(f, b)) && Wf(New(f, LocOf(i, bn), b)) && Bmapped(f, New(f, LocOf(i, bn), b), i, bn)
    ensures BlockOf(New(f, LocOf(i, bn), b), i, bn) == b
  {
    NewOk(f, LocOf(i, bn), b);
    forall x | 0 <= x < |f.own| && DataBlock(f, x) ensures New(f, LocOf(i, bn), b).data[x] == f.data[x] { KindsApart(f, x, i); }
  }

  lemma NewIndirect(f: Fs, i: int, b: int)
    requires Wf(f) && 0 <= i < |f.ino| && 0 < b < |f.own| && f.own[b] == Free && Ind(f, i) == 0
    ensures Wf(Allocate(f, b)) && IndirectReady(f, New(f, Slot(i, NDIRECT), b), i)
  {
    NewOk(f, Slot(i, NDIRECT), b);
  }

  lemma BmappedAfter(f: Fs, f1: Fs, f2: Fs, i: int, bn: int)
    requires Wf(f) && 0 <= i < |f.ino| && NDIRECT <= bn < MAXFILE && IndirectReady(f, f1, i) && Wf(f2) && Bmapped(f1, f2, i, bn)
    ensures Bmapped(f, f2, i, bn)
  {
    forall b | 0 <= b < |f.own| ensures BmappedOwn(f, f2, i, bn, b) { assert BmappedOwn(f1, f2, i, bn, b); }
  }

  // ---------- writing bytes ----------

  /** s is put into block b from position k on. */
  function PutBytes(f: Fs, b: int, k: int, s: seq<int>): Fs
    requires 0 <= b < |f.data| && 0 <= k <= k + |s| <= BSIZE
  { f.(data := f.data[b := f.data[b][..k] + s + f.data[b][k + |s|..]]) }

  /** Bytes put into a block of file data disturb no block number. */
  lemma PutBytesOk(f: Fs, b: int, k: int, s: seq<int>)
    requires Wf(f) && DataBlock(f, b) && 0 <= k <= k + |s| <= BSIZE
    ensures Wf(PutBytes(f, b, k, s))
    ensures forall l :: Place(f, l) ==> At(PutBytes(f, b, k, s), l) == At(f, l)
  {
    var f' := PutBytes(f, b, k, s);
    forall l | Place(f, l) ensures At(f', l) == At(f, l) && LocOk(f', l) {
      assert LocOk(f, l);
      KindsApart(f, b, l.i);
    }
    forall x | 0 <= x < |f'.own| ensures BlockOk(f', x) { assert BlockOk(f, x); }
  }
}
