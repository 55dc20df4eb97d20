/** The progress of itrunc. */
module FileTrunc {
  import opened FileBlocks
  import opened FileContents

  /** A block that itrunc has given back once it is past the first d slots of inode i
      and the first e entries of its indirect block. */
  predicate Gone(o: Owner, i: int, d: int, e: int) {
    o.Ref? && o.loc.i == i && match o.loc { case Slot(_, k) => k < d case Ent(_, j) => j < e }
  }

  ghost predicate BlockGone(f0: Fs, f: Fs, i: int, d: int, e: int, b: int)
    requires Sized(f0) && Sized(f) && 0 <= b < |f0.own| == |f.own|
  {
    if Gone(f0.own[b], i, d, e) then f.own[b] == Free && !f.bit[b] else f.own[b] == f0.own[b] && f.bit[b] == f0.bit[b]
  }

  ghost predicate Cleared(f0: Fs, f: Fs, i: int, d: int, e: int)
    requires Sized(f0) && 0 <= i < |f0.ino|
  {
    && Sized(f) && |f.own| == |f0.own| && |f.ino| == |f0.ino| && f.data == f0.data
    && (forall b :: 0 <= b < |f0.own| ==> BlockGone(f0, f, i, d, e, b))
    && (forall j :: 0 <= j < |f0.ino| && j != i ==> f.ino[j] == f0.ino[j])
    && (forall k :: 0 <= k <= NDIRECT ==> f.ino[i].addrs[k] == if k < d then 0 else f0.ino[i].addrs[k])
  }

  /** Slot k is next: its block has its bit set, and is given back. */
  lemma ClearSlot(f0: Fs, f: Fs, i: int, k: int, e: int)
    requires Wf(f0) && 0 <= i < |f0.ino| && Cleared(f0, f, i, k, e) && 0 <= k <= NDIRECT
    ensures var b := f0.ino[i].addrs[k];
            if b == 0 then Cleared(f0, f, i, k + 1, e)
            else 0 < b < |f.own| && f.bit[b] && Cleared(f0, Store(Release(f, b), Slot(i, k), 0), i, k + 1, e)
  {
    var b, d := f0.ino[i].addrs[k], k + 1;
    assert LocOk(f0, Slot(i, k));
    if b == 0 {
      forall x | 0 <= x < |f0.own| ensures BlockGone(f0, f, i, d, e, x) {
        assert BlockGone(f0, f, i, k, e, x) && BlockOk(f0, x);
      }
    } else {
      assert BlockGone(f0, f, i, k, e, b) && BlockOk(f0, b);
      var f' := Store(Release(f, b), Slot(i, k), 0);
      forall x | 0 <= x < |f0.own| ensures BlockGone(f0, f', i, d, e, x) {
        assert BlockGone(f0, f, i, k, e, x) && BlockOk(f0, x);
      }
    }
  }

  /** Entry j of the indirect block is next. */
  lemma ClearEntry(f0: Fs, f: Fs, i: int, j: int)
    requires Wf(f0) && 0 <= i < |f0.ino| && Cleared(f0, f, i, NDIRECT, j) && 0 <= j < NINDIRECT && 0 < Ind(f0, i) < |f0.data|
    ensures var b := Word(f0.data[Ind(f0, i)], j);
            if b == 0 then Cleared(f0, f, i, NDIRECT, j + 1)
            else 0 < b < |f.own| && f.bit[b] && Cleared(f0, Release(f, b), i, NDIRECT, j + 1)
  {
    var b, e := Word(f0.data[Ind(f0, i)], j), j + 1;
    assert LocOk(f0, Ent(i, j));
    var f' := if b == 0 then f else Release(f, b);
    if b != 0 { assert BlockGone(f0, f, i, NDIRECT, j, b) && BlockOk(f0, b); }
    forall x | 0 <= x < |f0.own| ensures BlockGone(f0, f', i, NDIRECT, e, x) {
      assert BlockGone(f0, f, i, NDIRECT, j, x) && BlockOk(f0, x);
    }
  }

  /** Without an indirect block there are no entries. */
  lemma NoEntries(f0: Fs, f: Fs, i: int, d: int)
    requires Wf(f0) && 0 <= i < |f0.ino| && Cleared(f0, f, i, d, 0) && Ind(f0, i) == 0
    ensures Cleared(f0, f, i, d, NINDIRECT)
  {
    forall x | 0 <= x < |f0.own| ensures BlockGone(f0, f, i, d, NINDIRECT, x) {
      assert BlockGone(f0, f, i, d, 0, x) && BlockOk(f0, x);
    }
  }

  lemma ClearedAt(f0: Fs, f: Fs, i: int, l: Loc)
    requires Wf(f0) && 0 <= i < |f0.ino| && Cleared(f0, f, i, NDIRECT + 1, NINDIRECT) && Place(f0, l)
    ensures At(f, l) == if l.i == i then 0 else At(f0, l)
  {}

  lemma ClearedWf(f0: Fs, f: Fs, i: int)
    requires Wf(f0) && 0 <= i < |f0.ino| && Cleared(f0, f, i, NDIRECT + 1, NINDIRECT)
    ensures Wf(f)
  {
    forall x | 0 <= x < |f.own| ensures BlockOk(f, x) {
      assert BlockGone(f0, f, i, NDIRECT + 1, NINDIRECT, x) && BlockOk(f0, x);
      if f.own[x].Ref? { ClearedAt(f0, f, i, f0.own[x].loc); }
    }
    forall l | Place(f, l) ensures LocOk(f, l) {
      assert LocOk(f0, l);
      ClearedAt(f0, f, i, l);
      if At(f, l) != 0 { assert BlockGone(f0, f, i, NDIRECT + 1, NINDIRECT, At(f0, l)); }
    }
    assert BlockGone(f0, f, i, NDIRECT + 1, NINDIRECT, 0);
  }

  /** After itrunc the inode has no block and no bytes, every other file is as it was, and
      exactly the blocks that inode i used have become free. */
  lemma Truncated(f0: Fs, f: Fs, f': Fs, i: int)
    requires FsOk(f0) && 0 <= i < |f0.ino| && Cleared(f0, f, i, NDIRECT + 1, NINDIRECT) && f' == SetSize(f, i, 0)
    ensures FsOk(f') && |Contents(f', i)| == 0
    ensures forall n :: 0 <= n < MAXFILE ==> BlockOf(f', i, n) == 0
    ensures forall j :: 0 <= j < |f0.ino| && j != i ==> Contents(f', j) == Contents(f0, j)
    ensures forall b :: 0 <= b < |f0.own| ==> f'.own[b] == if f0.own[b].Ref? && f0.own[b].loc.i == i then Free else f0.own[b]
  {
    ClearedWf(f0, f, i);
    SetSizeOk(f, i, 0);
    forall j | 0 <= j < |f0.ino| ensures Mapped(f', j) && (j != i ==> Contents(f', j) == Contents(f0, j)) {
      assert Mapped(f0, j);
      if j != i {
        forall n | 0 <= n < MAXFILE ensures SameBlock(f0, f', j, n) { ClearedAt(f0, f, i, LocOf(j, n)); }
        SameFileContents(f0, f', j);
      }
    }
    forall n | 0 <= n < MAXFILE ensures BlockOf(f', i, n) == 0 { ClearedAt(f0, f, i, LocOf(i, n)); }
    forall b | 0 <= b < |f0.own| ensures f'.own[b] == if f0.own[b].Ref? && f0.own[b].loc.i == i then Free else f0.own[b] {
      assert BlockGone(f0, f, i, NDIRECT + 1, NINDIRECT, b) && BlockOk(f0, b);
    }
  }
}
