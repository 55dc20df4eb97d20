/** Giving a whole page table back: what freewalk does to memory. */
module PageFree {
  import opened PageMem

  /** No page of tree r is mapped. */
  ghost predicate NoLeaf(tr: map<Va, Word>, r: int) { forall v :: Va(r, v) !in tr }

  /** Wf, except that entry k of table x may still lead to a table that is gone. */
  ghost predicate WfBut(m: Mem, x: Node, k: int) {
    && Sized(m) && FreeOk(m) && TblOk(m) && TrOk(m) && LeafOk(m)
    && forall n, i :: n in m.tbl && 0 <= m.tbl[n] < |m.pages| && 0 <= i < NPTE && (n != x || i != k) ==> EntryOk(m, n, i)
  }

  /** Table n of the tree, and everything below it. */
  predicate Under(x: Node, n: Node) {
    x.r == n.r && match n
                  case L2(_) => true
                  case L1(_, i) => !x.L2? && x.i == i
                  case L0(_, _, _) => x == n
  }

  /** Everything below the first i entries of n. */
  predicate Below(x: Node, n: Node, i: int) {
    x.r == n.r && match n
                  case L2(_) => !x.L2? && x.i < i
                  case L1(_, k) => x.L0? && x.i == k && x.j < i
                  case L0(_, _, _) => false
  }

  lemma BelowNext(x: Node, n: Node, i: nat)
    requires !n.L0?
    ensures Below(x, n, i + 1) && !Below(x, n, i) ==> Under(x, Child(n, i))
    ensures Under(x, Child(n, i)) ==> Below(x, n, i + 1)
  {}

  /** Page q, if it held a table below the first i entries of n, is free in m'; any other
      page keeps its use. */
  ghost predicate PrunedAt(m: Mem, m': Mem, gone: bool, q: int)
    requires 0 <= q < |m.own| == |m'.own| == |m.pages| == |m'.pages|
  {
    if gone then m'.own[q] == Free
    else m'.own[q] == m.own[q] && (m.own[q].Leaf? || m.own[q].Busy? ==> m'.pages[q] == m.pages[q])
  }

  /** From m to m' exactly the tables below the first i entries of n were freed. */
  ghost predicate Pruned(m: Mem, m': Mem, n: Node, i: int) {
    && |m.own| == |m'.own| == |m.pages| == |m'.pages| && m'.tr == m.tr
    && (forall x :: x in m'.tbl <==> x in m.tbl && !Below(x, n, i))
    && (forall x :: x in m'.tbl && x in m.tbl ==> m'.tbl[x] == m.tbl[x])
    && forall q :: 0 <= q < |m.own| ==> PrunedAt(m, m', m.own[q].Table? && Below(m.own[q].n, n, i), q)
  }

  /** From m to m' exactly table n and the tables under it were freed. */
  ghost predicate Cut(m: Mem, m': Mem, n: Node) {
    && |m.own| == |m'.own| == |m.pages| == |m'.pages| && m'.tr == m.tr
    && (forall x :: x in m'.tbl <==> x in m.tbl && !Under(x, n))
    && (forall x :: x in m'.tbl && x in m.tbl ==> m'.tbl[x] == m.tbl[x])
    && forall q :: 0 <= q < |m.own| ==> PrunedAt(m, m', m.own[q].Table? && Under(m.own[q].n, n), q)
  }

  // ---------- one table ----------

  /** Table n is taken out of the tree and its page freed. */
  function Drop(m: Mem, n: Node): Mem
    requires n in m.tbl && Has(m, m.tbl[n]) && |m.pages| == |m.own| == |m.pos|
  { Push(m.(tbl := m.tbl - {n}), m.tbl[n]) }

  /** A bottom table of a tree without mapped pages holds no valid entry. */
  lemma BareEntry(m: Mem, n: Node, k: nat)
    requires Wf(m) && n in m.tbl && n.L0? && k < NPTE && NoLeaf(m.tr, n.r)
    ensures 0 <= m.tbl[n] < |m.pages| && !V(m.pages[m.tbl[n]][k])
  {
    assert NodeOk(m, n);
    var v := (n.i * 512 + n.j) * 512 + k;
    assert v / 512 == n.i * 512 + n.j && v / 262144 == n.i && v / 512 % 512 == n.j && v % 512 == k;
    assert LeafTable(n.r, v) == n && I0(v) == k;
    assert Pte(m, n.r, v) == m.pages[m.tbl[n]][k];
    assert Va(n.r, v) !in m.tr;
  }

  lemma DropTr(m: Mem, n: Node)
    requires Wf(m) && n in m.tbl && (n.L0? ==> NoLeaf(m.tr, n.r))
    ensures TrOk(Drop(m, n))
  {
    var m' := Drop(m, n);
    forall r, v {:trigger Pte(m', r, v)} ensures V(Pte(m', r, v)) <==> V(Pte(m, r, v))
      ensures V(Pte(m, r, v)) ==> Pte(m', r, v) == Pte(m, r, v)
    {
      var x := LeafTable(r, v);
      if x == n { BareEntry(m, n, I0(v)); }
      else if x in m.tbl { assert m.own[m.tbl[x]] == Table(x); }
    }
  }

  lemma DropTbl(m: Mem, n: Node)
    requires Sized(m) && TblOk(m) && FreeOk(m) && n in m.tbl && forall i :: 0 <= i < NPTE && !n.L0? ==> Child(n, i) !in m.tbl
    ensures Sized(Drop(m, n)) && TblOk(Drop(m, n)) && FreeOk(Drop(m, n))
  {
    var m1 := m.(tbl := m.tbl - {n});
    assert m.own[m.tbl[n]] == Table(n);
    PushFree(m1, m.tbl[n]);
    var m' := Drop(m, n);
    forall x | x in m'.tbl ensures Has(m', m'.tbl[x]) && m'.own[m'.tbl[x]] == Table(x) && NodeOk(m', x) {
      assert m.own[m.tbl[x]] == Table(x) && NodeOk(m, x);
      assert x.L1? && L2(x.r) == n ==> Child(n, x.i) == x;
      assert x.L0? && L1(x.r, x.i) == n ==> Child(n, x.j) == x;
    }
  }

  /** Dropping a table without children leaves at most its parent's entry dangling. */
  lemma DropOk(m: Mem, n: Node, x: Node, k: nat)
    requires Wf(m) && n in m.tbl && NoLeaf(m.tr, n.r) && forall i :: 0 <= i < NPTE && !n.L0? ==> Child(n, i) !in m.tbl
    requires n.L2? || (!x.L0? && n == Child(x, k))
    ensures WfBut(Drop(m, n), x, k) && (n.L2? ==> Wf(Drop(m, n)))
  {
    DropTr(m, n);
    DropTbl(m, n);
    var m' := Drop(m, n);
    forall y, i | y in m'.tbl && 0 <= m'.tbl[y] < |m'.pages| && 0 <= i < NPTE && (n.L2? || y != x || i != k)
      ensures EntryOk(m', y, i)
    {
      assert m.own[m.tbl[y]] == Table(y) && EntryOk(m, y, i);
      assert !y.L0? ==> Child(y, i) != n;
    }
  }

  /** Clearing the dangling entry makes memory well-formed again. */
  lemma ClearedOk(m: Mem, x: Node, k: nat)
    requires WfBut(m, x, k) && x in m.tbl && !x.L0? && k < NPTE && Child(x, k) !in m.tbl
    ensures 0 <= m.tbl[x] < |m.pages| && Wf(m.(pages := m.pages[m.tbl[x] := m.pages[m.tbl[x]][k := Zero]]))
  {
    var m' := m.(pages := m.pages[m.tbl[x] := m.pages[m.tbl[x]][k := Zero]]);
    assert m.own[m.tbl[x]] == Table(x);
    FreeKept(m, m');
    forall n | n in m'.tbl ensures NodeOk(m', n) { assert NodeOk(m, n); }
    forall n, i | n in m'.tbl && 0 <= m'.tbl[n] < |m'.pages| && 0 <= i < NPTE ensures EntryOk(m', n, i) {
      assert m.own[m.tbl[n]] == Table(n);
      if n != x || i != k { assert EntryOk(m, n, i); }
    }
    forall r, v {:trigger Pte(m', r, v)} ensures Pte(m', r, v) == Pte(m, r, v) {
      var n := LeafTable(r, v);
      if n in m.tbl { assert m.own[m.tbl[n]] == Table(n); }
    }
  }

  // ---------- composition ----------

  lemma PrunedNext(m: Mem, m1: Mem, m2: Mem, n: Node, i: nat)
    requires Pruned(m, m1, n, i) && !n.L0? && Cut(m1, m2, Child(n, i))
    ensures Pruned(m, m2, n, i + 1)
  {
    var c, j := Child(n, i), i + 1;
    forall x ensures x in m2.tbl <==> x in m.tbl && !Below(x, n, j) { BelowNext(x, n, i); }
    forall q | 0 <= q < |m.own| ensures PrunedAt(m, m2, m.own[q].Table? && Below(m.own[q].n, n, j), q) {
      assert PrunedAt(m, m1, m.own[q].Table? && Below(m.own[q].n, n, i), q);
      assert PrunedAt(m1, m2, m1.own[q].Table? && Under(m1.own[q].n, c), q);
      if m.own[q].Table? { BelowNext(m.own[q].n, n, i); }
    }
  }

  /** Entry i had no table below it. */
  lemma PrunedSkip(m: Mem, m1: Mem, n: Node, i: nat)
    requires Pruned(m, m1, n, i) && TblOk(m1) && i < NPTE && (n.L0? || Child(n, i) !in m1.tbl)
    ensures Pruned(m, m1, n, i + 1)
  {
    var j := i + 1;
    forall x | x in m1.tbl ensures !Below(x, n, j) {
      assert NodeOk(m1, x);
      if !n.L0? { BelowNext(x, n, i); }
    }
    forall q | 0 <= q < |m.own| ensures PrunedAt(m, m1, m.own[q].Table? && Below(m.own[q].n, n, j), q) {
      assert PrunedAt(m, m1, m.own[q].Table? && Below(m.own[q].n, n, i), q);
      assert m1.own[q].Table? ==> m1.own[q].n in m1.tbl;
    }
  }

  lemma CutAfter(m: Mem, m1: Mem, n: Node)
    requires Pruned(m, m1, n, NPTE) && TblOk(m) && TblOk(m1) && Sized(m1) && n in m1.tbl && n in m.tbl
    ensures Cut(m, Drop(m1, n), n)
  {
    var m2 := Drop(m1, n);
    forall x | x in m.tbl ensures Under(x, n) <==> x == n || Below(x, n, NPTE) { assert NodeOk(m, x); assert NodeOk(m, n); }
    forall q | 0 <= q < |m.own| ensures PrunedAt(m, m2, m.own[q].Table? && Under(m.own[q].n, n), q) {
      assert PrunedAt(m, m1, m.own[q].Table? && Below(m.own[q].n, n, NPTE), q);
    }
  }

  // ---------- a new root, and what no two owners share ----------

  function NewRoot(m: Mem, r: int): Mem
    requires Has(m, r)
  { m.(own := m.own[r := Table(L2(r))], tbl := m.tbl[L2(r) := r]) }

  lemma NewRootOk(m: Mem, r: int)
    requires Wf(m) && m.fs != [] && r == Last(m.fs) && 0 < r < |m.own| && m.own[r] == Free
    ensures Wf(Hold(m, r, Fill(Zero))) && Wf(NewRoot(Hold(m, r, Fill(Zero)), r))
    ensures Grew(m, NewRoot(Hold(m, r, Fill(Zero)), r), r) && NoLeaf(m.tr, r)
  {
    BusyPage(m, r, Fill(Zero));
    var m1 := Hold(m, r, Fill(Zero));
    NoTreeYet(m1, r);
    NewRootEntries(m1, r);
    forall p | 0 <= p < |m.own| ensures PageKept(m, NewRoot(m1, r), r, p) {}
  }

  lemma NewRootEntry(m1: Mem, r: int, n: Node, i: int)
    requires Sized(m1) && TblOk(m1) && EntriesOk(m1) && 0 < r < |m1.own| && m1.own[r] == Busy && m1.pages[r] == Fill(Zero)
    requires (forall n :: n in m1.tbl ==> n.r != r) && (n in m1.tbl || n == L2(r)) && 0 <= i < NPTE
    ensures n in NewRoot(m1, r).tbl && 0 <= NewRoot(m1, r).tbl[n] < |m1.pages| ==> EntryOk(NewRoot(m1, r), n, i)
  {
    if n == L2(r) { assert m1.pages[r][i] == Zero && Child(n, i) !in m1.tbl; }
    else if 0 <= m1.tbl[n] < |m1.pages| { assert EntryOk(m1, n, i); }
  }

  lemma NewRootEntries(m1: Mem, r: int)
    requires Wf(m1) && 0 < r < |m1.own| && m1.own[r] == Busy && m1.pages[r] == Fill(Zero) && forall n :: n in m1.tbl ==> n.r != r
    ensures Wf(NewRoot(m1, r))
  {
    var m' := NewRoot(m1, r);
    forall n, i | n in m'.tbl && 0 <= m'.tbl[n] < |m'.pages| && 0 <= i < NPTE ensures EntryOk(m', n, i) { NewRootEntry(m1, r, n, i); }
    forall n | n in m'.tbl ensures Has(m', m'.tbl[n]) && m'.own[m'.tbl[n]] == Table(n) && NodeOk(m', n) {
      if n in m1.tbl { assert NodeOk(m1, n); }
    }
    forall a, v {:trigger Pte(m', a, v)} ensures Pte(m', a, v) == Pte(m1, a, v) {}
    FreeKept(m1, m');
  }

  /** A page that is not a table is the root of nothing. */
  lemma NoTreeYet(m: Mem, r: int)
    requires Wf(m) && Has(m, r) && !m.own[r].Table?
    ensures (forall n :: n in m.tbl ==> n.r != r) && NoLeaf(m.tr, r)
  {
    forall n | n in m.tbl ensures n.r != r {
      assert NodeOk(m, n);
      assert n.L0? ==> NodeOk(m, L1(n.r, n.i));
      assert L2(n.r) in m.tbl && NodeOk(m, L2(n.r));
    }
    forall v ensures Va(r, v) !in m.tr {
      assert Pte(m, r, v) == Zero;
    }
  }

  /** Conservation: no page serves two purposes.  No two mapped pages of all the trees share a
      frame, TRAMPOLINE and TRAPFRAME apart, and no frame of theirs is a table or free. */
  lemma NoSharing(m: Mem, n1: Node, n2: Node, a: Va, b: Va, i: nat, j: nat)
    requires Wf(m) && Owned(m)
    ensures n1 in m.tbl && n2 in m.tbl && m.tbl[n1] == m.tbl[n2] ==> n1 == n2
    ensures UserLeaf(m, a) && UserLeaf(m, b) && m.tr[a].ppn == m.tr[b].ppn ==> a == b
    ensures UserLeaf(m, a) && n1 in m.tbl ==> m.tr[a].ppn != m.tbl[n1]
    ensures i < |m.fs| && j < |m.fs| && m.fs[i] == m.fs[j] ==> i == j
    ensures i < |m.fs| && n1 in m.tbl ==> m.fs[i] != m.tbl[n1]
    ensures i < |m.fs| && UserLeaf(m, a) ==> m.fs[i] != m.tr[a].ppn
  {
    assert a == Va(a.r, a.v) && b == Va(b.r, b.v);
    assert UserLeaf(m, a) ==> OwnedLeaf(m, a.r, a.v);
    assert UserLeaf(m, b) ==> OwnedLeaf(m, b.r, b.v);
  }

  /** A mapped page other than TRAMPOLINE and TRAPFRAME. */
  ghost predicate UserLeaf(m: Mem, a: Va) { a in m.tr && m.tr[a].Entry? && !Special(a.v) }

  /** Every entry that leads to a table or to a user page is one 64-bit word that PTE2PA and the
      flag tests take apart again, so Entry may stand for that word. */
  lemma EntriesReadBack(m: Mem, n: Node, i: nat, a: Va)
    requires Wf(m) && Owned(m) && n in m.tbl && !n.L0? && i < NPTE && UserLeaf(m, a)
    ensures var e := m.pages[m.tbl[n]][i]; V(e) ==> e.Entry? && 0 <= e.ppn && FromBits(Bits(e)) == e
    ensures 0 <= m.tr[a].ppn && FromBits(Bits(m.tr[a])) == m.tr[a]
  {
    assert EntryOk(m, n, i) && OwnedLeaf(m, a.r, a.v) && a == Va(a.r, a.v);
    BitsRoundTrip(m.tr[a]);
    var e := m.pages[m.tbl[n]][i];
    if V(e) { BitsRoundTrip(e); }
  }
}
